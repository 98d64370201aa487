/** The dashboard image picker: uploads collected from the widget's callback,
    merged into the local list without duplicates, and removals. */
module ImageUpload {
  import opened Wrappers
  import Json
  import Seqs
  import Grouping

  /** The upload's info record, or the result itself when it has none. */
  function InfoOf(result: Json.Value): (info: Json.Value)
    ensures Json.IsNullish(result) ==> info == result
    ensures !Json.IsNullish(result) && !Json.IsNullish(Json.Get(result, "info")) ==> info == Json.Get(result, "info")
    ensures !Json.IsNullish(result) && Json.IsNullish(Json.Get(result, "info")) ==> info == result
  {
    var inner := if Json.IsNullish(result) then Json.Undefined else Json.Get(result, "info");
    if Json.IsNullish(inner) then result else inner
  }

  /** The field holds a string. */
  predicate IsStringField(info: Json.Value, key: string) {
    Json.Get(info, key).Str?
  }

  /** The elements of the `secure_urls` array, none when it is not an array. */
  function SecureUrls(info: Json.Value): seq<Json.Value> {
    if Json.Get(info, "secure_urls").Arr? then Json.Get(info, "secure_urls").items else []
  }

  /** The URLs one callback delivers: `secure_url`, then every element of
      `secure_urls`, then `url` unless it was already collected. */
  function Collected(info: Json.Value): (urls: seq<Json.Value>)
    ensures urls == [] <==>
      !IsStringField(info, "secure_url") && !Json.IsNonEmptyArray(Json.Get(info, "secure_urls")) && !IsStringField(info, "url")
    ensures IsStringField(info, "secure_url") ==> urls[0] == Json.Get(info, "secure_url")
    ensures IsStringField(info, "url") ==> Json.Get(info, "url") in urls
    ensures forall v :: v in urls ==>
      v == Json.Get(info, "secure_url") || v == Json.Get(info, "url") || v in SecureUrls(info)
  {
    var single := if IsStringField(info, "secure_url") then [Json.Get(info, "secure_url")] else [];
    var many := SecureUrls(info);
    var url := Json.Get(info, "url");
    if url.Str? && url !in single + many then single + many + [url] else single + many
  }

  /** The order of the collected URLs: `secure_url` when it is a string, then
      every element of `secure_urls` in array order, then `url` exactly when it
      is a string not already among them. */
  lemma CollectedOrder(info: Json.Value)
    ensures var urls := Collected(info);
      var off := if IsStringField(info, "secure_url") then 1 else 0;
      var lead := off + |SecureUrls(info)|;
      && lead <= |urls| <= lead + 1
      && (forall k :: 0 <= k < |SecureUrls(info)| ==> urls[off + k] == SecureUrls(info)[k])
      && (|urls| == lead + 1 <==> IsStringField(info, "url") && Json.Get(info, "url") !in urls[..lead])
      && (|urls| == lead + 1 ==> urls[lead] == Json.Get(info, "url"))
    ensures forall v :: v in SecureUrls(info) ==> v in Collected(info)
  {
    var single := if IsStringField(info, "secure_url") then [Json.Get(info, "secure_url")] else [];
    var many := SecureUrls(info);
    var lead := single + many;
    var urls := Collected(info);
    assert urls[..|lead|] == lead;
    forall k | 0 <= k < |many| ensures urls[|single| + k] == many[k] {
      assert urls[|single| + k] == lead[|single| + k];
    }
    forall v | v in many ensures v in urls {
      assert v in lead;
    }
  }

  /** De-duplication through a set: the values in order of first occurrence. */
  function Unique(xs: seq<Json.Value>): (r: seq<Json.Value>)
    ensures Grouping.Distinct(r)
    ensures forall v :: v in r <==> v in xs
  {
    var r := Grouping.FirstAppearance(xs, Same);
    assert forall v :: v in xs ==> v in r by {
      forall v | v in xs ensures v in r {
        assert Same(v) == v;
      }
    }
    r
  }

  function Same(v: Json.Value): Json.Value {
    v
  }

  /** A list that already has no duplicates is left as it is. */
  lemma {:induction false} UniqueOfDistinct(xs: seq<Json.Value>)
    requires Grouping.Distinct(xs)
    ensures Unique(xs) == xs
  {
    if xs != [] {
      var init := xs[..|xs| - 1];
      assert Grouping.Distinct(init) by {
        forall i, j | 0 <= i < j < |init| ensures init[i] != init[j] {
          assert init[i] == xs[i] && init[j] == xs[j];
        }
      }
      UniqueOfDistinct(init);
      assert xs == init + [xs[|xs| - 1]];
      Grouping.FirstAppearanceSnoc(init, xs[|xs| - 1], Same);
      assert xs[|xs| - 1] !in init by {
        forall i | 0 <= i < |init| ensures init[i] != xs[|xs| - 1] {
          assert init[i] == xs[i];
        }
      }
    }
  }

  /** Merging keeps the previous list, in order, at the front. */
  lemma UploadKeepsPrevious(prev: seq<Json.Value>, urls: seq<Json.Value>)
    requires Grouping.Distinct(prev)
    ensures |prev| <= |Unique(prev + urls)| && Unique(prev + urls)[..|prev|] == prev
  {
    UniqueOfDistinct(prev);
    Grouping.FirstAppearancePrefix(prev, urls, Same);
  }

  /** The same callback delivered twice merges like it was delivered once. */
  lemma UploadTwiceIsUploadOnce(prev: seq<Json.Value>, urls: seq<Json.Value>)
    ensures Unique(Unique(prev + urls) + urls) == Unique(prev + urls)
  {
    var once := Unique(prev + urls);
    UniqueOfDistinct(once);
    forall v | v in urls ensures Same(v) in Grouping.FirstAppearance(once, Same) {
      assert v in prev + urls;
    }
    Grouping.FirstAppearanceAbsorbs(once, urls, Same);
  }

  /** The removal filter's predicate: every value other than the URL. */
  function IsNot(url: Json.Value): Json.Value -> bool {
    (u: Json.Value) => u != url
  }

  /** Removal drops every occurrence of the URL and nothing else. */
  lemma RemoveDropsExactly(prev: seq<Json.Value>, url: Json.Value)
    ensures url !in Seqs.Filter(prev, IsNot(url))
    ensures forall v :: v in Seqs.Filter(prev, IsNot(url)) <==> v in prev && v != url
    ensures url !in prev ==> Seqs.Filter(prev, IsNot(url)) == prev
  {
    if url !in prev {
      Seqs.FilterAll(prev, IsNot(url));
    }
  }

  /** The parent's URL strings as values, none when it passes none. */
  function FromProps(value: Option<seq<string>>): (r: seq<Json.Value>)
    ensures |r| == |value.GetOr([])|
    ensures forall i :: 0 <= i < |r| ==> r[i] == Json.Str(value.GetOr([])[i])
  {
    Seqs.Map(value.GetOr([]), AsValue)
  }

  function AsValue(s: string): Json.Value {
    Json.Str(s)
  }

  /** The component's local state, with the calls it made to its parent's
      `onChange` and `onRemove` recorded in order. */
  class Picker {
    var localUrls: seq<Json.Value>
    var changes: seq<seq<Json.Value>>
    var removals: seq<Json.Value>

    /** The initial state: the parent's URLs, or none. */
    constructor(value: Option<seq<string>>)
      ensures localUrls == FromProps(value)
      ensures changes == [] && removals == []
    {
      localUrls := FromProps(value);
      changes := [];
      removals := [];
    }

    /** The effect that copies a new `value` from the parent. */
    method Sync(value: Option<seq<string>>)
      modifies this
      ensures localUrls == FromProps(value)
      ensures changes == old(changes) && removals == old(removals)
    {
      localUrls := FromProps(value);
    }

    /** Builds `newUrls` by pushing, as the callback does. */
    static method CollectUrls(info: Json.Value) returns (newUrls: seq<Json.Value>)
      ensures newUrls == Collected(info)
    {
      newUrls := [];
      if IsStringField(info, "secure_url") {
        newUrls := newUrls + [Json.Get(info, "secure_url")];
      }
      var many := Json.Get(info, "secure_urls");
      if many.Arr? {
        newUrls := newUrls + many.items;
      }
      var url := Json.Get(info, "url");
      if url.Str? && url !in newUrls {
        newUrls := newUrls + [url];
      }
    }

    /** The widget's success callback. */
    method OnUpload(result: Json.Value)
      modifies this
      ensures var info := InfoOf(result);
        if !Json.Truthy(info) || Collected(info) == [] then
          localUrls == old(localUrls) && changes == old(changes)
        else
          localUrls == Unique(old(localUrls) + Collected(info)) && changes == old(changes) + [localUrls]
      ensures removals == old(removals)
    {
      var info := InfoOf(result);
      if !Json.Truthy(info) {
        return;
      }
      var newUrls := CollectUrls(info);
      if |newUrls| == 0 {
        return;
      }
      localUrls := Unique(localUrls + newUrls);
      changes := changes + [localUrls];
    }

    /** The trash button of one image. */
    method HandleRemove(url: Json.Value)
      modifies this
      ensures localUrls == Seqs.Filter(old(localUrls), IsNot(url))
      ensures changes == old(changes) + [localUrls]
      ensures removals == old(removals) + [url]
    {
      localUrls := Seqs.Filter(localUrls, IsNot(url));
      changes := changes + [localUrls];
      removals := removals + [url];
    }
  }

  /** A missing result never changes the state. */
  lemma NullishResultIsIgnored(result: Json.Value)
    requires Json.IsNullish(result)
    ensures !Json.Truthy(InfoOf(result))
  {
  }
}
