/** The string helpers and checks of the shared utility module. The process
    environment is passed in as a map from variable name to value. */
module Utils {
  import opened Wrappers
  import Text
  import Seqs
  import Json

  /** The environment variable is truthy: present and not the empty string. */
  predicate IsSet(env: map<string, string>, name: string) {
    name in env && env[name] != ""
  }

  const DefaultBaseUrl := "http://localhost:3000"

  /** `baseUrl`: the production host over https, else the local server. */
  function BaseUrl(env: map<string, string>): (r: string)
    ensures IsSet(env, "VERCEL_PROJECT_PRODUCTION_URL") ==>
              r == "https://" + env["VERCEL_PROJECT_PRODUCTION_URL"]
    ensures !IsSet(env, "VERCEL_PROJECT_PRODUCTION_URL") ==> r == DefaultBaseUrl
  {
    if IsSet(env, "VERCEL_PROJECT_PRODUCTION_URL")
    then "https://" + env["VERCEL_PROJECT_PRODUCTION_URL"]
    else DefaultBaseUrl
  }

  /** `createUrl(pathname, params)`. `params` is the `toString()` of the
      search parameters, `None` when none were given. */
  function CreateUrl(pathname: string, params: Option<string>): (r: string)
    ensures params.None? ==> r == pathname
    ensures params.Some? && params.value != "" ==> r == pathname + "?" + params.value
    ensures params.Some? && params.value == "" ==> r == pathname
    ensures Text.StartsWith(r, pathname)
  {
    match params
    case None => pathname
    case Some(query) =>
      var queryString := if |query| > 0 then "?" + query else "";
      assert (pathname + queryString)[..|pathname|] == pathname;
      pathname + queryString
  }

  /** `ensureStartsWith(stringToCheck, startsWith)` */
  function EnsureStartsWith(stringToCheck: string, startsWith: string): (r: string)
    ensures Text.StartsWith(r, startsWith)
    ensures Text.StartsWith(stringToCheck, startsWith) ==> r == stringToCheck
    ensures !Text.StartsWith(stringToCheck, startsWith) ==> r == startsWith + stringToCheck
  {
    if Text.StartsWith(stringToCheck, startsWith) then stringToCheck
    else
      assert (startsWith + stringToCheck)[..|startsWith|] == startsWith;
      startsWith + stringToCheck
  }

  lemma EnsureStartsWithIdempotent(s: string, prefix: string)
    ensures EnsureStartsWith(EnsureStartsWith(s, prefix), prefix) == EnsureStartsWith(s, prefix)
  {
  }

  const RequiredVariables: seq<string> := ["DATABASE_URL", "VERCEL_PROJECT_PRODUCTION_URL"]

  const MissingVariablesHeader :=
    "The following environment variables are missing. Your site may not work without them:\n\n"

  /** The names that are unset or empty, in list order. */
  function Missing(env: map<string, string>, names: seq<string>): (r: seq<string>)
    ensures |r| <= |names|
    ensures forall name :: name in r ==> name in names && !IsSet(env, name)
  {
    if names == [] then []
    else
      var last := names[|names| - 1];
      Missing(env, names[..|names| - 1]) + (if IsSet(env, last) then [] else [last])
  }

  /** Exactly the unset names are reported. */
  lemma {:induction false} MissingMembers(env: map<string, string>, names: seq<string>)
    ensures forall name :: name in Missing(env, names) <==> name in names && !IsSet(env, name)
  {
    if names != [] {
      var init := names[..|names| - 1];
      MissingMembers(env, init);
      assert names == init + [names[|names| - 1]];
    }
  }

  /** The names of `RequiredVariables` that are unset or empty, in list order. */
  function MissingVariables(env: map<string, string>): (r: seq<string>)
    ensures r == (if IsSet(env, "DATABASE_URL") then [] else ["DATABASE_URL"]) +
                 (if IsSet(env, "VERCEL_PROJECT_PRODUCTION_URL") then []
                  else ["VERCEL_PROJECT_PRODUCTION_URL"])
  {
    var first := RequiredVariables[..1];
    assert first == ["DATABASE_URL"] && first[..0] == [];
    assert Missing(env, first) == (if IsSet(env, "DATABASE_URL") then [] else ["DATABASE_URL"]);
    Missing(env, RequiredVariables)
  }

  /** The `forEach` that pushes each unset variable onto the list. */
  method CollectMissing(env: map<string, string>, names: seq<string>) returns (missing: seq<string>)
    ensures missing == Missing(env, names)
  {
    missing := [];
    var i := 0;
    while i < |names|
      invariant 0 <= i <= |names|
      invariant missing == Missing(env, names[..i])
    {
      assert names[..i + 1][..i] == names[..i];
      if !IsSet(env, names[i]) {
        missing := missing + [names[i]];
      }
      i := i + 1;
    }
    assert names[..i] == names;
  }

  /** `validateEnvironmentVariables()`: `Some(message)` stands for the thrown
      error, `None` for a normal return. */
  method ValidateEnvironmentVariables(env: map<string, string>) returns (error: Option<string>)
    ensures error.None? <==> IsSet(env, "DATABASE_URL") && IsSet(env, "VERCEL_PROJECT_PRODUCTION_URL")
    ensures error.Some? ==> error.value == MissingVariablesHeader + Text.Join(MissingVariables(env), "\n")
  {
    var missing := CollectMissing(env, RequiredVariables);
    assert missing == MissingVariables(env);
    if |missing| > 0 {
      error := Some(MissingVariablesHeader + Text.Join(missing, "\n"));
    } else {
      error := None;
    }
  }

  /** With neither variable set the message lists both, one per line. */
  lemma BothMissingMessage(env: map<string, string>)
    requires !IsSet(env, "DATABASE_URL") && !IsSet(env, "VERCEL_PROJECT_PRODUCTION_URL")
    ensures MissingVariablesHeader + Text.Join(MissingVariables(env), "\n") ==
            MissingVariablesHeader + "DATABASE_URL" + "\n" + "VERCEL_PROJECT_PRODUCTION_URL"
  {
    var names := MissingVariables(env);
    assert names == ["DATABASE_URL", "VERCEL_PROJECT_PRODUCTION_URL"];
    assert names[1..] == ["VERCEL_PROJECT_PRODUCTION_URL"];
  }

  /** `parseJsonField(raw)`; `parse` stands for `JSON.parse`, `None` for a
      parse that throws. */
  function ParseJsonField(raw: Json.Value, parse: string -> Option<Json.Value>): (r: Json.Value)
    ensures Json.IsNullish(raw) ==> r == Json.Null
    ensures !Json.IsNullish(raw) && !raw.Str? ==> r == raw
    ensures raw.Str? && parse(raw.s).None? ==> r == raw
    ensures raw.Str? && parse(raw.s).Some? ==> r == parse(raw.s).value
  {
    if Json.IsNullish(raw) then Json.Null
    else if raw.Str? then parse(raw.s).GetOr(raw)
    else raw
  }

  /** `isMerchandiseSnapshot(v)`: a loose check on the keys of an object. */
  function IsMerchandiseSnapshot(v: Json.Value): (r: bool)
    ensures r <==> v.Obj? && ("product" in v.fields || "variant" in v.fields || "selectedOptions" in v.fields)
  {
    if !Json.Truthy(v) || !Json.IsObjectLike(v) then false
    else Json.HasKey(v, "product") || Json.HasKey(v, "variant") || Json.HasKey(v, "selectedOptions")
  }
}
