/** `ProductOptionsForm`: options edited as comma-separated value lists. */
module ProductOptions {
  import opened Wrappers
  import Text
  import Seqs

  /** A value as the form stores it: non-empty, trimmed and without commas. */
  predicate CleanValue(v: string) {
    v != "" && Text.Trim(v) == v && ',' !in v
  }

  predicate NonEmpty(v: string) {
    v != ""
  }

  /** The comma-separated pieces of the input, each trimmed. */
  function Pieces(input: string): (r: seq<string>)
    ensures |r| >= 1
    ensures forall v :: v in r ==> Text.Trim(v) == v && ',' !in v
  {
    var pieces := Text.Split(input, ',');
    Text.SplitPiecesFree(input, ',');
    var r := Seqs.Map(pieces, Text.Trim);
    forall k | 0 <= k < |r| ensures Text.Trim(r[k]) == r[k] && ',' !in r[k] {
      Text.TrimIdempotent(pieces[k]);
      Text.TrimKeepsOut(pieces[k], ',');
    }
    r
  }

  /** The parsed values: the trimmed pieces, blank ones dropped. */
  function Parse(input: string): (values: seq<string>)
    ensures forall v :: v in values ==> CleanValue(v)
  {
    Seqs.Filter(Pieces(input), NonEmpty)
  }

  /** The values as displayed: joined by a comma and a space. */
  function Display(values: seq<string>): (s: string)
    ensures values == [] ==> s == ""
    ensures |values| == 1 ==> s == values[0]
    ensures |values| > 0 ==> |values[0]| <= |s| && s[..|values[0]|] == values[0]
  {
    var s := Text.Join(values, ", ");
    assert |values| > 1 ==> s == values[0] + (", " + Text.Join(values[1..], ", "));
    s
  }

  /** A leading space changes nothing: its piece is trimmed anyway. */
  lemma ParseLeadingSpace(x: string)
    ensures Parse(" " + x) == Parse(x)
  {
    PiecesLeadingSpace(x);
  }

  lemma PiecesLeadingSpace(x: string)
    ensures Pieces(" " + x) == Pieces(x)
  {
    var p := Text.Split(x, ',');
    Text.SplitNonSeparator(' ', x, ',');
    Text.TrimLeadingSpace(' ', p[0]);
    var q := Text.Split(" " + x, ',');
    assert q == [[' '] + p[0]] + p[1..];
    assert |Seqs.Map(q, Text.Trim)| == |Seqs.Map(p, Text.Trim)|;
    forall k | 0 <= k < |q| ensures Seqs.Map(q, Text.Trim)[k] == Seqs.Map(p, Text.Trim)[k] {
      if k > 0 {
        assert q[k] == p[k];
      }
    }
  }

  /** The stored values survive being displayed and typed back. */
  lemma {:induction false} ParseDisplayRoundTrip(values: seq<string>)
    requires forall v :: v in values ==> CleanValue(v)
    ensures Parse(Display(values)) == values
  {
    if values == [] {
      assert Text.Split("", ',') == [""];
      assert Seqs.Map([""], Text.Trim) == [""];
    } else if |values| == 1 {
      var v := values[0];
      assert v in values;
      Text.SplitNoSeparator(v, ',');
      assert Seqs.Map([v], Text.Trim) == [v];
    } else {
      var v := values[0];
      assert v in values;
      var rest := Display(values[1..]);
      assert Display(values) == v + [','] + (" " + rest);
      Text.SplitAfterPiece(v, ',', " " + rest);
      var tail := Text.Split(" " + rest, ',');
      Seqs.MapConcat([v], tail, Text.Trim);
      Seqs.FilterConcat([v], Seqs.Map(tail, Text.Trim), NonEmpty);
      assert Seqs.Filter(Seqs.Map([v], Text.Trim), NonEmpty) == [v];
      assert Parse(Display(values)) == [v] + Parse(" " + rest);
      ParseLeadingSpace(rest);
      ParseDisplayRoundTrip(values[1..]);
    }
  }

  /** Each comma ends a piece: what comes before the first comma is parsed
      on its own. */
  lemma ParseAtComma(a: string, b: string)
    requires ',' !in a
    ensures Parse(a + [','] + b) == Seqs.Filter([Text.Trim(a)], NonEmpty) + Parse(b)
  {
    PiecesAtComma(a, b);
    Seqs.FilterConcat([Text.Trim(a)], Pieces(b), NonEmpty);
  }

  lemma PiecesAtComma(a: string, b: string)
    requires ',' !in a
    ensures Pieces(a + [','] + b) == [Text.Trim(a)] + Pieces(b)
  {
    Text.SplitAfterPiece(a, ',', b);
    Seqs.MapConcat([a], Text.Split(b, ','), Text.Trim);
  }

  /** A blank piece (`"a, ,b"`, `"a,,b"`) contributes no value. */
  lemma BlankPieceVanishes(a: string, b: string)
    requires ',' !in a && Text.Trim(a) == ""
    ensures Parse(a + [','] + b) == Parse(b)
  {
    ParseAtComma(a, b);
    assert Seqs.Filter([Text.Trim(a)], NonEmpty) == [];
  }

  datatype ProductOption = ProductOption(name: string, values: seq<string>)

  /** The values of the option at the index, none when it is absent. */
  function CurrentValues(options: Option<seq<ProductOption>>, index: int): (r: seq<string>)
    ensures options.Some? && 0 <= index < |options.value| ==> r == options.value[index].values
    ensures !(options.Some? && 0 <= index < |options.value|) ==> r == []
  {
    if options.Some? && 0 <= index < |options.value| then options.value[index].values else []
  }

  /** The input's `onChange`: the option's values become the parsed input. */
  function SetValues(options: seq<ProductOption>, index: nat, input: string): (r: seq<ProductOption>)
    requires index < |options|
    ensures |r| == |options|
    ensures r[index] == ProductOption(options[index].name, Parse(input))
    ensures forall k :: 0 <= k < |r| && k != index ==> r[k] == options[k]
  {
    options[index := options[index].(values := Parse(input))]
  }

  /** "Add Option": a blank option at the end. */
  function AddOption(options: seq<ProductOption>): (r: seq<ProductOption>)
    ensures |r| == |options| + 1 && r[..|options|] == options
    ensures r[|options|] == ProductOption("", [])
  {
    options + [ProductOption("", [])]
  }

  /** "Remove Option": the option at the index goes, the others close up
      in order. */
  function RemoveOption(options: seq<ProductOption>, index: nat): (r: seq<ProductOption>)
    requires index < |options|
    ensures |r| == |options| - 1
    ensures forall k :: 0 <= k < index ==> r[k] == options[k]
    ensures forall k :: index <= k < |r| ==> r[k] == options[k + 1]
  {
    options[..index] + options[index + 1..]
  }

  /** The prefill effect: a missing or empty list is replaced by the
      defaults; any other list is left alone. */
  function Prefill(options: Option<seq<ProductOption>>, defaults: seq<ProductOption>): (r: seq<ProductOption>)
    ensures options.None? || options.value == [] ==> r == defaults
    ensures options.Some? && options.value != [] ==> r == options.value
  {
    if options.None? || |options.value| == 0 then defaults else options.value
  }
}
