/** The part of the zod validation library the request schemas use:
    object shapes, strings with length and format checks, numbers with
    integer and bound checks, booleans, enums, unions, arrays, `optional`,
    `nullable`, `default`, `preprocess` and `partial`. `safeParse` succeeds
    with the parsed value or fails; the issue messages are not modelled. */
module Zod {
  import opened Wrappers
  import Json
  import Seqs
  import Text

  /** What the library decides by regular expression or by the JavaScript
      runtime, and the model takes as given. */
  datatype Formats = Formats(
    isEmail: string -> bool,
    isUuid: string -> bool,
    isCuid: string -> bool,
    isUrl: string -> bool,
    numberToString: real -> string)

  datatype StringCheck = MinLength(n: nat) | Email | Uuid | Cuid | Url

  datatype NumberCheck = IsInt | AtLeast(bound: real) | Positive

  datatype Field = Field(key: string, schema: Schema)

  /** A schema as the builder calls produce it: `z.string()` with its checks
      (`.min(n)`, `.email()`, `.uuid()`, `.cuid()`, `.url()`), `z.number()`
      with its checks (`.int()`, `.min(b)`, `.positive()`), `z.boolean()`,
      `z.any()`, `z.enum(values)`, `z.union(options)`, `.optional()`,
      `.nullable()`, `.default(d)`, `z.preprocess(f, schema)`,
      `z.array(element)` and `z.object(shape)`. */
  datatype Schema =
    | ZString(checks: seq<StringCheck>)
    | ZNumber(numberChecks: seq<NumberCheck>)
    | ZBoolean
    | ZAny
    | ZEnum(values: seq<string>)
    | ZUnion(options: seq<Schema>)
    | ZOptional(inner: Schema)
    | ZNullable(inner: Schema)
    | ZDefault(inner: Schema, default: Json.Value)
    | ZPreprocess(transform: (Json.Value, Formats) -> Json.Value, inner: Schema)
    | ZArray(element: Schema)
    | ZObject(fields: seq<Field>)

  predicate StringCheckHolds(c: StringCheck, s: string, fmt: Formats) {
    match c
    case MinLength(n) => |s| >= n
    case Email => fmt.isEmail(s)
    case Uuid => fmt.isUuid(s)
    case Cuid => fmt.isCuid(s)
    case Url => fmt.isUrl(s)
  }

  predicate StringChecksHold(checks: seq<StringCheck>, s: string, fmt: Formats) {
    checks == [] || (StringCheckHolds(checks[0], s, fmt) && StringChecksHold(checks[1..], s, fmt))
  }

  predicate IsInteger(n: real) {
    n.Floor as real == n
  }

  predicate NumberCheckHolds(c: NumberCheck, n: real) {
    match c
    case IsInt => IsInteger(n)
    case AtLeast(b) => n >= b
    case Positive => n > 0.0
  }

  predicate NumberChecksHold(checks: seq<NumberCheck>, n: real) {
    checks == [] || (NumberCheckHolds(checks[0], n) && NumberChecksHold(checks[1..], n))
  }

  /** `schema.safeParse(v)`: the parsed value, or None when validation fails. */
  function Parse(s: Schema, v: Json.Value, fmt: Formats): (r: Option<Json.Value>)
    decreases s, 1, 0
  {
    match s
    case ZString(checks) =>
      if v.Str? && StringChecksHold(checks, v.s, fmt) then Some(v) else None
    case ZNumber(checks) =>
      if v.Num? && NumberChecksHold(checks, v.n) then Some(v) else None
    case ZBoolean => if v.Bool? then Some(v) else None
    case ZAny => Some(v)
    case ZEnum(values) => if v.Str? && v.s in values then Some(v) else None
    case ZUnion(_) => ParseUnion(s, 0, v, fmt)
    case ZOptional(inner) => if v.Undefined? then Some(v) else Parse(inner, v, fmt)
    case ZNullable(inner) => if v.Null? then Some(v) else Parse(inner, v, fmt)
    case ZDefault(inner, d) => Parse(inner, if v.Undefined? then d else v, fmt)
    case ZPreprocess(f, inner) => Parse(inner, f(v, fmt), fmt)
    case ZArray(_) =>
      if v.Arr? then
        match ParseItems(s, v.items, fmt)
        case Some(items) => Some(Json.Arr(items))
        case None => None
      else None
    case ZObject(_) =>
      if v.Obj? then
        match ParseFields(s, 0, v, fmt)
        case Some(m) => Some(Json.Obj(m))
        case None => None
      else None
  }

  /** The first option that accepts the value. */
  function ParseUnion(u: Schema, k: nat, v: Json.Value, fmt: Formats): Option<Json.Value>
    requires u.ZUnion?
    decreases u, 0, |u.options| - k
  {
    if k >= |u.options| then None
    else
      assert u.options[k] in u.options;
      match Parse(u.options[k], v, fmt)
      case Some(r) => Some(r)
      case None => ParseUnion(u, k + 1, v, fmt)
  }

  /** Every element parsed by the array's element schema. */
  function ParseItems(a: Schema, items: seq<Json.Value>, fmt: Formats): (r: Option<seq<Json.Value>>)
    requires a.ZArray?
    ensures r.Some? ==> |r.value| == |items|
    decreases a, 0, |items|
  {
    if items == [] then Some([])
    else
      match Parse(a.element, items[0], fmt)
      case None => None
      case Some(x) =>
        match ParseItems(a, items[1..], fmt)
        case None => None
        case Some(xs) => Some([x] + xs)
  }

  /** The object's fields from index k on. A field is present in the output
      when its parsed value is defined or the input has the key; other keys
      of the input are stripped. */
  function ParseFields(o: Schema, k: nat, v: Json.Value, fmt: Formats): Option<map<string, Json.Value>>
    requires o.ZObject? && v.Obj?
    decreases o, 0, |o.fields| - k
  {
    if k >= |o.fields| then Some(map[])
    else
      var f := o.fields[k];
      assert f in o.fields;
      match Parse(f.schema, Json.Get(v, f.key), fmt)
      case None => None
      case Some(x) =>
        match ParseFields(o, k + 1, v, fmt)
        case None => None
        case Some(m) => Some(if !x.Undefined? || f.key in v.fields then m[f.key := x] else m)
  }

  /** `z.string()` with one check accepts the strings that pass it. */
  lemma StringAccepts(c: StringCheck, v: Json.Value, fmt: Formats)
    ensures Parse(ZString([c]), v, fmt).Some? <==> v.Str? && StringCheckHolds(c, v.s, fmt)
  {
    if v.Str? {
      assert StringChecksHold([c][1..], v.s, fmt) by {
        assert [c][1..] == [];
      }
    }
  }

  /** `z.number().int()` accepts the whole numbers. */
  lemma IntAccepts(v: Json.Value, fmt: Formats)
    ensures Parse(ZNumber([IsInt]), v, fmt).Some? <==> v.Num? && IsInteger(v.n)
  {
    if v.Num? {
      assert NumberChecksHold([IsInt][1..], v.n) by {
        assert [IsInt][1..] == [];
      }
    }
  }

  /** `z.number().int()` with one more check: `.min(b)` or `.positive()`. */
  lemma IntWithAccepts(c: NumberCheck, v: Json.Value, fmt: Formats)
    ensures Parse(ZNumber([IsInt, c]), v, fmt).Some? <==> v.Num? && IsInteger(v.n) && NumberCheckHolds(c, v.n)
  {
    if v.Num? {
      assert NumberChecksHold([IsInt, c], v.n) <==> IsInteger(v.n) && NumberChecksHold([c], v.n) by {
        assert [IsInt, c][1..] == [c];
      }
      assert NumberChecksHold([c][1..], v.n) by {
        assert [c][1..] == [];
      }
    }
  }

  /** `.optional()` on every field: `schema.partial()`. */
  function OptionalField(f: Field): Field {
    Field(f.key, ZOptional(f.schema))
  }

  function Partial(o: Schema): (p: Schema)
    requires o.ZObject?
    ensures p.ZObject? && |p.fields| == |o.fields|
    ensures forall i :: 0 <= i < |p.fields| ==> p.fields[i] == Field(o.fields[i].key, ZOptional(o.fields[i].schema))
  {
    ZObject(Seqs.Map(o.fields, OptionalField))
  }

  /** Field k's schema accepts the value's property of that name. */
  predicate FieldAccepts(o: Schema, k: nat, v: Json.Value, fmt: Formats)
    requires o.ZObject? && k < |o.fields|
  {
    Parse(o.fields[k].schema, Json.Get(v, o.fields[k].key), fmt).Some?
  }

  /** A field whose schema is `z.string()` with one check. */
  lemma StringField(o: Schema, k: nat, c: StringCheck, v: Json.Value, fmt: Formats)
    requires o.ZObject? && k < |o.fields| && o.fields[k].schema == ZString([c])
    ensures FieldAccepts(o, k, v, fmt) <==>
              Json.Get(v, o.fields[k].key).Str? && StringCheckHolds(c, Json.Get(v, o.fields[k].key).s, fmt)
  {
    StringAccepts(c, Json.Get(v, o.fields[k].key), fmt);
  }

  /** A field whose schema is `z.string()` with one check, made optional. */
  lemma MaybeStringField(o: Schema, k: nat, c: StringCheck, v: Json.Value, fmt: Formats)
    requires o.ZObject? && k < |o.fields| && o.fields[k].schema == ZOptional(ZString([c]))
    ensures FieldAccepts(o, k, v, fmt) <==>
              Json.Get(v, o.fields[k].key).Undefined? ||
              (Json.Get(v, o.fields[k].key).Str? && StringCheckHolds(c, Json.Get(v, o.fields[k].key).s, fmt))
  {
    StringAccepts(c, Json.Get(v, o.fields[k].key), fmt);
  }

  /** A field whose schema is `z.string().optional()`. */
  lemma MaybePlainField(o: Schema, k: nat, v: Json.Value, fmt: Formats)
    requires o.ZObject? && k < |o.fields| && o.fields[k].schema == ZOptional(ZString([]))
    ensures FieldAccepts(o, k, v, fmt) <==>
              Json.Get(v, o.fields[k].key).Undefined? || Json.Get(v, o.fields[k].key).Str?
  {
  }

  /** A field whose schema is `z.any().optional()` accepts anything. */
  lemma MaybeAnyField(o: Schema, k: nat, v: Json.Value, fmt: Formats)
    requires o.ZObject? && k < |o.fields| && o.fields[k].schema == ZOptional(ZAny)
    ensures FieldAccepts(o, k, v, fmt)
  {
  }

  /** A field whose schema is an optional enum. */
  lemma MaybeEnumField(o: Schema, k: nat, values: seq<string>, v: Json.Value, fmt: Formats)
    requires o.ZObject? && k < |o.fields| && o.fields[k].schema == ZOptional(ZEnum(values))
    ensures FieldAccepts(o, k, v, fmt) <==>
              Json.Get(v, o.fields[k].key).Undefined? ||
              (Json.Get(v, o.fields[k].key).Str? && Json.Get(v, o.fields[k].key).s in values)
  {
    var x := Json.Get(v, o.fields[k].key);
    assert Parse(o.fields[k].schema, x, fmt) == if x.Undefined? then Some(x) else Parse(ZEnum(values), x, fmt);
  }

  /** A field whose schema is an optional enum with a default from the
      enum: an absent value takes the default. */
  lemma DefaultEnumField(o: Schema, k: nat, values: seq<string>, d: string, v: Json.Value, fmt: Formats)
    requires o.ZObject? && k < |o.fields| && o.fields[k].schema == ZDefault(ZOptional(ZEnum(values)), Json.Str(d))
    requires d in values
    ensures FieldAccepts(o, k, v, fmt) <==>
              Json.Get(v, o.fields[k].key).Undefined? ||
              (Json.Get(v, o.fields[k].key).Str? && Json.Get(v, o.fields[k].key).s in values)
  {
    var x := Json.Get(v, o.fields[k].key);
    var y := if x.Undefined? then Json.Str(d) else x;
    assert Parse(o.fields[k].schema, x, fmt) == Parse(ZOptional(ZEnum(values)), y, fmt);
    assert Parse(ZOptional(ZEnum(values)), y, fmt) == if y.Undefined? then Some(y) else Parse(ZEnum(values), y, fmt);
  }

  /** A field whose schema is `z.boolean()` with a default. */
  lemma DefaultBoolField(o: Schema, k: nat, d: bool, v: Json.Value, fmt: Formats)
    requires o.ZObject? && k < |o.fields| && o.fields[k].schema == ZDefault(ZBoolean, Json.Bool(d))
    ensures FieldAccepts(o, k, v, fmt) <==> Json.Get(v, o.fields[k].key).Undefined? || Json.Get(v, o.fields[k].key).Bool?
  {
    var x := Json.Get(v, o.fields[k].key);
    assert Parse(o.fields[k].schema, x, fmt) == Parse(ZBoolean, if x.Undefined? then Json.Bool(d) else x, fmt);
  }

  /** A field whose schema is made optional. */
  lemma MaybeField(o: Schema, k: nat, s: Schema, v: Json.Value, fmt: Formats)
    requires o.ZObject? && k < |o.fields| && o.fields[k].schema == ZOptional(s)
    ensures FieldAccepts(o, k, v, fmt) <==>
              Json.Get(v, o.fields[k].key).Undefined? || Parse(s, Json.Get(v, o.fields[k].key), fmt).Some?
  {
  }

  /** A field whose schema is made nullable. */
  lemma NullableField(o: Schema, k: nat, s: Schema, v: Json.Value, fmt: Formats)
    requires o.ZObject? && k < |o.fields| && o.fields[k].schema == ZNullable(s)
    ensures FieldAccepts(o, k, v, fmt) <==>
              Json.Get(v, o.fields[k].key).Null? || Parse(s, Json.Get(v, o.fields[k].key), fmt).Some?
  {
  }

  /** A field whose schema is made nullable, then optional. */
  lemma MaybeNullableField(o: Schema, k: nat, s: Schema, v: Json.Value, fmt: Formats)
    requires o.ZObject? && k < |o.fields| && o.fields[k].schema == ZOptional(ZNullable(s))
    ensures FieldAccepts(o, k, v, fmt) <==>
              Json.Get(v, o.fields[k].key).Undefined? || Json.Get(v, o.fields[k].key).Null? ||
              Parse(s, Json.Get(v, o.fields[k].key), fmt).Some?
  {
    var x := Json.Get(v, o.fields[k].key);
    assert Parse(o.fields[k].schema, x, fmt) == if x.Undefined? then Some(x) else Parse(ZNullable(s), x, fmt);
  }

  /** A field whose schema is an array. */
  lemma ArrayField(o: Schema, k: nat, e: Schema, v: Json.Value, fmt: Formats)
    requires o.ZObject? && k < |o.fields| && o.fields[k].schema == ZArray(e)
    ensures FieldAccepts(o, k, v, fmt) <==>
              Json.Get(v, o.fields[k].key).Arr? &&
              forall i :: 0 <= i < |Json.Get(v, o.fields[k].key).items| ==>
                Parse(e, Json.Get(v, o.fields[k].key).items[i], fmt).Some?
  {
    var x := Json.Get(v, o.fields[k].key);
    if x.Arr? {
      ArrayAccepts(ZArray(e), x.items, fmt);
    }
  }

  /** A field whose schema is an array that defaults to the empty array. */
  lemma DefaultArrayField(o: Schema, k: nat, e: Schema, v: Json.Value, fmt: Formats)
    requires o.ZObject? && k < |o.fields| && o.fields[k].schema == ZDefault(ZArray(e), Json.Arr([]))
    ensures FieldAccepts(o, k, v, fmt) <==>
              Json.Get(v, o.fields[k].key).Undefined? ||
              (Json.Get(v, o.fields[k].key).Arr? &&
               forall i :: 0 <= i < |Json.Get(v, o.fields[k].key).items| ==>
                 Parse(e, Json.Get(v, o.fields[k].key).items[i], fmt).Some?)
  {
    var x := Json.Get(v, o.fields[k].key);
    assert Parse(o.fields[k].schema, x, fmt) == Parse(ZArray(e), if x.Undefined? then Json.Arr([]) else x, fmt);
    ArrayAccepts(ZArray(e), [], fmt);
    if x.Arr? {
      ArrayAccepts(ZArray(e), x.items, fmt);
    }
  }

  /** Every field from index k on accepts. */
  predicate FieldsAccept(o: Schema, k: nat, v: Json.Value, fmt: Formats)
    requires o.ZObject?
    decreases |o.fields| - k
  {
    k >= |o.fields| || (FieldAccepts(o, k, v, fmt) && FieldsAccept(o, k + 1, v, fmt))
  }

  /** An object schema accepts an object when its fields, taken in order,
      all accept; the quantified step lets a caller walk a shape of any
      length one field at a time. */
  lemma ObjectAccepts(o: Schema, v: Json.Value, fmt: Formats)
    requires o.ZObject?
    ensures Parse(o, v, fmt).Some? <==> v.Obj? && FieldsAccept(o, 0, v, fmt)
    ensures forall k: nat {:trigger FieldsAccept(o, k, v, fmt)} :: k < |o.fields| ==>
      (FieldsAccept(o, k, v, fmt) <==> FieldAccepts(o, k, v, fmt) && FieldsAccept(o, k + 1, v, fmt))
    ensures FieldsAccept(o, |o.fields|, v, fmt)
  {
    ObjectAcceptsEach(o, v, fmt);
    FieldsAcceptAll(o, 0, v, fmt);
  }

  lemma {:induction false} FieldsAcceptAll(o: Schema, k: nat, v: Json.Value, fmt: Formats)
    requires o.ZObject?
    ensures FieldsAccept(o, k, v, fmt) <==> forall i :: k <= i < |o.fields| ==> FieldAccepts(o, i, v, fmt)
    decreases |o.fields| - k
  {
    if k < |o.fields| {
      FieldsAcceptAll(o, k + 1, v, fmt);
      assert (forall i :: k <= i < |o.fields| ==> FieldAccepts(o, i, v, fmt)) <==>
        FieldAccepts(o, k, v, fmt) && forall i :: k + 1 <= i < |o.fields| ==> FieldAccepts(o, i, v, fmt);
    }
  }

  /** An object schema accepts exactly the objects each of whose fields its
      schema accepts. */
  lemma ObjectAcceptsEach(o: Schema, v: Json.Value, fmt: Formats)
    requires o.ZObject?
    ensures Parse(o, v, fmt).Some? <==> v.Obj? && forall i :: 0 <= i < |o.fields| ==> FieldAccepts(o, i, v, fmt)
  {
    if v.Obj? {
      ParsedFieldsAcceptAll(o, 0, v, fmt);
    }
  }

  lemma {:induction false} ParsedFieldsAcceptAll(o: Schema, k: nat, v: Json.Value, fmt: Formats)
    requires o.ZObject? && v.Obj?
    ensures ParseFields(o, k, v, fmt).Some? <==> forall i :: k <= i < |o.fields| ==> FieldAccepts(o, i, v, fmt)
    decreases |o.fields| - k
  {
    if k < |o.fields| {
      ParsedFieldsAcceptAll(o, k + 1, v, fmt);
      assert (forall i :: k <= i < |o.fields| ==> FieldAccepts(o, i, v, fmt)) <==>
        FieldAccepts(o, k, v, fmt) && forall i :: k + 1 <= i < |o.fields| ==> FieldAccepts(o, i, v, fmt);
    }
  }

  /** No other field of the shape has the key of field i. */
  ghost predicate UniqueKey(fields: seq<Field>, i: nat) {
    i < |fields| && forall j :: 0 <= j < |fields| && j != i ==> fields[j].key != fields[i].key
  }

  /** A field's place in the parsed object: its parsed value, present when
      that value is defined or the input had the key. */
  lemma {:induction false} FieldsOutput(o: Schema, k: nat, v: Json.Value, fmt: Formats, i: nat)
    requires o.ZObject? && v.Obj? && k <= i < |o.fields| && UniqueKey(o.fields, i)
    requires ParseFields(o, k, v, fmt).Some?
    ensures var x := Parse(o.fields[i].schema, Json.Get(v, o.fields[i].key), fmt);
      var m := ParseFields(o, k, v, fmt).value;
      x.Some? && (o.fields[i].key in m <==> !x.value.Undefined? || o.fields[i].key in v.fields) &&
      (o.fields[i].key in m ==> m[o.fields[i].key] == x.value)
    decreases |o.fields| - k
  {
    if i > k {
      assert o.fields[k].key != o.fields[i].key;
      FieldsOutput(o, k + 1, v, fmt, i);
    } else if k + 1 < |o.fields| {
      FieldsKeys(o, k + 1, v, fmt);
    }
  }

  /** The parsed object has only keys of the shape. */
  lemma {:induction false} FieldsKeys(o: Schema, k: nat, v: Json.Value, fmt: Formats)
    requires o.ZObject? && v.Obj? && k <= |o.fields|
    requires ParseFields(o, k, v, fmt).Some?
    ensures forall key :: key in ParseFields(o, k, v, fmt).value ==> exists j :: k <= j < |o.fields| && o.fields[j].key == key
    decreases |o.fields| - k
  {
    if k < |o.fields| {
      FieldsKeys(o, k + 1, v, fmt);
    }
  }

  /** What a successful object parse yields for one field. */
  lemma ObjectOutput(o: Schema, v: Json.Value, fmt: Formats, i: nat)
    requires o.ZObject? && i < |o.fields| && UniqueKey(o.fields, i)
    requires Parse(o, v, fmt).Some?
    ensures var out := Parse(o, v, fmt).value;
      var x := Parse(o.fields[i].schema, Json.Get(v, o.fields[i].key), fmt);
      out.Obj? && x.Some? && (o.fields[i].key in out.fields <==> !x.value.Undefined? || Json.HasKey(v, o.fields[i].key)) &&
      (o.fields[i].key in out.fields ==> out.fields[o.fields[i].key] == x.value)
  {
    FieldsOutput(o, 0, v, fmt, i);
  }

  /** Every field of an accepted object accepts. */
  lemma FieldRequired(o: Schema, k: nat, v: Json.Value, fmt: Formats)
    requires o.ZObject? && k < |o.fields|
    requires Parse(o, v, fmt).Some?
    ensures v.Obj? && FieldAccepts(o, k, v, fmt)
  {
    ObjectAcceptsEach(o, v, fmt);
  }

  /** When every field after the first is optional and has another key, an
      object holding only the first key is accepted exactly when its value
      is. */
  lemma FirstFieldOnly(o: Schema, x: Json.Value, fmt: Formats)
    requires o.ZObject? && |o.fields| > 0
    requires forall i :: 1 <= i < |o.fields| ==> o.fields[i].schema.ZOptional? && o.fields[i].key != o.fields[0].key
    ensures Parse(o, Json.Obj(map[o.fields[0].key := x]), fmt).Some? <==> Parse(o.fields[0].schema, x, fmt).Some?
  {
    var v := Json.Obj(map[o.fields[0].key := x]);
    ObjectAcceptsEach(o, v, fmt);
    forall i | 1 <= i < |o.fields|
      ensures FieldAccepts(o, i, v, fmt)
    {
      assert Json.Get(v, o.fields[i].key) == Json.Undefined;
    }
  }

  /** When every field is optional, the empty object is accepted as it is. */
  lemma NoFieldRequired(o: Schema, fmt: Formats)
    requires o.ZObject?
    requires forall i :: 0 <= i < |o.fields| ==> o.fields[i].schema.ZOptional?
    ensures Parse(o, Json.Obj(map[]), fmt).Some?
  {
    ObjectAcceptsEach(o, Json.Obj(map[]), fmt);
    forall i | 0 <= i < |o.fields|
      ensures FieldAccepts(o, i, Json.Obj(map[]), fmt)
    {
      assert Json.Get(Json.Obj(map[]), o.fields[i].key) == Json.Undefined;
    }
  }

  /** `.optional()` accepts undefined and whatever the inner schema accepts. */
  lemma OptionalWeakens(s: Schema, v: Json.Value, fmt: Formats)
    ensures Parse(ZOptional(s), v, fmt).Some? <==> v.Undefined? || Parse(s, v, fmt).Some?
  {
  }

  /** `v` is absent, or a string the test accepts. */
  predicate AbsentOr(v: Json.Value, test: string -> bool) {
    v.Undefined? || StringWhere(v, test)
  }

  /** `partial()` only widens: it accepts every object the full schema
      accepts, and the object with no fields at all. */
  lemma PartialAccepts(o: Schema, v: Json.Value, fmt: Formats)
    requires o.ZObject?
    ensures Parse(o, v, fmt).Some? ==> Parse(Partial(o), v, fmt).Some?
    ensures Parse(Partial(o), Json.Obj(map[]), fmt).Some?
  {
    ObjectAcceptsEach(o, v, fmt);
    ObjectAcceptsEach(Partial(o), v, fmt);
    ObjectAcceptsEach(Partial(o), Json.Obj(map[]), fmt);
    forall i | 0 <= i < |o.fields|
      ensures FieldAccepts(o, i, v, fmt) ==> FieldAccepts(Partial(o), i, v, fmt)
      ensures FieldAccepts(Partial(o), i, Json.Obj(map[]), fmt)
    {
      assert Partial(o).fields[i] == Field(o.fields[i].key, ZOptional(o.fields[i].schema));
    }
  }

  /** After `partial()` a field may be absent, and must be valid when
      present. */
  lemma PartialAcceptsExactly(o: Schema, v: Json.Value, fmt: Formats)
    requires o.ZObject?
    ensures Parse(Partial(o), v, fmt).Some? <==>
      v.Obj? && forall i :: 0 <= i < |o.fields| ==>
        Json.Get(v, o.fields[i].key).Undefined? || Parse(o.fields[i].schema, Json.Get(v, o.fields[i].key), fmt).Some?
  {
    ObjectAcceptsEach(Partial(o), v, fmt);
    forall i | 0 <= i < |o.fields|
      ensures FieldAccepts(Partial(o), i, v, fmt) <==>
        Json.Get(v, o.fields[i].key).Undefined? || Parse(o.fields[i].schema, Json.Get(v, o.fields[i].key), fmt).Some?
    {
      assert Partial(o).fields[i] == Field(o.fields[i].key, ZOptional(o.fields[i].schema));
    }
  }

  /** A missing field with a default parses as the default value would. */
  lemma DefaultFillsIn(s: Schema, d: Json.Value, fmt: Formats)
    ensures Parse(ZDefault(s, d), Json.Undefined, fmt) == Parse(s, d, fmt)
  {
  }

  /** An array is accepted exactly when every element is. */
  lemma {:induction false} ArrayAccepts(a: Schema, items: seq<Json.Value>, fmt: Formats)
    requires a.ZArray?
    ensures ParseItems(a, items, fmt).Some? <==> forall i :: 0 <= i < |items| ==> Parse(a.element, items[i], fmt).Some?
  {
    if items != [] {
      ArrayAccepts(a, items[1..], fmt);
      assert forall i :: 1 <= i < |items| ==> items[i] == items[1..][i - 1];
    }
  }

  /** A union accepts what one of its options accepts. */
  lemma {:induction false} UnionAccepts(u: Schema, k: nat, v: Json.Value, fmt: Formats)
    requires u.ZUnion?
    ensures ParseUnion(u, k, v, fmt).Some? <==> exists i :: k <= i < |u.options| && Parse(u.options[i], v, fmt).Some?
    decreases |u.options| - k
  {
    if k < |u.options| {
      UnionAccepts(u, k + 1, v, fmt);
    }
  }

  /** A string the given test accepts. */
  predicate StringWhere(v: Json.Value, test: string -> bool) {
    v.Str? && test(v.s)
  }

  predicate NonEmptyString(v: Json.Value) {
    v.Str? && |v.s| >= 1
  }

  /** An integer number no smaller than the bound. */
  predicate IntAtLeast(v: Json.Value, bound: real) {
    v.Num? && IsInteger(v.n) && v.n >= bound
  }

  /** JavaScript's `String(v)`, with the number formatting taken as given. */
  function StringOf(v: Json.Value, fmt: Formats): string {
    match v
    case Undefined => "undefined"
    case Null => "null"
    case Bool(b) => if b then "true" else "false"
    case Num(n) => fmt.numberToString(n)
    case Str(s) => s
    case Arr(items) => Text.Join(ElementStrings(items, fmt), ",")
    case Obj(_) => "[object Object]"
  }

  /** Array elements as `join` writes them: null and undefined as empty. */
  function ElementStrings(items: seq<Json.Value>, fmt: Formats): (r: seq<string>)
    ensures |r| == |items|
  {
    if items == [] then []
    else
      [if Json.IsNullish(items[0]) then "" else StringOf(items[0], fmt)] + ElementStrings(items[1..], fmt)
  }
}
