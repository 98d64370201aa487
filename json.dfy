/** JavaScript values as the source receives them from JSON columns, widget
    callbacks and request bodies. NaN and the infinities are not represented. */
module Json {

  datatype Value =
    | Undefined
    | Null
    | Bool(b: bool)
    | Num(n: real)
    | Str(s: string)
    | Arr(items: seq<Value>)
    | Obj(fields: map<string, Value>)

  /** JavaScript truthiness. */
  predicate Truthy(v: Value) {
    match v
    case Undefined => false
    case Null => false
    case Bool(b) => b
    case Num(n) => n != 0.0
    case Str(s) => s != ""
    case Arr(_) => true
    case Obj(_) => true
  }

  /** Loose equality with null: true of both null and undefined. */
  predicate IsNullish(v: Value) {
    v.Undefined? || v.Null?
  }

  /** An object or an array: what `typeof` calls an object, null excluded. */
  predicate IsObjectLike(v: Value) {
    v.Arr? || v.Obj?
  }

  /** `key in v` for an object-like value. Arrays carry only index keys and
      `length`, which the callers never ask for. */
  predicate HasKey(v: Value, key: string) {
    v.Obj? && key in v.fields
  }

  /** Property read `v.key` on a value that is not null or undefined:
      a missing key, and any key of a primitive, reads as undefined. */
  function Get(v: Value, key: string): (r: Value)
    ensures HasKey(v, key) ==> r == v.fields[key]
    ensures !HasKey(v, key) ==> r == Undefined
  {
    if v.Obj? && key in v.fields then v.fields[key] else Undefined
  }

  /** An array with at least one element. */
  predicate IsNonEmptyArray(v: Value) {
    v.Arr? && |v.items| > 0
  }
}
