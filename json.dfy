/** The values that `JSON.parse` can produce, and the two JavaScript operations
    the ad store applies to them: reading the `id` property and `===`. */
module Json {

  /** A parsed JSON value. Numbers are exact reals; an object is the map of its
      own properties (property order is not modelled). */
  datatype Value =
    | Null
    | Bool(b: bool)
    | Num(n: real)
    | Str(s: string)
    | Arr(items: seq<Value>)
    | Obj(fields: map<string, Value>)

  /** The outcome of evaluating `a.id`. */
  datatype Access = Undefined | Defined(value: Value) | TypeError

  /** `a.id` on a parsed value: it throws on `null`, finds an own property of
      an object, and is `undefined` on every other value (strings, numbers,
      booleans and arrays have no `id` property). */
  function ReadId(a: Value): (r: Access)
    ensures r.TypeError? <==> a.Null?
    ensures r.Defined? <==> a.Obj? && "id" in a.fields
    ensures r.Defined? ==> r.value == a.fields["id"]
  {
    match a
    case Null => TypeError
    case Obj(f) => if "id" in f then Defined(f["id"]) else Undefined
    case _ => Undefined
  }

  /** Values compared by content under `===`. */
  predicate Primitive(v: Value) {
    !v.Arr? && !v.Obj?
  }

  /** `x === y` where `x` comes out of a fresh `JSON.parse`: primitives are
      equal when their contents are, while an array or object is a fresh
      allocation and so never identical to anything the caller holds. */
  function StrictEquals(x: Value, y: Value): (r: bool)
    ensures r <==> x == y && Primitive(x)
  {
    match (x, y)
    case (Null, Null) => true
    case (Bool(a), Bool(b)) => a == b
    case (Num(a), Num(b)) => a == b
    case (Str(a), Str(b)) => a == b
    case _ => false
  }
}
