/**
 The JavaScript values that appear in user records and action payloads.

 Objects are finite maps from property names to values; a property that is
 absent from the map is `undefined`. Numbers are integers: user ids are
 millisecond timestamps or small integers, and no floating point is modelled.
 */
module JsValues {

  datatype Option<+T> = None | Some(value: T)

  datatype Value =
    | Null
    | Bool(b: bool)
    | Num(n: int)
    | Str(s: string)
    | Obj(props: map<string, Value>)

  /** JavaScript truthiness: `null`, `false`, `0` and `""` are falsy, every object is truthy. */
  predicate Truthy(v: Value)
    ensures Truthy(v) <==> v != Null && v != Bool(false) && v != Num(0) && v != Str("")
  {
    match v
    case Null => false
    case Bool(b) => b
    case Num(n) => n != 0
    case Str(s) => s != ""
    case Obj(_) => true
  }

  /** `obj.key`: `Some` of the property's value, or `None` for `undefined`. */
  function Get(obj: map<string, Value>, key: string): (r: Option<Value>)
    ensures r.Some? <==> key in obj
    ensures r.Some? ==> r.value == obj[key]
  {
    if key in obj then Some(obj[key]) else None
  }

  /** `obj.key || fallback`, where an absent property reads as `undefined` (falsy). */
  function OrElse(obj: map<string, Value>, key: string, fallback: Value): (r: Value)
    ensures key in obj && Truthy(obj[key]) ==> r == obj[key]
    ensures key !in obj || !Truthy(obj[key]) ==> r == fallback
  {
    if key in obj && Truthy(obj[key]) then obj[key] else fallback
  }
}
