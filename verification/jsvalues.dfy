/** The JavaScript values the app handles once a feed or the browser store has
    been parsed, and the few language operations on them it relies on:
    truthiness, property reads, and the identity test behind `includes`.

    Numbers are unbounded reals: floating-point rounding and NaN are not part of
    this model. */
module JsValues {

  /** A JavaScript value as produced by `JSON.parse`, plus `undefined`, which a
      read of a missing property yields. */
  datatype Value =
    | Undefined
    | Null
    | Bool(b: bool)
    | Num(x: real)
    | Str(s: string)
    | Arr(items: seq<Value>)
    | Obj(fields: map<string, Value>)

  /** The exceptions the modelled code can throw. */
  datatype Error = TypeError | SyntaxError

  /** A computation that either returns a value or throws. */
  datatype Result<+T> = Ok(value: T) | Err(error: Error)

  datatype Option<+T> = None | Some(value: T)

  /** `undefined` and `null`: the two values whose property reads throw. */
  predicate Nullish(v: Value) {
    v.Undefined? || v.Null?
  }

  /** JavaScript truthiness: `undefined`, `null`, `false`, `0` and `""` are falsy. */
  predicate Truthy(v: Value) {
    match v
    case Undefined => false
    case Null => false
    case Bool(b) => b
    case Num(x) => x != 0.0
    case Str(s) => s != ""
    case Arr(_) => true
    case Obj(_) => true
  }

  /** `v.key` on a value that is not nullish: an object's own field, and
      `undefined` for everything else. */
  function Prop(v: Value, key: string): (r: Value)
    ensures v.Obj? && key in v.fields ==> r == v.fields[key]
    ensures !(v.Obj? && key in v.fields) ==> r == Undefined
  {
    if v.Obj? && key in v.fields then v.fields[key] else Undefined
  }

  /** `v.key`, which throws a TypeError when `v` is `undefined` or `null`. */
  function Get(v: Value, key: string): (r: Result<Value>)
    ensures r.Err? <==> Nullish(v)
    ensures r.Err? ==> r.error == TypeError
    ensures r.Ok? ==> r.value == Prop(v, key)
  {
    if Nullish(v) then Err(TypeError) else Ok(Prop(v, key))
  }

  /** The comparison `Array.prototype.includes` and `!==` make between values
      that come from different `JSON.parse` calls: primitives compare by value,
      while two objects or arrays are never the same reference. */
  predicate SameValue(a: Value, b: Value) {
    !a.Obj? && !a.Arr? && a == b
  }
}
