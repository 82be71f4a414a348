/** JavaScript values as the client code handles them, and the two operators
    it uses to fall back from one value to another: `a || b` and `v?.key`.
    Numbers are integers here: no value in this model needs a fraction. */
module Js {

  datatype Option<+T> = None | Some(value: T)

  /** A JavaScript value: what an HTTP body, an error object or a stored
      record can hold. */
  datatype Json =
    | Undefined
    | Null
    | Bool(b: bool)
    | Num(n: int)
    | Str(s: string)
    | Arr(items: seq<Json>)
    | Obj(fields: map<string, Json>)

  /** What an awaited call did: returned a value or threw one. */
  datatype Outcome<+T> = Returned(value: T) | Threw(error: Json)

  /** The message of that error; its exact wording differs between
      engines. */
  const TypeErrorMessage: string := "Cannot read properties of null or undefined"

  /** What reading a property of `null` or `undefined` throws. */
  const TypeErrorValue: Json := Obj(map["name" := Str("TypeError"), "message" := Str(TypeErrorMessage)])

  /** `null` or `undefined`. */
  predicate Nullish(v: Json) {
    v.Undefined? || v.Null?
  }

  /** `Math.ceil(a / b)` for a positive divisor. */
  function CeilDiv(a: int, b: int): (r: int)
    requires b > 0
    ensures b * (r - 1) < a <= b * r
  {
    -((-a) / b)
  }

  /** JavaScript truthiness: `false`, `0`, `""`, `null` and `undefined` are
      falsy; every object and array is truthy. */
  predicate Truthy(v: Json)
    ensures Nullish(v) ==> !Truthy(v)
    ensures v.Arr? || v.Obj? ==> Truthy(v)
    ensures v.Str? ==> (Truthy(v) <==> |v.s| > 0)
  {
    match v
    case Undefined => false
    case Null => false
    case Bool(b) => b
    case Num(n) => n != 0
    case Str(s) => s != ""
    case Arr(_) => true
    case Obj(_) => true
  }

  /** `a || b`: one of the two operands, truthy when either is. */
  function Or(a: Json, b: Json): (r: Json)
    ensures r == a || r == b
    ensures Truthy(r) <==> Truthy(a) || Truthy(b)
    ensures Truthy(a) ==> r == a
  {
    if Truthy(a) then a else b
  }

  /** `v?.key`: the property of an object, `undefined` when the object lacks
      it or when `v` is not an object (built-in properties of strings and
      arrays, such as `length`, are not modelled). */
  function Get(v: Json, key: string): (r: Json)
    ensures v.Obj? && key in v.fields ==> r == v.fields[key]
    ensures !(v.Obj? && key in v.fields) ==> r == Undefined
  {
    if v.Obj? && key in v.fields then v.fields[key] else Undefined
  }

  /** The own properties that `...v` copies into an object literal: those of
      an object, none for `null`, `undefined` and the other primitives
      (spreading a string or an array is not modelled). */
  function Spread(v: Json): (fields: map<string, Json>)
    ensures v.Obj? ==> fields == v.fields
    ensures !v.Obj? ==> fields == map[]
  {
    if v.Obj? then v.fields else map[]
  }

  /** `{ ...a, ...b }`: the properties of both, those of `b` winning. */
  function Merge(a: Json, b: Json): (r: Json)
    ensures r.Obj?
    ensures forall k :: k in Spread(b) ==> Get(r, k) == Spread(b)[k]
    ensures forall k :: k !in Spread(b) ==> Get(r, k) == Get(Obj(Spread(a)), k)
  {
    Obj(Spread(a) + Spread(b))
  }
}
