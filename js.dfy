/** The few JavaScript value rules the PWA and the ledger server rely on:
    a JSON value as the scripts see it, truthiness (`!x`, `!!x`) and `||`. */
module Js {
  /** Numbers are reals: NaN and the infinities are not modelled. */
  datatype JsValue = Undefined | Null | Bool(b: bool) | Num(n: real) | Str(s: string) | Object | Array

  /** ECMAScript ToBoolean: false, 0, "", null and undefined are falsy;
      objects and arrays are truthy. */
  predicate Truthy(v: JsValue) {
    match v
    case Undefined => false
    case Null => false
    case Bool(b) => b
    case Num(n) => n != 0.0
    case Str(s) => s != ""
    case Object => true
    case Array => true
  }

  /** `a || b`: the left operand when it is truthy, otherwise the right. */
  function Or(a: JsValue, b: JsValue): (r: JsValue)
    ensures Truthy(a) ==> r == a
    ensures !Truthy(a) ==> r == b
  {
    if Truthy(a) then a else b
  }

  /** `a || b` is truthy exactly when one of its operands is. */
  lemma OrTruthy(a: JsValue, b: JsValue)
    ensures Truthy(Or(a, b)) <==> Truthy(a) || Truthy(b)
  {
  }

  /** The falsy values are exactly these five (on reals -0 is 0; NaN and
      0n are not values of this model). */
  lemma FalsyValues(v: JsValue)
    ensures !Truthy(v) <==> v in {Undefined, Null, Bool(false), Num(0.0), Str("")}
  {
  }
}
