/** JavaScript values as the components see them: a property that may be
    missing (`undefined`/`null`) is an `Option`, and `||` picks by truthiness. */
module JsValues {

  datatype Option<+T> = None | Some(value: T)

  /** A string property is truthy when it is present and not empty. */
  predicate Truthy(s: Option<string>) {
    s.Some? && s.value != ""
  }

  /** A numeric property is truthy when it is present and not zero. */
  predicate IntTruthy(n: Option<int>) {
    n.Some? && n.value != 0
  }

  predicate RealTruthy(t: Option<real>) {
    t.Some? && t.value != 0.0
  }

  /** `a || b` on two optional strings. */
  function Or(a: Option<string>, b: Option<string>): (r: Option<string>)
    ensures Truthy(r) <==> Truthy(a) || Truthy(b)
    ensures Truthy(a) ==> r == a
    ensures !Truthy(a) ==> r == b
  {
    if Truthy(a) then a else b
  }

  /** `a || 'literal'` with a non-empty literal: the result is always a string. */
  function OrDefault(a: Option<string>, default: string): (r: string)
    ensures Truthy(a) ==> r == a.value
    ensures !Truthy(a) ==> r == default
    ensures default != "" ==> r != ""
  {
    if Truthy(a) then a.value else default
  }
}
