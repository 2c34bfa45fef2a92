/** JavaScript number operators whose meaning differs from Dafny's on integers. */
module JsOps {

  /** `a % b` for a positive divisor: the remainder of truncating division, with the sign of `a`. */
  function Rem(a: int, b: int): (r: int)
    requires b > 0
    ensures a >= 0 ==> 0 <= r < b && r == a % b
    ensures a < 0 ==> -b < r <= 0 && a == -((-a) / b) * b + r
  {
    if a >= 0 then a % b else -((-a) % b)
  }

  /** For a negative dividend JavaScript's `%` and Dafny's `%` part ways. */
  lemma RemNegative()
    ensures Rem(-250, 500) == -250 && -250 % 500 == 250
  {
  }

  /** `Math.min(a, b)`. */
  function Min(a: int, b: int): (r: int)
    ensures r <= a && r <= b && (r == a || r == b)
  {
    if a <= b then a else b
  }
}
