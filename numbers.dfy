// JavaScript numbers as the actions and components see them: a value that
// may be NaN or infinite, `Math.round`, and `Math.ceil` of a quotient.
module Numbers {

  /** A JavaScript `number`, with the real line standing in for finite doubles. */
  datatype JsNumber = Finite(value: real) | NaN | PositiveInfinity | NegativeInfinity

  /** `Number.isFinite` / `isFinite` on a number. */
  predicate IsFinite(x: JsNumber)
  {
    x.Finite?
  }

  /** `Math.round`: the nearest integer, with halves rounded up. */
  function Round(x: real): (n: int)
    ensures x - 0.5 < n as real <= x + 0.5
  {
    (x + 0.5).Floor
  }

  /** `Math.round` leaves whole numbers alone and is monotone. */
  lemma RoundProperties(x: real, y: real, k: int)
    ensures Round(k as real) == k
    ensures x <= y ==> Round(x) <= Round(y)
  {
  }

  /** `Math.max(0, n)`. */
  function AtLeastZero(n: int): (r: nat)
    ensures r >= n && (r == n || r == 0)
  {
    if n < 0 then 0 else n
  }

  /** `Math.ceil(a / b)` for a non-negative dividend and a positive divisor. */
  function CeilDiv(a: nat, b: nat): (q: nat)
    requires b > 0
    ensures (q - 1) * b < a <= q * b
  {
    (a + b - 1) / b
  }
}
