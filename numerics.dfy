/** The real-number operations the projection engine uses.

    `exp` and `sqrt` are not computable over `real`, so the model takes them
    as parameters: an `Analysis` bundles the two. The only law of `exp` any
    proof relies on is exp(0) = 1, stated where it is needed. Rounding is
    defined outright: NumPy's `round(x, 0)` rounds to the nearest integer and
    breaks ties to the even neighbour. */
module Numerics {

  datatype Analysis = Analysis(exp: real -> real, sqrt: real -> real)

  /** Round half to even, to a whole unit. */
  function RoundHalfEven(x: real): int {
    var f := x.Floor;
    var d := x - f as real;
    if d < 0.5 then f
    else if d > 0.5 then f + 1
    else if f % 2 == 0 then f
    else f + 1
  }

  /** The result is a nearest integer, and of two nearest integers the even one. */
  lemma RoundToNearest(x: real)
    ensures -0.5 <= RoundHalfEven(x) as real - x <= 0.5
    ensures (RoundHalfEven(x) as real - x == 0.5 || x - RoundHalfEven(x) as real == 0.5) ==> RoundHalfEven(x) % 2 == 0
  {
  }

  /** Rounding never reverses an order, so rounded percentile bands stay ordered. */
  lemma RoundMonotone(x: real, y: real)
    requires x <= y
    ensures RoundHalfEven(x) <= RoundHalfEven(y)
  {
    var fx, fy := x.Floor, y.Floor;
    assert fx <= fy;
    if fx == fy {
      assert x - fx as real <= y - fy as real;
    } else {
      assert fx + 1 <= fy;
    }
  }

  /** A whole number is its own rounding. */
  lemma RoundWhole(k: int)
    ensures RoundHalfEven(k as real) == k
  {
    assert (k as real).Floor == k;
  }
}
