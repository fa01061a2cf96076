/**
 * Idealised cell scaling. The source computes `(int) Math.Round(delta * x)`
 * on doubles; `Math.Round(double)` rounds to the nearest integer and breaks
 * ties towards the even neighbour. Here the product is an exact `real`.
 */
module Rounding {

  /** Nearest integer to `v`, ties going to the even neighbour (see RoundHalfEvenNearest). */
  function RoundHalfEven(v: real): int {
    var f := v.Floor;
    var frac := v - f as real;
    if frac < 0.5 then f
    else if frac > 0.5 then f + 1
    else if f % 2 == 0 then f
    else f + 1
  }

  /**
   * RoundHalfEven is within one half of `v`, and even on a tie. Stated as a
   * lemma rather than as the function's contract so that proofs about whole
   * rows of cells do not carry this real arithmetic for every cell.
   */
  lemma RoundHalfEvenNearest(v: real)
    ensures -0.5 <= RoundHalfEven(v) as real - v <= 0.5
    ensures (RoundHalfEven(v) as real - v == 0.5 || v - RoundHalfEven(v) as real == 0.5) ==> RoundHalfEven(v) % 2 == 0
  {
  }

  /** The two properties of RoundHalfEvenNearest determine the rounded value. */
  lemma RoundHalfEvenUnique(v: real, k: int)
    requires -0.5 <= k as real - v <= 0.5
    requires (k as real - v == 0.5 || v - k as real == 0.5) ==> k % 2 == 0
    ensures k == RoundHalfEven(v)
  {
  }

  /** The value one cell of a trace row takes after scaling by `delta`. */
  function ScaleCell(delta: real, x: int): int {
    RoundHalfEven(delta * x as real)
  }

  /** A multiplier of one leaves every cell as it was. */
  lemma ScaleCellUnit(x: int)
    ensures ScaleCell(1.0, x) == x
  {
    RoundHalfEvenUnique(1.0 * x as real, x);
  }

  /** Ties are broken towards even, so 1.5 and 2.5 both round to 2, and -2.5 to -2. */
  lemma TiesGoToEven()
    ensures RoundHalfEven(1.5) == 2
    ensures RoundHalfEven(2.5) == 2
    ensures RoundHalfEven(-2.5) == -2
  {
    RoundHalfEvenUnique(1.5, 2);
    RoundHalfEvenUnique(2.5, 2);
    RoundHalfEvenUnique(-2.5, -2);
  }
}
