/** Presentation rounding of the numbers a score response reports: Python's `round(x, 4)`,
    taken over exact reals (nearest multiple of 0.0001, exact halves to the even neighbour). */
module Presentation {

  /** Python's `round(y)`: the nearest integer, and on an exact half the even one. */
  function RoundHalfEven(y: real): (n: int)
    ensures -0.5 <= n as real - y <= 0.5
    ensures (n as real - y == 0.5 || y - n as real == 0.5) ==> n % 2 == 0
  {
    var f := y.Floor;
    var frac := y - f as real;
    if frac < 0.5 then f
    else if frac > 0.5 then f + 1
    else if f % 2 == 0 then f
    else f + 1
  }

  /** Rounding to integers never reverses an order. */
  lemma RoundHalfEvenMonotone(y1: real, y2: real)
    requires y1 <= y2
    ensures RoundHalfEven(y1) <= RoundHalfEven(y2)
  {
  }

  const Scale: real := 10000.0

  /** `round(x, 4)`: the multiple of 0.0001 nearest to `x`. */
  function Round4(x: real): (r: real)
    ensures -0.00005 <= r - x <= 0.00005
    ensures (r * Scale).Floor as real == r * Scale
  {
    RoundHalfEven(x * Scale) as real / Scale
  }

  /** Rounding keeps the order of the values it rounds. */
  lemma Round4Monotone(x1: real, x2: real)
    requires x1 <= x2
    ensures Round4(x1) <= Round4(x2)
  {
    RoundHalfEvenMonotone(x1 * Scale, x2 * Scale);
  }

  /** A value that already has at most four decimals is left unchanged. */
  lemma Round4Exact(m: int)
    ensures Round4(m as real / Scale) == m as real / Scale
  {
  }

  /** A value in [0, 1] is still in [0, 1] after rounding. */
  lemma Round4UnitInterval(x: real)
    requires 0.0 <= x <= 1.0
    ensures 0.0 <= Round4(x) <= 1.0
  {
  }

  predicate NonDecreasing(s: seq<real>) {
    forall p, q :: 0 <= p < q < |s| ==> s[p] <= s[q]
  }

  /** `[round(x, 4) for x in s]`. */
  function RoundAll(s: seq<real>): (r: seq<real>)
    ensures |r| == |s|
    ensures forall j :: 0 <= j < |s| ==> -0.00005 <= r[j] - s[j] <= 0.00005
  {
    seq(|s|, j requires 0 <= j < |s| => Round4(s[j]))
  }

  /** Rounding every entry of a non-decreasing list leaves it non-decreasing. */
  lemma RoundAllNonDecreasing(s: seq<real>)
    requires NonDecreasing(s)
    ensures NonDecreasing(RoundAll(s))
  {
    forall p, q | 0 <= p < q < |s|
      ensures RoundAll(s)[p] <= RoundAll(s)[q]
    {
      Round4Monotone(s[p], s[q]);
    }
  }
}
