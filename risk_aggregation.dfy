/** The risk aggregator: turns the selected neighbours' distances and 0/1 labels into a
    distance-weighted fraud probability, an unweighted fraud ratio, a confidence band and
    a rationale sentence. Arithmetic is over exact reals. */
module RiskAggregation {

  /** Added to every distance so that an exact duplicate (distance 0) gets a finite weight. */
  const Epsilon: real := 0.000001

  predicate NonNegative(ds: seq<real>) {
    forall j :: 0 <= j < |ds| ==> ds[j] >= 0.0
  }

  /** Every label is 0 (legitimate) or 1 (confirmed fraud). */
  predicate Binary(ls: seq<int>) {
    forall j :: 0 <= j < |ls| ==> ls[j] == 0 || ls[j] == 1
  }

  /** A neighbour's vote weight, `1 / (d + 1e-6)`: positive and finite even at distance 0. */
  function Weight(d: real): (w: real)
    requires d >= 0.0
    ensures w > 0.0
  {
    1.0 / (d + Epsilon)
  }

  /** The weight is the inverse of the shifted distance, so a closer neighbour carries a
      larger weight. */
  lemma CloserWeighsMore(d1: real, d2: real)
    requires 0.0 <= d1 < d2
    ensures Weight(d1) * (d1 + Epsilon) == 1.0 && Weight(d2) * (d2 + Epsilon) == 1.0
    ensures Weight(d1) > Weight(d2)
  {
    InverseDecreasing(d1 + Epsilon, d2 + Epsilon);
  }

  lemma InverseDecreasing(x1: real, x2: real)
    requires 0.0 < x1 < x2
    ensures (1.0 / x1) * x1 == 1.0 && (1.0 / x2) * x2 == 1.0
    ensures 1.0 / x1 > 1.0 / x2
  {
    assert (1.0 / x2) * x1 < (1.0 / x2) * x2;
  }

  /** `np.sum(weights)`. */
  function TotalWeight(ds: seq<real>): (t: real)
    requires NonNegative(ds)
    ensures t >= 0.0 && (ds != [] ==> t > 0.0)
  {
    if ds == [] then 0.0 else Weight(ds[0]) + TotalWeight(ds[1..])
  }

  /** `np.sum(weights * labels)`: the weight carried by the fraud-labelled neighbours. With 0/1
      labels, weight times label is the weight itself or 0. */
  function FraudWeight(ds: seq<real>, ls: seq<int>): (t: real)
    requires |ds| == |ls| && NonNegative(ds) && Binary(ls)
    ensures 0.0 <= t <= TotalWeight(ds)
  {
    if ds == [] then 0.0 else (if ls[0] == 1 then Weight(ds[0]) else 0.0) + FraudWeight(ds[1..], ls[1..])
  }

  /** A part of a positive whole, as a share of it, lies in [0, 1]. */
  lemma ShareBounds(part: real, whole: real)
    requires 0.0 <= part <= whole && whole > 0.0
    ensures 0.0 <= part / whole <= 1.0
  {
  }

  /** A share is 0 exactly for an empty part and 1 exactly for the whole. */
  lemma ShareExtremes(part: real, whole: real)
    requires whole > 0.0
    ensures part / whole == 0.0 <==> part == 0.0
    ensures part / whole == 1.0 <==> part == whole
  {
  }

  /** The distance-weighted vote: the share of the total weight held by fraud labels. */
  function RiskProbability(ds: seq<real>, ls: seq<int>): (p: real)
    requires |ds| == |ls| >= 1 && NonNegative(ds) && Binary(ls)
    ensures 0.0 <= p <= 1.0
  {
    ShareBounds(FraudWeight(ds, ls), TotalWeight(ds));
    FraudWeight(ds, ls) / TotalWeight(ds)
  }

  /** `sum(labels)`: the number of fraud-labelled neighbours. */
  function FraudCount(ls: seq<int>): (c: int)
    requires Binary(ls)
    ensures 0 <= c <= |ls|
  {
    if ls == [] then 0 else ls[0] + FraudCount(ls[1..])
  }

  /** `np.mean(labels)`: the unweighted share of fraud-labelled neighbours. */
  function FraudRatio(ls: seq<int>): (f: real)
    requires |ls| >= 1 && Binary(ls)
    ensures 0.0 <= f <= 1.0
  {
    ShareBounds(FraudCount(ls) as real, |ls| as real);
    FraudCount(ls) as real / |ls| as real
  }

  /** With every label equal to `l`, the fraud count is 0 for `l = 0` and every label for `l = 1`. */
  lemma {:induction false} UniformLabelCount(ls: seq<int>, l: int)
    requires Binary(ls)
    requires forall j :: 0 <= j < |ls| ==> ls[j] == l
    ensures l == 0 ==> FraudCount(ls) == 0
    ensures l == 1 ==> FraudCount(ls) == |ls|
  {
    if ls != [] {
      UniformLabelCount(ls[1..], l);
    }
  }

  /** When all neighbours carry the same label, the weighted vote and the ratio both
      collapse to that label, whatever the distances. */
  lemma UniformLabelsCollapse(ds: seq<real>, ls: seq<int>, l: int)
    requires |ds| == |ls| >= 1 && NonNegative(ds) && Binary(ls)
    requires forall j :: 0 <= j < |ls| ==> ls[j] == l
    ensures RiskProbability(ds, ls) == l as real
    ensures FraudRatio(ls) == l as real
  {
    assert l == ls[0];
    UniformLabelCount(ls, l);
    RiskExtremes(ds, ls);
    ShareExtremes(FraudCount(ls) as real, |ls| as real);
  }

  /** A single neighbour decides alone: the risk and the ratio are its label. */
  lemma SingleNeighbourDecides(ds: seq<real>, ls: seq<int>)
    requires |ds| == |ls| == 1 && NonNegative(ds) && Binary(ls)
    ensures RiskProbability(ds, ls) == ls[0] as real
    ensures FraudRatio(ls) == ls[0] as real
  {
    UniformLabelsCollapse(ds, ls, ls[0]);
  }

  /** The fraud weight is zero exactly when no neighbour is labelled fraud, and it is the
      whole weight exactly when every neighbour is. */
  lemma {:induction false} FraudWeightExtremes(ds: seq<real>, ls: seq<int>)
    requires |ds| == |ls| && NonNegative(ds) && Binary(ls)
    ensures FraudWeight(ds, ls) == 0.0 <==> FraudCount(ls) == 0
    ensures FraudWeight(ds, ls) == TotalWeight(ds) <==> FraudCount(ls) == |ls|
  {
    if ds != [] {
      FraudWeightExtremes(ds[1..], ls[1..]);
    }
  }

  /** The weighted risk is 0 exactly when no neighbour is fraud, and 1 exactly when all are. */
  lemma RiskExtremes(ds: seq<real>, ls: seq<int>)
    requires |ds| == |ls| >= 1 && NonNegative(ds) && Binary(ls)
    ensures RiskProbability(ds, ls) == 0.0 <==> FraudCount(ls) == 0
    ensures RiskProbability(ds, ls) == 1.0 <==> FraudCount(ls) == |ls|
  {
    FraudWeightExtremes(ds, ls);
    ShareExtremes(FraudWeight(ds, ls), TotalWeight(ds));
  }

  /** `n` copies of `w` added up. */
  function Times(w: real, n: nat): real {
    if n == 0 then 0.0 else w + Times(w, n - 1)
  }

  lemma {:induction false} TimesIsProduct(w: real, n: nat)
    ensures Times(w, n) == w * n as real
  {
    if n > 0 {
      TimesIsProduct(w, n - 1);
    }
  }

  /** With all neighbours at the same distance `d`, the total weight is `Weight(d)` once per neighbour. */
  lemma {:induction false} EqualDistanceTotal(ds: seq<real>, d: real)
    requires NonNegative(ds) && d >= 0.0
    requires forall j :: 0 <= j < |ds| ==> ds[j] == d
    ensures TotalWeight(ds) == Times(Weight(d), |ds|)
  {
    if ds != [] {
      EqualDistanceTotal(ds[1..], d);
    }
  }

  /** With all neighbours at the same distance `d`, the fraud weight is `Weight(d)` once per fraud label. */
  lemma {:induction false} EqualDistanceFraud(ds: seq<real>, ls: seq<int>, d: real)
    requires |ds| == |ls| && NonNegative(ds) && Binary(ls) && d >= 0.0
    requires forall j :: 0 <= j < |ds| ==> ds[j] == d
    ensures FraudWeight(ds, ls) == Times(Weight(d), FraudCount(ls))
  {
    if ds != [] {
      EqualDistanceFraud(ds[1..], ls[1..], d);
      assert ds[0] == d;
    }
  }

  /** `c` copies of a positive `w` against `n` copies: the ratio `c / n`. */
  lemma TimesRatio(w: real, n: nat, c: nat)
    requires w > 0.0 && n >= 1
    ensures Times(w, n) > 0.0
    ensures Times(w, c) / Times(w, n) == c as real / n as real
  {
    TimesIsProduct(w, n);
    TimesIsProduct(w, c);
    RatioAlgebra(Times(w, n), Times(w, c), w, n as real, c as real);
  }

  lemma RatioAlgebra(total: real, fraud: real, w: real, n: real, c: real)
    requires w > 0.0 && n > 0.0 && total == w * n && fraud == w * c
    ensures total > 0.0
    ensures fraud / total == c / n
  {
    var p, f := fraud / total, c / n;
    assert p * (w * n) == w * c;
    assert f * n == c;
    assert f * (w * n) == w * c;
    assert (p - f) * (w * n) == 0.0;
  }

  /** When all neighbours are equally far away the weighted vote equals the unweighted ratio. */
  lemma EqualDistancesGiveRatio(ds: seq<real>, ls: seq<int>)
    requires |ds| == |ls| >= 1 && NonNegative(ds) && Binary(ls)
    requires forall j :: 0 <= j < |ds| ==> ds[j] == ds[0]
    ensures RiskProbability(ds, ls) == FraudRatio(ls)
  {
    var w := Weight(ds[0]);
    EqualDistanceTotal(ds, ds[0]);
    EqualDistanceFraud(ds, ls, ds[0]);
    TimesRatio(w, |ds|, FraudCount(ls));
  }

  /** The qualitative confidence band of a risk probability. */
  datatype Band = Low | Medium | High

  function BandLevel(b: Band): nat {
    match b
    case Low => 0
    case Medium => 1
    case High => 2
  }

  /** `high` from 0.75 up, `medium` from 0.45 up to 0.75, `low` below 0.45. */
  function ConfidenceBand(p: real): (b: Band)
    ensures b == High <==> p >= 0.75
    ensures b == Medium <==> 0.45 <= p < 0.75
    ensures b == Low <==> p < 0.45
  {
    if p >= 0.75 then High
    else if p >= 0.45 then Medium
    else Low
  }

  /** A higher risk never gets a lower band. */
  lemma BandMonotone(p1: real, p2: real)
    requires p1 <= p2
    ensures BandLevel(ConfidenceBand(p1)) <= BandLevel(ConfidenceBand(p2))
  {
  }

  predicate IsDigit(c: char) {
    '0' <= c <= '9'
  }

  predicate AllDigits(s: string) {
    forall i :: 0 <= i < |s| ==> IsDigit(s[i])
  }

  /** The decimal numeral of `n`, as an f-string prints an int: no sign, no leading zero. */
  function DecimalString(n: nat): (s: string)
    ensures |s| >= 1 && AllDigits(s)
    ensures |s| == 1 || s[0] != '0'
  {
    if n < 10 then [('0' as int + n) as char]
    else DecimalString(n / 10) + [('0' as int + n % 10) as char]
  }

  /** The number a string of decimal digits denotes. */
  function DecimalValue(s: string): nat
    requires AllDigits(s)
  {
    if s == [] then 0 else DecimalValue(s[..|s| - 1]) * 10 + (s[|s| - 1] as int - '0' as int)
  }

  /** Reading a printed count back gives the count. */
  lemma {:induction false} DecimalRoundTrip(n: nat)
    ensures DecimalValue(DecimalString(n)) == n
  {
    if n >= 10 {
      DecimalRoundTrip(n / 10);
      var s := DecimalString(n);
      assert s[..|s| - 1] == DecimalString(n / 10);
    }
  }

  const RationaleLead: string := "This transaction is similar to "
  const RationaleMiddle: string := " historical cases; "
  const RationaleTail: string := " were confirmed fraud."

  /** The rationale sentence reporting the neighbour count and the fraud count: it opens with
      the fixed lead and the neighbour count, and closes with the fixed tail. */
  function Rationale(neighbours: nat, frauds: nat): (s: string)
    ensures RationaleLead + DecimalString(neighbours) + RationaleMiddle <= s
    ensures |s| >= |RationaleTail| && s[|s| - |RationaleTail|..] == RationaleTail
  {
    RationaleLead + DecimalString(neighbours) + RationaleMiddle + DecimalString(frauds) + RationaleTail
  }

  /** A digit string followed by text that starts with a non-digit splits in only one way. */
  lemma DigitsSplitUniquely(x: string, y: string, x': string, y': string)
    requires AllDigits(x) && AllDigits(x')
    requires y != [] && !IsDigit(y[0]) && y' != [] && !IsDigit(y'[0])
    requires x + y == x' + y'
    ensures x == x' && y == y'
  {
    var m := if |x| < |x'| then |x| else |x'|;
    assert IsDigit((x + y)[m]) <==> m < |x|;
    assert IsDigit((x' + y')[m]) <==> m < |x'|;
    assert |x| == |x'|;
    assert x == (x + y)[..|x|];
    assert x' == (x' + y')[..|x|];
    assert y == (x + y)[|x|..];
    assert y' == (x' + y')[|x|..];
  }

  /** Sentences of the shape lead, digits, middle, digits, tail, with middle and tail
      starting with a non-digit, determine both digit strings. */
  lemma TemplateDeterminesFields(lead: string, middle: string, tail: string,
                                 d1: string, e1: string, d2: string, e2: string)
    requires AllDigits(d1) && AllDigits(e1) && AllDigits(d2) && AllDigits(e2)
    requires middle != [] && !IsDigit(middle[0]) && tail != [] && !IsDigit(tail[0])
    requires lead + d1 + middle + e1 + tail == lead + d2 + middle + e2 + tail
    ensures d1 == d2 && e1 == e2
  {
    var s1, s2 := lead + d1 + middle + e1 + tail, lead + d2 + middle + e2 + tail;
    var r1, r2 := d1 + (middle + (e1 + tail)), d2 + (middle + (e2 + tail));
    assert s1 == lead + r1 && s2 == lead + r2;
    assert r1 == s1[|lead|..] && r2 == s2[|lead|..];
    DigitsSplitUniquely(d1, middle + (e1 + tail), d2, middle + (e2 + tail));
    assert e1 + tail == (middle + (e1 + tail))[|middle|..];
    assert e2 + tail == (middle + (e2 + tail))[|middle|..];
    DigitsSplitUniquely(e1, tail, e2, tail);
  }

  /** The rationale determines both counts it reports. */
  lemma RationaleDeterminesCounts(k1: nat, c1: nat, k2: nat, c2: nat)
    requires Rationale(k1, c1) == Rationale(k2, c2)
    ensures k1 == k2 && c1 == c2
  {
    assert RationaleMiddle[0] == ' ' && RationaleTail[0] == ' ';
    TemplateDeterminesFields(RationaleLead, RationaleMiddle, RationaleTail,
      DecimalString(k1), DecimalString(c1), DecimalString(k2), DecimalString(c2));
    DecimalRoundTrip(k1);
    DecimalRoundTrip(k2);
    DecimalRoundTrip(c1);
    DecimalRoundTrip(c2);
  }
}
