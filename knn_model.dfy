/** The k-nearest-neighbour scorer (`FraudKNNModel.score`): standardise the request's feature
    vector, measure its distance to every historical row, take the k nearest rows and turn
    their labels into a weighted fraud probability, a fraud ratio, a confidence band and a
    rationale. */
module KnnModel {
  import opened Common
  import opened FeatureEngineering
  import opened Selection
  import opened RiskAggregation
  import opened Presentation

  /** The loaded artifacts: the schema's feature columns, the configured neighbour count, the
      standardised training matrix with one label and one row id per row, and the scaler's
      per-column mean and scale. */
  datatype Bundle = Bundle(
    featureColumns: seq<string>,
    nNeighbors: int,
    xScaled: seq<seq<real>>,
    labels: seq<int>,
    rowIds: seq<int>,
    mean: seq<real>,
    scale: seq<real>)

  /** What the training script guarantees about a bundle it writes: at least one row and one
      feature column, at least one neighbour, every per-row array of length n, every
      per-column array of width d, and 0/1 labels. */
  predicate Valid(m: Bundle) {
    && |m.xScaled| >= 1
    && |m.featureColumns| >= 1
    && m.nNeighbors >= 1
    && |m.labels| == |m.xScaled| && |m.rowIds| == |m.xScaled|
    && |m.mean| == |m.featureColumns| && |m.scale| == |m.featureColumns|
    && (forall i :: 0 <= i < |m.xScaled| ==> |m.xScaled[i]| == |m.featureColumns|)
    && Binary(m.labels)
  }

  /** The divisor used for a column: its scale, or 1 where the scale is 0. */
  function EffectiveScale(s: real): (e: real)
    ensures e != 0.0
    ensures s != 0.0 ==> e == s
  {
    if s == 0.0 then 1.0 else s
  }

  /** `(vector - mean) / where(scale == 0, 1, scale)`: each value, centred and divided by its
      column's scale; multiplying back by the divisor gives the centred value again, so no
      column divides by zero. */
  function Standardize(v: seq<real>, mean: seq<real>, scale: seq<real>): (r: seq<real>)
    requires |v| == |mean| == |scale|
    ensures |r| == |v|
    ensures forall i :: 0 <= i < |v| ==> r[i] * EffectiveScale(scale[i]) == v[i] - mean[i]
    ensures forall i :: 0 <= i < |v| && scale[i] == 0.0 ==> r[i] == v[i] - mean[i]
  {
    seq(|v|, i requires 0 <= i < |v| => (v[i] - mean[i]) / EffectiveScale(scale[i]))
  }

  /** `min(n_neighbors, n)`: the configured neighbour count, clamped to the number of rows. */
  function EffectiveK(m: Bundle): (k: nat)
    requires Valid(m)
    ensures 1 <= k <= |m.xScaled| && k <= m.nNeighbors
    ensures k == |m.xScaled| || k == m.nNeighbors
  {
    if m.nNeighbors < |m.xScaled| then m.nNeighbors else |m.xScaled|
  }

  /** The distance between a query and a row. Euclidean distance over float32 values is not
      part of this model: any distance is accepted, provided it is never negative. */
  type Distance = (seq<real>, seq<real>) -> real

  ghost predicate NonNegativeDistance(dist: Distance) {
    forall a, b :: dist(a, b) >= 0.0
  }

  /** `norm(X_scaled - query, axis=1)`: the query's distance to every row, in row order. */
  function AllDistances(query: seq<real>, rows: seq<seq<real>>, dist: Distance): (r: seq<real>)
    requires NonNegativeDistance(dist)
    ensures |r| == |rows| && NonNegative(r)
    ensures forall i :: 0 <= i < |rows| ==> r[i] == dist(query, rows[i])
  {
    seq(|rows|, i requires 0 <= i < |rows| => dist(query, rows[i]))
  }

  /** The neighbourhood of a query, at full precision: the chosen row indices, their
      distances, ids and labels (index-aligned), and the vote over them. */
  datatype Assessment = Assessment(
    idx: seq<nat>,
    dists: seq<real>,
    ids: seq<int>,
    labels: seq<int>,
    probability: real,
    ratio: real)

  /** The entries of `xs` at the positions `idx`, in that order (numpy's fancy indexing). */
  function Pick<T>(xs: seq<T>, idx: seq<nat>): (r: seq<T>)
    requires forall j :: 0 <= j < |idx| ==> idx[j] < |xs|
    ensures |r| == |idx|
    ensures forall j :: 0 <= j < |idx| ==> r[j] == xs[idx[j]]
  {
    seq(|idx|, j requires 0 <= j < |idx| => xs[idx[j]])
  }

  /** Lines 30-48 of the scorer on a standardised query: the nearest k rows, and their
      distances, ids and labels, index-aligned with them. */
  function Assess(m: Bundle, query: seq<real>, dist: Distance): (a: Assessment)
    requires Valid(m) && NonNegativeDistance(dist)
    ensures |a.idx| == EffectiveK(m)
    ensures a.idx == Nearest(AllDistances(query, m.xScaled, dist), EffectiveK(m))
    ensures a.dists == Pick(AllDistances(query, m.xScaled, dist), a.idx)
    ensures a.ids == Pick(m.rowIds, a.idx) && a.labels == Pick(m.labels, a.idx)
    ensures NonDecreasing(a.dists) && NonNegative(a.dists) && Binary(a.labels)
    ensures a.probability == RiskProbability(a.dists, a.labels) && 0.0 <= a.probability <= 1.0
    ensures a.ratio == FraudRatio(a.labels) && 0.0 <= a.ratio <= 1.0
  {
    var all := AllDistances(query, m.xScaled, dist);
    var idx := Nearest(all, EffectiveK(m));
    var dists := Pick(all, idx);
    var labels := Pick(m.labels, idx);
    Assessment(idx, dists, Pick(m.rowIds, idx), labels, RiskProbability(dists, labels), FraudRatio(labels))
  }

  /** The score response: the rounded probability, its band, the neighbours' row ids (nearest
      first), the rounded fraud ratio, the rounded distances and the rationale. */
  datatype ScoreResponse = ScoreResponse(
    riskScore: real,
    confidenceBand: Band,
    nearestNeighbors: seq<int>,
    fraudRatioNeighbors: real,
    distances: seq<real>,
    rationale: string)

  /** The response built from an assessment. The band is taken from the probability before
      rounding; the reported numbers are rounded to four decimals. */
  function Respond(a: Assessment): (r: ScoreResponse)
    requires |a.labels| == |a.ids| && Binary(a.labels)
    ensures r.confidenceBand == ConfidenceBand(a.probability)
    ensures -0.00005 <= r.riskScore - a.probability <= 0.00005
    ensures -0.00005 <= r.fraudRatioNeighbors - a.ratio <= 0.00005
    ensures r.nearestNeighbors == a.ids && |r.distances| == |a.dists|
    ensures forall j :: 0 <= j < |a.dists| ==> -0.00005 <= r.distances[j] - a.dists[j] <= 0.00005
    ensures r.rationale == Rationale(|a.ids|, FraudCount(a.labels))
  {
    ScoreResponse(
      Round4(a.probability),
      ConfidenceBand(a.probability),
      a.ids,
      Round4(a.ratio),
      RoundAll(a.dists),
      Rationale(|a.ids|, FraudCount(a.labels)))
  }

  /** `FraudKNNModel.score`: fails exactly when the feature vector cannot be built, with that
      error; otherwise reports the row ids of the k = min(n_neighbors, n) nearest rows, closest
      first, each with its distance to four decimals, the weighted vote over them rounded to
      four decimals as the risk score, a fraud ratio in [0, 1], and a rationale counting the
      neighbours and their fraud labels. */
  function Score(m: Bundle, payload: Payload, parse: TextParser, dist: Distance)
    : (r: Result<ScoreResponse, FeatureError>)
    requires Valid(m) && NonNegativeDistance(dist)
    ensures var v := BuildFeatureVector(payload, m.featureColumns, parse);
      && (r.Ok? <==> v.Ok?)
      && (r.Err? ==> r.error == v.error)
    ensures r.Ok? ==>
      && |r.value.nearestNeighbors| == EffectiveK(m)
      && |r.value.distances| == EffectiveK(m)
      && (forall j :: 0 <= j < EffectiveK(m) ==> r.value.nearestNeighbors[j] in m.rowIds)
      && NonDecreasing(r.value.distances)
      && 0.0 <= r.value.riskScore <= 1.0
      && 0.0 <= r.value.fraudRatioNeighbors <= 1.0
      && exists c: nat :: c <= EffectiveK(m) && r.value.rationale == Rationale(EffectiveK(m), c)
    ensures r.Ok? ==>
      ReportsNearest(m, Query(m, BuildFeatureVector(payload, m.featureColumns, parse).value), dist, r.value)
  {
    match BuildFeatureVector(payload, m.featureColumns, parse)
    case Err(e) => Err(e)
    case Ok(v) => Ok(ScoreQuery(m, Query(m, v), dist))
  }

  /** The response reports the k nearest rows to `q`: their row ids, closest first, each
      distance to within four decimals, the weighted vote over them rounded to four decimals
      as the risk score, the band of the unrounded vote, their fraud-label mean rounded to
      four decimals, and a rationale counting them and their fraud labels. */
  predicate ReportsNearest(m: Bundle, q: seq<real>, dist: Distance, r: ScoreResponse)
    requires Valid(m) && NonNegativeDistance(dist)
  {
    var all := AllDistances(q, m.xScaled, dist);
    var idx := Nearest(all, EffectiveK(m));
    && r.nearestNeighbors == Pick(m.rowIds, idx)
    && |r.distances| == |idx|
    && (forall j :: 0 <= j < |idx| ==> -0.00005 <= r.distances[j] - all[idx[j]] <= 0.00005)
    && r.riskScore == Round4(RiskProbability(Pick(all, idx), Pick(m.labels, idx)))
    && r.confidenceBand == ConfidenceBand(RiskProbability(Pick(all, idx), Pick(m.labels, idx)))
    && r.fraudRatioNeighbors == Round4(FraudRatio(Pick(m.labels, idx)))
    && r.rationale == Rationale(|idx|, FraudCount(Pick(m.labels, idx)))
  }

  /** Lines 30-62 of the scorer on an already standardised query: the response reports the
      row ids of the k nearest rows, closest first, their distances to four decimals and the
      rounded weighted vote over them. */
  function ScoreQuery(m: Bundle, q: seq<real>, dist: Distance): (r: ScoreResponse)
    requires Valid(m) && NonNegativeDistance(dist)
    ensures |r.nearestNeighbors| == EffectiveK(m) && |r.distances| == EffectiveK(m)
    ensures forall j :: 0 <= j < EffectiveK(m) ==> r.nearestNeighbors[j] in m.rowIds
    ensures NonDecreasing(r.distances)
    ensures 0.0 <= r.riskScore <= 1.0 && 0.0 <= r.fraudRatioNeighbors <= 1.0
    ensures exists c: nat :: c <= EffectiveK(m) && r.rationale == Rationale(EffectiveK(m), c)
    ensures ReportsNearest(m, q, dist, r)
  {
    var a := Assess(m, q, dist);
    RoundAllNonDecreasing(a.dists);
    Round4UnitInterval(a.probability);
    Round4UnitInterval(a.ratio);
    var r := Respond(a);
    assert forall j :: 0 <= j < |a.idx| ==> r.nearestNeighbors[j] == m.rowIds[a.idx[j]];
    r
  }

  /** The query the scorer measures from: the feature vector, standardised. */
  function Query(m: Bundle, v: seq<real>): (q: seq<real>)
    requires Valid(m) && |v| == |m.featureColumns|
    ensures |q| == |m.featureColumns|
  {
    Standardize(v, m.mean, m.scale)
  }

  /** With a single neighbour (`n_neighbors = 1`, or a bundle of one row) the score and the
      fraud ratio are the label of the single nearest row, whose distance is no larger than any
      other row's. */
  lemma SingleNeighbourScore(m: Bundle, payload: Payload, parse: TextParser, dist: Distance)
    requires Valid(m) && NonNegativeDistance(dist) && EffectiveK(m) == 1
    requires BuildFeatureVector(payload, m.featureColumns, parse).Ok?
    ensures var a := Assess(m, Query(m, BuildFeatureVector(payload, m.featureColumns, parse).value), dist);
      var all := AllDistances(Query(m, BuildFeatureVector(payload, m.featureColumns, parse).value), m.xScaled, dist);
      var r := Score(m, payload, parse, dist).value;
      && |a.idx| == 1
      && (forall i :: 0 <= i < |all| ==> all[a.idx[0]] <= all[i])
      && r.nearestNeighbors == [m.rowIds[a.idx[0]]]
      && r.riskScore == m.labels[a.idx[0]] as real
      && r.fraudRatioNeighbors == m.labels[a.idx[0]] as real
  {
    var v := BuildFeatureVector(payload, m.featureColumns, parse).value;
    var a := Assess(m, Query(m, v), dist);
    SingleNeighbourDecides(a.dists, a.labels);
    Round4Exact(0);
    Round4Exact(10000);
  }

  /** When every historical row carries the same label, that label is the score and the ratio,
      and the band is high for fraud and low for legitimate. */
  lemma UniformHistoryScore(m: Bundle, payload: Payload, parse: TextParser, dist: Distance, l: int)
    requires Valid(m) && NonNegativeDistance(dist)
    requires forall i :: 0 <= i < |m.labels| ==> m.labels[i] == l
    requires BuildFeatureVector(payload, m.featureColumns, parse).Ok?
    ensures var r := Score(m, payload, parse, dist).value;
      && r.riskScore == l as real && r.fraudRatioNeighbors == l as real
      && r.confidenceBand == (if l == 1 then High else Low)
  {
    var v := BuildFeatureVector(payload, m.featureColumns, parse).value;
    var a := Assess(m, Query(m, v), dist);
    UniformLabelsCollapse(a.dists, a.labels, l);
    Round4Exact(0);
    Round4Exact(10000);
  }

  /** A neighbour count of at least n is clamped, not rejected: every row becomes a neighbour. */
  lemma LargeNeighbourCountTakesEveryRow(m: Bundle, query: seq<real>, dist: Distance)
    requires Valid(m) && NonNegativeDistance(dist) && m.nNeighbors >= |m.xScaled|
    ensures var a := Assess(m, query, dist);
      |a.idx| == |m.xScaled| && forall i :: 0 <= i < |m.xScaled| ==> i in a.idx
  {
    var all := AllDistances(query, m.xScaled, dist);
    var r := Ranking(all);
    RankingPrefixIsNearest(all, |all|);
    assert r[..|all|] == r;
    NearestIsUnique(all, Assess(m, query, dist).idx, r);
  }

  /** The band is decided on the probability before rounding, the reported score after it:
      a probability of 0.74996 is reported as 0.75 while its band is medium. */
  lemma BandUsesUnroundedProbability()
    ensures ConfidenceBand(0.74996) == Medium && Round4(0.74996) == 0.75
  {
  }

  /** A distance that is zero between a point and itself. */
  ghost predicate ZeroOnSelf(dist: Distance) {
    forall q :: dist(q, q) == 0.0
  }

  /** A query equal to a stored row has a nearest neighbour at distance 0. */
  lemma StoredRowIsAtDistanceZero(m: Bundle, query: seq<real>, dist: Distance, i: nat)
    requires Valid(m) && NonNegativeDistance(dist) && ZeroOnSelf(dist)
    requires i < |m.xScaled| && query == m.xScaled[i]
    ensures Assess(m, query, dist).dists[0] == 0.0
  {
    var all := AllDistances(query, m.xScaled, dist);
    var a := Assess(m, query, dist);
    assert all[i] == 0.0;
    if i in a.idx {
      var p :| 0 <= p < |a.idx| && a.idx[p] == i;
      assert a.dists[0] <= a.dists[p];
    } else {
      assert all[a.idx[0]] <= all[i];
    }
  }

  /** Scoring a payload whose standardised features are a stored row reports 0 as the
      nearest distance. */
  lemma StoredRowScoresZeroDistance(m: Bundle, payload: Payload, parse: TextParser, dist: Distance, i: nat)
    requires Valid(m) && NonNegativeDistance(dist) && ZeroOnSelf(dist)
    requires BuildFeatureVector(payload, m.featureColumns, parse).Ok?
    requires i < |m.xScaled| && Query(m, BuildFeatureVector(payload, m.featureColumns, parse).value) == m.xScaled[i]
    ensures Score(m, payload, parse, dist).Ok?
    ensures Score(m, payload, parse, dist).value.distances[0] == 0.0
  {
    var q := Query(m, BuildFeatureVector(payload, m.featureColumns, parse).value);
    StoredRowIsAtDistanceZero(m, q, dist, i);
    var a := Assess(m, q, dist);
    Round4Exact(0);
    assert RoundAll(a.dists)[0] == Round4(a.dists[0]);
  }
}
