/** The scoring service's triage endpoint (`score_transaction`): score the request, decide on
    the reported risk score against two thresholds, and answer with the transaction id, the
    scored fields, the decision and the thresholds used. */
module TriageService {
  import opened Common
  import opened FeatureEngineering
  import opened RiskAggregation
  import opened Presentation
  import opened KnnModel

  /** The thresholds the service uses when its environment does not set them. */
  const DefaultLowThreshold: real := 0.35
  const DefaultHighThreshold: real := 0.75

  datatype Thresholds = Thresholds(low: real, high: real)

  /** The three-way rule: block at or above the high threshold, otherwise review at or above
      the low one, otherwise approve. Nothing requires low <= high. */
  function Triage(risk: real, low: real, high: real): (d: Decision)
    ensures d == AutoBlock <==> risk >= high
    ensures d == ManualReview <==> low <= risk < high
    ensures d == AutoApprove <==> risk < low && risk < high
  {
    if risk >= high then AutoBlock
    else if risk >= low then ManualReview
    else AutoApprove
  }

  /** The default thresholds on sample risks; both bounds are inclusive. */
  lemma DefaultThresholdExamples()
    ensures Triage(0.80, DefaultLowThreshold, DefaultHighThreshold) == AutoBlock
    ensures Triage(0.50, DefaultLowThreshold, DefaultHighThreshold) == ManualReview
    ensures Triage(0.10, DefaultLowThreshold, DefaultHighThreshold) == AutoApprove
    ensures Triage(0.35, DefaultLowThreshold, DefaultHighThreshold) == ManualReview
    ensures Triage(0.75, DefaultLowThreshold, DefaultHighThreshold) == AutoBlock
  {
  }

  /** With ordered thresholds a higher risk never gets a milder decision. */
  lemma TriageMonotone(r1: real, r2: real, low: real, high: real)
    requires low <= high && r1 <= r2
    ensures Severity(Triage(r1, low, high)) <= Severity(Triage(r2, low, high))
  {
  }

  /** With inverted thresholds (low > high) no risk is sent to manual review. */
  lemma InvertedThresholdsSkipReview(risk: real, low: real, high: real)
    requires low > high
    ensures Triage(risk, low, high) != ManualReview
    ensures Triage(risk, low, high) == (if risk >= high then AutoBlock else AutoApprove)
  {
  }

  /** The request: an optional transaction id and the transaction's fields. */
  datatype ScoreRequest = ScoreRequest(transactionId: Option<string>, fields: Payload)

  /** `payload.model_dump()`: the fields together with the `transaction_id` entry, which is
      `None` when the request carries no id. */
  function Dump(req: ScoreRequest): (p: Payload)
    ensures "transaction_id" in p
    ensures p["transaction_id"] == (match req.transactionId case Some(s) => Text(s) case None => NoneValue)
    ensures forall c :: c != "transaction_id" ==> (c in p <==> c in req.fields)
    ensures forall c :: c != "transaction_id" && c in req.fields ==> p[c] == req.fields[c]
  {
    req.fields[
      "transaction_id" := match req.transactionId case Some(s) => Text(s) case None => NoneValue]
  }

  datatype TriageResponse = TriageResponse(
    transactionId: Option<string>,
    scored: ScoreResponse,
    decision: Decision,
    thresholds: Thresholds)

  /** `score_transaction`: fails exactly when scoring fails; otherwise echoes the request's
      transaction id, passes every scored field through unchanged, decides on the reported
      (rounded) risk score and reports the thresholds it used. */
  function ScoreTransaction(m: Bundle, req: ScoreRequest, parse: TextParser, dist: Distance, th: Thresholds)
    : (r: Result<TriageResponse, FeatureError>)
    requires Valid(m) && NonNegativeDistance(dist)
    ensures var s := Score(m, Dump(req), parse, dist);
      && (r.Ok? <==> s.Ok?)
      && (r.Err? ==> r.error == s.error)
      && (r.Ok? ==> r.value.scored == s.value)
    ensures r.Ok? ==>
      && r.value.transactionId == req.transactionId
      && r.value.thresholds == th
      && (r.value.decision == AutoBlock <==> r.value.scored.riskScore >= th.high)
      && (r.value.decision == ManualReview <==> th.low <= r.value.scored.riskScore < th.high)
      && (r.value.decision == AutoApprove <==> r.value.scored.riskScore < th.low && r.value.scored.riskScore < th.high)
  {
    match Score(m, Dump(req), parse, dist)
    case Err(e) => Err(e)
    case Ok(scored) =>
      Ok(TriageResponse(req.transactionId, scored, Triage(scored.riskScore, th.low, th.high), th))
  }

  /** Under the default thresholds the decision, taken on the rounded probability, and the band,
      taken on the unrounded one, never contradict each other at the extremes: a high band is
      always blocked and an approval always has a low band. */
  lemma DefaultDecisionAgreesWithBand(p: real)
    ensures ConfidenceBand(p) == High ==> Triage(Round4(p), DefaultLowThreshold, DefaultHighThreshold) == AutoBlock
    ensures Triage(Round4(p), DefaultLowThreshold, DefaultHighThreshold) == AutoApprove ==> ConfidenceBand(p) == Low
  {
  }

  /** The same at the endpoint: a response under the default thresholds whose band is high is
      blocked, and an approved one has a low band. A medium band can still be blocked
      (a probability of 0.74996 is reported as 0.75). */
  lemma ResponseDecisionAgreesWithBand(m: Bundle, req: ScoreRequest, parse: TextParser, dist: Distance)
    requires Valid(m) && NonNegativeDistance(dist)
    requires ScoreTransaction(m, req, parse, dist, Thresholds(DefaultLowThreshold, DefaultHighThreshold)).Ok?
    ensures var r := ScoreTransaction(m, req, parse, dist, Thresholds(DefaultLowThreshold, DefaultHighThreshold)).value;
      && (r.scored.confidenceBand == High ==> r.decision == AutoBlock)
      && (r.decision == AutoApprove ==> r.scored.confidenceBand == Low)
  {
    var v := BuildFeatureVector(Dump(req), m.featureColumns, parse).value;
    var a := Assess(m, Query(m, v), dist);
    DefaultDecisionAgreesWithBand(a.probability);
  }
}
