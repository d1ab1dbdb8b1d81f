/** The gateway's score controller (`scoreTransaction`): reject a body that lacks a required
    field, otherwise ask the scoring service for a score and answer with its fields, the
    gateway's own triage decision and the thresholds it used. */
module ScoreController {
  import opened Common
  import opened KnnModel
  import TriageService

  /** A JSON value as the gateway sees it in a request body. Nested arrays and objects are
      one opaque case: the controller only tests them for truthiness. */
  datatype JsValue = JsNull | JsBool(b: bool) | JsNumber(x: real) | JsString(s: string) | JsCompound

  /** The request body. A key that is absent reads as `undefined`; a key present with
      `null` is a different thing. */
  type Body = map<string, JsValue>

  const RequiredFields: seq<string> := [
    "Amount",
    "transactions_last_1h",
    "transactions_last_24h",
    "avg_amount_last_7d_per_card",
    "std_amount_last_30d_per_card",
    "time_since_last_transaction",
    "same_amount_repeat_count",
    "night_transaction"
  ]

  /** `decisionFromRisk`, the gateway's copy of the triage rule. */
  function DecisionFromRisk(risk: real, low: real, high: real): (d: Decision)
    ensures d == AutoBlock <==> risk >= high
    ensures d == ManualReview <==> !(risk >= high) && risk >= low
    ensures d == AutoApprove <==> !(risk >= high) && !(risk >= low)
  {
    if risk >= high then AutoBlock
    else if risk >= low then ManualReview
    else AutoApprove
  }

  /** The gateway's rule and the scoring service's rule decide alike for every risk and every
      pair of thresholds. */
  lemma GatewayAgreesWithService(risk: real, low: real, high: real)
    ensures DecisionFromRisk(risk, low, high) == TriageService.Triage(risk, low, high)
  {
  }

  /** The required fields whose body value is `undefined`, in `RequiredFields` order. */
  function MissingFields(body: Body): (r: seq<string>)
    ensures forall f :: f in r <==> f in RequiredFields && f !in body
    ensures IsSubsequence(r, RequiredFields)
  {
    Filter(RequiredFields, f => f !in body)
  }

  /** A field sent as `null` is present, so it is not reported missing. */
  lemma NullIsNotMissing(body: Body, f: string)
    requires f in body && body[f] == JsNull
    ensures f !in MissingFields(body)
  {
  }

  /** `names.join(sep)`. */
  function Join(names: seq<string>, sep: string): (s: string)
    ensures |names| == 1 ==> s == names[0]
    ensures names != [] ==> names[0] <= s
    decreases |names|
  {
    if names == [] then ""
    else if |names| == 1 then names[0]
    else names[0] + sep + Join(names[1..], sep)
  }

  /** Cuts `s` at every occurrence of `sep`, scanning from the left: the inverse of `Join`. */
  function Split(s: string, sep: string): (r: seq<string>)
    requires sep != []
    ensures |r| >= 1
    decreases |s|
  {
    if |s| < |sep| then [s]
    else if s[..|sep|] == sep then [""] + Split(s[|sep|..], sep)
    else
      var rest := Split(s[1..], sep);
      [[s[0]] + rest[0]] + rest[1..]
  }

  /** A piece free of the separator's first character is cut off whole. */
  lemma {:induction false} SplitAfterPiece(x: string, t: string, sep: string)
    requires sep != [] && sep[0] !in x
    ensures Split(x + t, sep) == [x + Split(t, sep)[0]] + Split(t, sep)[1..]
    decreases |x|
  {
    if x != [] {
      var s := x + t;
      var rest := Split(t, sep);
      assert s[0] == x[0] && s[1..] == x[1..] + t;
      SplitAfterPiece(x[1..], t, sep);
      var inner := Split(x[1..] + t, sep);
      assert inner[0] == x[1..] + rest[0] && inner[1..] == rest[1..];
      if |s| >= |sep| {
        assert s[..|sep|][0] == x[0];
        assert s[..|sep|] != sep;
        assert Split(s, sep) == [[s[0]] + inner[0]] + inner[1..];
        assert [x[0]] + (x[1..] + rest[0]) == x + rest[0];
        assert Split(s, sep) == [x + rest[0]] + rest[1..];
      } else {
        assert rest == [t];
        assert Split(s, sep) == [s];
        assert Split(s, sep) == [x + rest[0]] + rest[1..];
      }
    } else {
      var rest := Split(t, sep);
      assert x + t == t && x + rest[0] == rest[0];
      assert [rest[0]] + rest[1..] == rest;
    }
  }

  /** Joining names that do not contain the separator's first character and splitting the
      result again gives the names back. */
  lemma {:induction false} SplitJoin(names: seq<string>, sep: string)
    requires |names| >= 1 && sep != []
    requires forall i :: 0 <= i < |names| ==> sep[0] !in names[i]
    ensures Split(Join(names, sep), sep) == names
    decreases |names|
  {
    if |names| == 1 {
      SplitAfterPiece(names[0], "", sep);
      assert names[0] + "" == names[0];
    } else {
      var tail := Join(names[1..], sep);
      SplitJoin(names[1..], sep);
      assert (sep + tail)[..|sep|] == sep && (sep + tail)[|sep|..] == tail;
      assert Split(sep + tail, sep) == [""] + names[1..];
      SplitAfterPiece(names[0], sep + tail, sep);
      assert names[0] + sep + tail == names[0] + (sep + tail);
      assert names[0] + "" == names[0];
      assert [names[0]] + names[1..] == names;
    }
  }

  const MissingPrefix: string := "Missing required fields: "
  const ListSeparator: string := ", "

  /** The 400 message: the prefix, then the missing names joined by ", ". */
  function MissingMessage(missing: seq<string>): (msg: string)
    ensures MissingPrefix <= msg
  {
    MissingPrefix + Join(missing, ListSeparator)
  }

  /** No required field name contains a comma. */
  lemma RequiredFieldsHaveNoComma()
    ensures forall f :: f in RequiredFields ==> ',' !in f
  {
  }

  /** The message names every missing field, and nothing else: cutting it after the prefix
      at each ", " recovers the missing list in order. */
  lemma MissingMessageRoundTrip(body: Body)
    requires MissingFields(body) != []
    ensures var msg := MissingMessage(MissingFields(body));
      Split(msg[|MissingPrefix|..], ListSeparator) == MissingFields(body)
  {
    var missing := MissingFields(body);
    forall i | 0 <= i < |missing| ensures missing[i] in RequiredFields {
      assert missing[i] in missing;
    }
    MessageRoundTrip(missing);
  }

  /** The round trip for any non-empty list of required field names. */
  lemma MessageRoundTrip(names: seq<string>)
    requires names != []
    requires forall i :: 0 <= i < |names| ==> names[i] in RequiredFields
    ensures Split(MissingMessage(names)[|MissingPrefix|..], ListSeparator) == names
  {
    RequiredFieldsHaveNoComma();
    assert ListSeparator[0] == ',';
    var joined := Join(names, ListSeparator);
    assert MissingMessage(names)[|MissingPrefix|..] == joined;
    SplitJoin(names, ListSeparator);
  }

  /** JavaScript truthiness: the falsy values are exactly null, false, 0 and the empty string. */
  predicate Truthy(v: JsValue): (t: bool)
    ensures !t <==> v in {JsNull, JsBool(false), JsNumber(0.0), JsString("")}
  {
    match v
    case JsNull => false
    case JsBool(b) => b
    case JsNumber(x) => x != 0.0
    case JsString(s) => s != ""
    case JsCompound => true
  }

  /** `req.body.transaction_id || null`: the body's value when it is truthy, otherwise `null`. */
  function EchoedTransactionId(body: Body): (id: JsValue)
    ensures id != JsNull ==> "transaction_id" in body && id == body["transaction_id"] && Truthy(id)
    ensures id == JsNull <==> !("transaction_id" in body && Truthy(body["transaction_id"]))
  {
    if "transaction_id" in body && Truthy(body["transaction_id"]) then body["transaction_id"] else JsNull
  }

  /** What the call to the scoring service produced: a score response, or a failure
      (a non-2xx status or a network error), which the client raises. */
  datatype MlOutcome = MlScored(response: ScoreResponse) | MlFailed(details: string)

  /** The controller's three ways out: a 400 reply, a triage reply, or an error passed on to
      the error handler. */
  datatype Reply =
    | Rejected(status: int, message: string)
    | Triaged(
        transactionId: JsValue,
        scored: ScoreResponse,
        decision: Decision,
        thresholds: TriageService.Thresholds)
    | Forwarded(details: string)

  /** `scoreTransaction`, with the scoring service's answer as a parameter. */
  function ScoreTransaction(body: Body, ml: MlOutcome, th: TriageService.Thresholds): (r: Reply)
    ensures r.Rejected? <==> MissingFields(body) != []
    ensures r.Rejected? ==> r.status == 400 && r.message == MissingMessage(MissingFields(body))
    ensures r.Forwarded? <==> MissingFields(body) == [] && ml.MlFailed?
    ensures r.Forwarded? ==> r.details == ml.details
    ensures r.Triaged? ==>
      && ml.MlScored?
      && r.transactionId == EchoedTransactionId(body)
      && r.scored == ml.response
      && r.decision == TriageService.Triage(ml.response.riskScore, th.low, th.high)
      && r.thresholds == th
  {
    var missing := MissingFields(body);
    if |missing| > 0 then Rejected(400, MissingMessage(missing))
    else match ml
      case MlFailed(details) => Forwarded(details)
      case MlScored(response) =>
        GatewayAgreesWithService(response.riskScore, th.low, th.high);
        Triaged(EchoedTransactionId(body), response,
          DecisionFromRisk(response.riskScore, th.low, th.high), th)
  }

  /** A rejected body never reaches the scoring service: the reply does not depend on what the
      service would have answered. */
  lemma RejectionIgnoresScoring(body: Body, ml1: MlOutcome, ml2: MlOutcome, th: TriageService.Thresholds)
    requires MissingFields(body) != []
    ensures ScoreTransaction(body, ml1, th) == ScoreTransaction(body, ml2, th)
  {
  }
}
