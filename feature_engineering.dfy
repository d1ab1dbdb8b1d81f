/** The feature vector builder: projects a request payload onto the schema's column order. */
module FeatureEngineering {
  import opened Common

  /** A payload value as Python's `float()` receives it. */
  datatype Value = Number(x: real) | Boolean(b: bool) | Text(s: string) | NoneValue

  /** The two ways the projection fails: a `KeyError` for an absent column, or a
      `ValueError`/`TypeError` from `float()` for a present value it cannot convert. */
  datatype FeatureError = MissingField(name: string) | InvalidValue(name: string)

  type Payload = map<string, Value>

  /** The numeric grammar `float()` accepts for strings is not part of this model;
      it is supplied as a parser that returns `None` where `float()` raises. */
  type TextParser = string -> Option<real>

  /** Python's `float(v)`: numbers as they are, booleans as 1.0 / 0.0, strings through
      the parser, and `None` rejected. */
  function ToFloat(v: Value, parse: TextParser): (r: Option<real>)
    ensures r.None? <==> v.NoneValue? || (v.Text? && parse(v.s).None?)
    ensures v.Number? ==> r == Some(v.x)
    ensures v.Text? ==> r == parse(v.s)
    ensures v.Boolean? ==> r.Some? && (r.value == 1.0 <==> v.b) && (r.value == 0.0 <==> !v.b)
  {
    match v
    case Number(x) => Some(x)
    case Boolean(b) => Some(if b then 1.0 else 0.0)
    case Text(s) => parse(s)
    case NoneValue => None
  }

  /** Column `col` is present in the payload and its value converts to a number. */
  predicate Convertible(payload: Payload, col: string, parse: TextParser) {
    col in payload && ToFloat(payload[col], parse).Some?
  }

  /** `build_feature_vector`: the values of `columns`, in schema order, converted by `float()`.
      The columns are visited in order, so the first column that is absent or not
      convertible is the one reported. */
  function BuildFeatureVector(payload: Payload, columns: seq<string>, parse: TextParser)
    : (r: Result<seq<real>, FeatureError>)
    ensures r.Ok? <==> forall i :: 0 <= i < |columns| ==> Convertible(payload, columns[i], parse)
    ensures r.Ok? ==> |r.value| == |columns|
    ensures r.Ok? ==> forall i :: 0 <= i < |columns| ==>
      ToFloat(payload[columns[i]], parse) == Some(r.value[i])
    ensures r.Err? ==> r.error.name in columns && !Convertible(payload, r.error.name, parse)
    ensures r.Err? ==> (r.error.MissingField? <==> r.error.name !in payload)
  {
    if columns == [] then Ok([])
    else
      var col := columns[0];
      if col !in payload then Err(MissingField(col))
      else match ToFloat(payload[col], parse)
        case None => Err(InvalidValue(col))
        case Some(x) =>
          var rest := BuildFeatureVector(payload, columns[1..], parse);
          if rest.Err? then rest else Ok([x] + rest.value)
  }

  /** The error names the first column, in schema order, that is absent or not convertible. */
  lemma {:induction false} FailsAtFirstBadColumn(payload: Payload, columns: seq<string>, parse: TextParser, i: nat)
    requires i < |columns| && !Convertible(payload, columns[i], parse)
    requires forall j :: 0 <= j < i ==> Convertible(payload, columns[j], parse)
    ensures BuildFeatureVector(payload, columns, parse)
         == Err(if columns[i] in payload then InvalidValue(columns[i]) else MissingField(columns[i]))
  {
    if i > 0 {
      FailsAtFirstBadColumn(payload, columns[1..], parse, i - 1);
    }
  }

  /** The result depends only on the payload's entries at schema columns: two payloads that
      agree there (presence and value) give the same vector or the same error. */
  lemma {:induction false} DependsOnlyOnSchemaColumns(p1: Payload, p2: Payload, columns: seq<string>, parse: TextParser)
    requires forall c :: c in columns ==> (c in p1 <==> c in p2)
    requires forall c :: c in columns && c in p1 ==> p1[c] == p2[c]
    ensures BuildFeatureVector(p1, columns, parse) == BuildFeatureVector(p2, columns, parse)
  {
    if columns != [] {
      DependsOnlyOnSchemaColumns(p1, p2, columns[1..], parse);
    }
  }

  /** Payload keys outside the schema are ignored. */
  lemma ExtraKeysIgnored(payload: Payload, extra: Payload, columns: seq<string>, parse: TextParser)
    requires forall c :: c in columns ==> c !in extra
    ensures BuildFeatureVector(payload + extra, columns, parse) == BuildFeatureVector(payload, columns, parse)
  {
    DependsOnlyOnSchemaColumns(payload + extra, payload, columns, parse);
  }
}
