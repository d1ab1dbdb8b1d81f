/** The training script: derive the feature columns and the 0/1 labels from a chargeback
    table, standardise the feature matrix and produce the bundle the scorer loads. */
module TrainModel {
  import opened Common
  import opened FeatureEngineering
  import opened RiskAggregation
  import opened KnnModel

  const TargetColumn: string := "CBK"
  const DropColumns: seq<string> := ["Unnamed: 0", "Card Number", "Date"]

  /** The column the row ids are read from (the index column a CSV export leaves behind). */
  const RowIdColumn: string := "Unnamed: 0"

  /** The `--neighbors` default. */
  const DefaultNeighbors: int := 15

  /** A table as read from the CSV file: the header in file order, and each row keyed by
      column name. */
  datatype Table = Table(header: seq<string>, rows: seq<Payload>)

  /** Every row has a value in every column of the header. */
  predicate WellFormed(t: Table) {
    forall i, c :: 0 <= i < |t.rows| && c in t.header ==> c in t.rows[i]
  }

  /** The columns left out of the features: the target and the dropped columns. */
  predicate Excluded(c: string) {
    c in DropColumns + [TargetColumn]
  }

  /** The `feature_columns` comprehension: the header's columns, in header order, without the
      excluded ones. */
  function FeatureColumns(header: seq<string>): (cols: seq<string>)
    ensures forall c :: c in cols <==> c in header && c != TargetColumn && c !in DropColumns
    ensures IsSubsequence(cols, header)
  {
    Filter(header, c => !Excluded(c))
  }

  predicate IsUpper(c: char) {
    'A' <= c <= 'Z'
  }

  /** Lower-casing of one character, for the ASCII letters. */
  function LowerChar(c: char): (l: char)
    ensures !IsUpper(l)
    ensures IsUpper(c) ==> l as int == c as int + 32
    ensures !IsUpper(c) ==> l == c
  {
    if IsUpper(c) then (c as int + 32) as char else c
  }

  /** `str.lower()` over ASCII letters. */
  function Lower(s: string): (r: string)
    ensures |r| == |s|
    ensures forall i :: 0 <= i < |s| ==> r[i] == LowerChar(s[i])
  {
    seq(|s|, i requires 0 <= i < |s| => LowerChar(s[i]))
  }

  /** `(df[TARGET_COL].str.lower() == 'yes').astype(int)` for one value: 1 for a string that
      lower-cases to "yes", 0 for any other string and for a value that is not a string. */
  function LabelOf(v: Value): (l: int)
    ensures l == 0 || l == 1
    ensures l == 1 <==> v.Text? && Lower(v.s) == "yes"
  {
    if v.Text? && Lower(v.s) == "yes" then 1 else 0
  }

  /** The label test ignores case: a value is labelled fraud exactly when it is the three
      letters y, e, s in any mix of cases. */
  lemma LabelIgnoresCase(s: string)
    ensures LabelOf(Text(s)) == 1 <==>
      && |s| == 3
      && (s[0] == 'y' || s[0] == 'Y')
      && (s[1] == 'e' || s[1] == 'E')
      && (s[2] == 's' || s[2] == 'S')
  {
  }

  /** Python's `int()` of a float: truncation toward zero. */
  function Truncate(x: real): (n: int)
    ensures 0.0 <= x ==> n as real <= x < n as real + 1.0
    ensures x < 0.0 ==> n as real - 1.0 < x <= n as real
  {
    if x >= 0.0 then x.Floor else -((-x).Floor)
  }

  /** The row id read from the id column: its numeric value truncated to an integer. */
  function RowId(v: Value, parse: TextParser): (r: Option<int>)
    ensures r.Some? <==> ToFloat(v, parse).Some?
    ensures r.Some? ==> var x := ToFloat(v, parse).value;
      && (0.0 <= x ==> r.value as real <= x < r.value as real + 1.0)
      && (x < 0.0 ==> r.value as real - 1.0 < x <= r.value as real)
  {
    match ToFloat(v, parse)
    case Some(x) => Some(Truncate(x))
    case None => None
  }

  /** `df[feature_columns].astype(float)`: every row's feature vector, or the first
      conversion failure. */
  function FeatureMatrix(rows: seq<Payload>, cols: seq<string>, parse: TextParser)
    : (r: Result<seq<seq<real>>, FeatureError>)
    ensures r.Ok? <==> forall i :: 0 <= i < |rows| ==> BuildFeatureVector(rows[i], cols, parse).Ok?
    ensures r.Ok? ==> |r.value| == |rows|
    ensures r.Ok? ==> forall i :: 0 <= i < |rows| ==> r.value[i] == BuildFeatureVector(rows[i], cols, parse).value
  {
    if rows == [] then Ok([])
    else match BuildFeatureVector(rows[0], cols, parse)
      case Err(e) => Err(e)
      case Ok(v) =>
        match FeatureMatrix(rows[1..], cols, parse)
        case Err(e) => Err(e)
        case Ok(vs) => Ok([v] + vs)
  }

  /** All row ids, or `None` when one does not convert. */
  function RowIds(rows: seq<Payload>, parse: TextParser): (r: Option<seq<int>>)
    requires forall i :: 0 <= i < |rows| ==> RowIdColumn in rows[i]
    ensures r.Some? <==> forall i :: 0 <= i < |rows| ==> RowId(rows[i][RowIdColumn], parse).Some?
    ensures r.Some? ==> |r.value| == |rows|
    ensures r.Some? ==> forall i :: 0 <= i < |rows| ==> Some(r.value[i]) == RowId(rows[i][RowIdColumn], parse)
  {
    if rows == [] then Some([])
    else match RowId(rows[0][RowIdColumn], parse)
      case None => None
      case Some(id) =>
        match RowIds(rows[1..], parse)
        case None => None
        case Some(ids) => Some([id] + ids)
  }

  /** The scaler's statistics of one column, (mean, standard deviation). Their computation
      is not part of this model. */
  type ColumnStats = seq<real> -> (real, real)

  /** Column `j` of a matrix. */
  function Column(x: seq<seq<real>>, j: nat): (c: seq<real>)
    requires forall i :: 0 <= i < |x| ==> j < |x[i]|
    ensures |c| == |x| && forall i :: 0 <= i < |x| ==> c[i] == x[i][j]
  {
    seq(|x|, i requires 0 <= i < |x| => x[i][j])
  }

  /** The target column holds at least one string. pandas' `.str` accessor raises on a column
      without strings (numbers only, booleans only, or only missing values) of a non-empty
      table. */
  predicate TargetHasText(t: Table)
    requires WellFormed(t) && TargetColumn in t.header
  {
    exists i :: 0 <= i < |t.rows| && t.rows[i][TargetColumn].Text?
  }

  /** How training fails, in the order the script meets the checks: no target column, a
      feature value that does not convert, a target column without strings, an empty table,
      no feature column, a neighbour count below 1, or row ids that are absent or do not
      convert. */
  datatype TrainError =
    | MissingTarget(message: string)
    | NonStringTarget
    | Unconvertible(cause: FeatureError)
    | NoSamples
    | NoFeatures
    | InvalidNeighbors
    | MissingRowIds
    | InvalidRowId

  /** The 0/1 label of every row. */
  function Labels(rows: seq<Payload>): (ls: seq<int>)
    requires forall i :: 0 <= i < |rows| ==> TargetColumn in rows[i]
    ensures |ls| == |rows| && Binary(ls)
    ensures forall i :: 0 <= i < |rows| ==> ls[i] == LabelOf(rows[i][TargetColumn])
  {
    seq(|rows|, i requires 0 <= i < |rows| => LabelOf(rows[i][TargetColumn]))
  }

  /** `StandardScaler().fit_transform(X)` and the saved bundle: per-column mean and scale
      (a zero standard deviation becomes scale 1), every row standardised with them. */
  function Fit(cols: seq<string>, neighbors: int, x: seq<seq<real>>, labels: seq<int>, ids: seq<int>, stats: ColumnStats)
    : (m: Bundle)
    requires |x| >= 1 && |cols| >= 1 && neighbors >= 1
    requires forall i :: 0 <= i < |x| ==> |x[i]| == |cols|
    requires |labels| == |x| && |ids| == |x| && Binary(labels)
    ensures Valid(m)
    ensures m.featureColumns == cols && m.nNeighbors == neighbors && m.labels == labels && m.rowIds == ids
    ensures forall j :: 0 <= j < |m.scale| ==> m.scale[j] != 0.0
    ensures forall j :: 0 <= j < |cols| ==>
      m.mean[j] == stats(Column(x, j)).0 && m.scale[j] == EffectiveScale(stats(Column(x, j)).1)
    ensures forall i :: 0 <= i < |x| ==> m.xScaled[i] == Query(m, x[i])
  {
    var d := |cols|;
    var mean := seq(d, j requires 0 <= j < d => stats(Column(x, j)).0);
    var scale := seq(d, j requires 0 <= j < d => EffectiveScale(stats(Column(x, j)).1));
    assert forall j :: 0 <= j < d ==> scale[j] == EffectiveScale(stats(Column(x, j)).1);
    var xs := seq(|x|, i requires 0 <= i < |x| => Standardize(x[i], mean, scale));
    Bundle(cols, neighbors, xs, labels, ids, mean, scale)
  }

  /** `main` without its file I/O: the checks in the order the script meets them, then the
      bundle it saves. */
  function Train(t: Table, neighbors: int, parse: TextParser, stats: ColumnStats)
    : (r: Result<Bundle, TrainError>)
    requires WellFormed(t)
    ensures r.Err? && r.error.MissingTarget? <==> TargetColumn !in t.header
    ensures r.Ok? <==>
      && TargetColumn in t.header
      && (forall i :: 0 <= i < |t.rows| ==> BuildFeatureVector(t.rows[i], FeatureColumns(t.header), parse).Ok?)
      && |t.rows| >= 1
      && TargetHasText(t)
      && |FeatureColumns(t.header)| >= 1
      && neighbors >= 1
      && RowIdColumn in t.header
      && (forall i :: 0 <= i < |t.rows| ==> RowId(t.rows[i][RowIdColumn], parse).Some?)
    ensures r.Ok? ==>
      && Valid(r.value)
      && r.value.featureColumns == FeatureColumns(t.header)
      && r.value.nNeighbors == neighbors
      && |r.value.xScaled| == |t.rows|
      && (forall j :: 0 <= j < |r.value.scale| ==> r.value.scale[j] != 0.0)
      && (forall j :: 0 <= j < |r.value.featureColumns| ==>
            var x := FeatureMatrix(t.rows, r.value.featureColumns, parse).value;
            && r.value.mean[j] == stats(Column(x, j)).0
            && r.value.scale[j] == EffectiveScale(stats(Column(x, j)).1))
      && (forall i :: 0 <= i < |t.rows| ==>
            && r.value.labels[i] == LabelOf(t.rows[i][TargetColumn])
            && Some(r.value.rowIds[i]) == RowId(t.rows[i][RowIdColumn], parse)
            && r.value.xScaled[i] == Query(r.value, BuildFeatureVector(t.rows[i], r.value.featureColumns, parse).value))
  {
    if TargetColumn !in t.header then Err(MissingTarget("Missing target column 'CBK'"))
    else
      var cols := FeatureColumns(t.header);
      match FeatureMatrix(t.rows, cols, parse)
      case Err(e) => Err(Unconvertible(e))
      case Ok(x) =>
        if |t.rows| >= 1 && !TargetHasText(t) then Err(NonStringTarget)
        else if |t.rows| == 0 then Err(NoSamples)
        else if |cols| == 0 then Err(NoFeatures)
        else if neighbors < 1 then Err(InvalidNeighbors)
        else if RowIdColumn !in t.header then Err(MissingRowIds)
        else match RowIds(t.rows, parse)
          case None => Err(InvalidRowId)
          case Some(ids) => Ok(Fit(cols, neighbors, x, Labels(t.rows), ids, stats))
  }

  /** Scoring a training row against the bundle trained on it finds a neighbour at distance 0:
      training and scoring standardise the same features the same way. */
  lemma TrainingRowHasZeroDistanceNeighbour(
    t: Table, neighbors: int, parse: TextParser, stats: ColumnStats, dist: Distance, i: nat)
    requires WellFormed(t) && Train(t, neighbors, parse, stats).Ok?
    requires NonNegativeDistance(dist) && ZeroOnSelf(dist)
    requires i < |t.rows|
    ensures var m := Train(t, neighbors, parse, stats).value;
      Score(m, t.rows[i], parse, dist).Ok? && Score(m, t.rows[i], parse, dist).value.distances[0] == 0.0
  {
    var m := Train(t, neighbors, parse, stats).value;
    StoredRowScoresZeroDistance(m, t.rows[i], parse, dist, i);
  }

  /** Trained with the default neighbour count, the bundle keeps 15 neighbours, and scoring
      against it uses 15 of them, or every row when the table has fewer. */
  lemma DefaultNeighbourCount(t: Table, parse: TextParser, stats: ColumnStats)
    requires WellFormed(t) && Train(t, DefaultNeighbors, parse, stats).Ok?
    ensures var m := Train(t, DefaultNeighbors, parse, stats).value;
      && m.nNeighbors == 15
      && EffectiveK(m) == (if |t.rows| < 15 then |t.rows| else 15)
  {
  }

  /** A target column without strings stops training once the features convert: a column of
      0/1 numbers is rejected, not read as all-legitimate labels. */
  lemma NonStringTargetRejected(t: Table, neighbors: int, parse: TextParser, stats: ColumnStats)
    requires WellFormed(t) && TargetColumn in t.header && |t.rows| >= 1
    requires forall i :: 0 <= i < |t.rows| ==> !t.rows[i][TargetColumn].Text?
    requires FeatureMatrix(t.rows, FeatureColumns(t.header), parse).Ok?
    ensures Train(t, neighbors, parse, stats) == Err(NonStringTarget)
  {
  }
}
