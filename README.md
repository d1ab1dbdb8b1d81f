# Fraud kNN triage — a Dafny model

This project models the scoring and triage path of a chargeback-fraud service. The service
scores a card transaction by comparing it with historical transactions, using k nearest
neighbours. It then sorts the transaction into one of three outcomes:
`auto_block`, `manual_review` or `auto_approve`.

The model covers these parts, one module per source file or concern:

- **`FeatureEngineering`** (`build_feature_vector`). It projects a request payload onto the
  schema's column order and converts each value as Python's `float()` would.
- **`Selection`**. It picks the k rows with the smallest distances, nearest first. There is a
  specification function `Nearest` and an imperative partial selection `SelectNearest` over an
  array, proved equal to it. Ties in distance are broken by ascending row index. The source's
  `argpartition`/`argsort` pair fixes no order among equal distances; this rule fixes one.
- **`RiskAggregation`**. It holds the inverse-distance vote, the unweighted fraud ratio, the
  confidence band and the rationale sentence.
- **`Presentation`**. It models `round(x, 4)`: the nearest multiple of 0.0001, with exact halves
  going to the even neighbour.
- **`KnnModel`** (`FraudKNNModel.score`). It takes the loaded artifacts as an immutable record
  and covers standardisation with the zero-scale guard, the k clamp, the distances, the
  selection, and the assembly of the response.
- **`TriageService`** (`score_transaction` in the scoring service). It covers the threshold rule
  and the triage response.
- **`ScoreController`** (`scoreTransaction` in the Node gateway). It covers the required-field
  check and its 400 message, the gateway's copy of the threshold rule, the echoed transaction id,
  and how a failed call to the scoring service is passed on.
- **`TrainModel`** (`main` in the training script, without its file I/O). It covers the
  feature-column filter, the target-column checks and the 0/1 label mapping. It also covers the
  scaler-fit failure conditions and the shapes of the saved bundle.

Arithmetic is over Dafny's exact `real`. Three things are parameters rather than definitions:

- the distance between two vectors: any function that is never negative;
- the string grammar of Python's `float()`;
- the scaler's per-column statistics.

Three behaviours of the code worth noting:

- There is no empty-model error at scoring time. Instead, the bundle invariant `KnnModel.Valid`
  requires at least one row. The training side cannot produce an empty bundle, because
  `TrainModel.Train` fails on an empty table.
- Nothing rejects a low threshold above the high one. `TriageService.InvertedThresholdsSkipReview`
  states what the rule then does.
- The triage decision is taken on the *rounded* `risk_score`, while the confidence band is taken
  on the unrounded probability. `KnnModel.BandUsesUnroundedProbability` shows an input where the
  two disagree.

## Model

| member | source | states |
|---|---|---|
| FeatureEngineering.BuildFeatureVector | ml_service/app/feature_engineering.py:4-7 | succeeds iff every schema column is present and convertible; on success the vector has one entry per column, entry i being the converted value of column i; on failure the error names a column that is missing (exactly when it is absent) or unconvertible |
| FeatureEngineering.ToFloat | ml_service/app/feature_engineering.py:6 | `float()` fails only on None and on a string the number grammar rejects; numbers are kept, a string gives the number it spells, true is 1.0 and false is 0.0 |
| FeatureEngineering.FailsAtFirstBadColumn | ml_service/app/feature_engineering.py:6 | the reported column is the first one in schema order that is absent or unconvertible, with the matching error kind |
| FeatureEngineering.DependsOnlyOnSchemaColumns | ml_service/app/feature_engineering.py:6 | two payloads that agree on presence and value at every schema column give the same result |
| FeatureEngineering.ExtraKeysIgnored | ml_service/app/feature_engineering.py:6 | adding keys outside the schema changes nothing |
| Selection.Nearest | ml_service/app/knn_model.py:33-35 | exactly k distinct row indices, in range, ranked by (distance, row index), every selected distance at most every unselected one, distances non-decreasing |
| Selection.RankingPrefixIsNearest | ml_service/app/knn_model.py:33-34 | every prefix of the full ranking lists the nearest rows |
| Selection.NearestIsUnique | ml_service/app/knn_model.py:33-34 | any two lists of the same length that each list the nearest rows, ranked, are equal: the contract determines the selection |
| Selection.SelectNearest | ml_service/app/knn_model.py:33-34 | the partial selection over the distance array (k passes, each taking the nearest row not yet taken) returns exactly `Nearest(dist, k)` |
| Selection.NextIsNearest | ml_service/app/knn_model.py:33-34 | the nearest row not yet chosen extends a nearest-(t) list to the nearest-(t+1) list |
| RiskAggregation.Weight | ml_service/app/knn_model.py:39 | every weight is positive |
| RiskAggregation.CloserWeighsMore | ml_service/app/knn_model.py:39 | weight times (distance + 1e-6) is 1, and a strictly closer neighbour weighs strictly more |
| RiskAggregation.TotalWeight | ml_service/app/knn_model.py:40 | the weight sum is non-negative, and positive for a non-empty neighbourhood, so the division is defined |
| RiskAggregation.FraudWeight | ml_service/app/knn_model.py:40 | the fraud-labelled weight lies between 0 and the total weight |
| RiskAggregation.RiskProbability | ml_service/app/knn_model.py:40 | with 0/1 labels the weighted vote lies in [0, 1] |
| RiskAggregation.RiskExtremes | ml_service/app/knn_model.py:40 | the vote is 0 iff no neighbour is fraud, and 1 iff every neighbour is fraud |
| RiskAggregation.UniformLabelsCollapse | ml_service/app/knn_model.py:39-41 | when every neighbour has label l, both the vote and the ratio equal l |
| RiskAggregation.SingleNeighbourDecides | ml_service/app/knn_model.py:39-41 | with one neighbour, vote and ratio are its label |
| RiskAggregation.EqualDistancesGiveRatio | ml_service/app/knn_model.py:39-41 | when all neighbours are equally far, the weighted vote equals the unweighted fraud ratio |
| RiskAggregation.FraudCount | ml_service/app/knn_model.py:52 | the number of fraud labels lies between 0 and k |
| RiskAggregation.FraudRatio | ml_service/app/knn_model.py:41 | the label mean lies in [0, 1] |
| RiskAggregation.ConfidenceBand | ml_service/app/knn_model.py:43-48 | high iff p >= 0.75, medium iff 0.45 <= p < 0.75, low iff p < 0.45 |
| RiskAggregation.BandMonotone | ml_service/app/knn_model.py:43-48 | a higher probability never gets a lower band |
| RiskAggregation.DecimalString | ml_service/app/knn_model.py:50-53 | a count is written as a non-empty digit string without leading zeros |
| RiskAggregation.DecimalRoundTrip | ml_service/app/knn_model.py:50-53 | reading the written digits back gives the count |
| RiskAggregation.Rationale | ml_service/app/knn_model.py:50-53 | the sentence opens with the fixed lead, the neighbour count and the fixed middle, and closes with the fixed tail |
| RiskAggregation.RationaleDeterminesCounts | ml_service/app/knn_model.py:50-53 | two rationales are equal only if they report the same neighbour count and the same fraud count |
| Presentation.RoundHalfEven | ml_service/app/knn_model.py:56 | the result is an integer within 1/2 of the input, and even when the input is exactly halfway |
| Presentation.Round4 | ml_service/app/knn_model.py:56-60 | the result is a multiple of 0.0001 within 0.00005 of the input |
| Presentation.Round4Monotone | ml_service/app/knn_model.py:56-60 | rounding preserves order |
| Presentation.Round4Exact | ml_service/app/knn_model.py:56-60 | a value with at most four decimals is unchanged |
| Presentation.Round4UnitInterval | ml_service/app/knn_model.py:56-59 | a value in [0, 1] stays in [0, 1] |
| Presentation.RoundAll | ml_service/app/knn_model.py:60 | the rounded list has the same length, each entry within 0.00005 of the original |
| Presentation.RoundAllNonDecreasing | ml_service/app/knn_model.py:60 | rounding a non-decreasing distance list keeps it non-decreasing |
| KnnModel.EffectiveScale | ml_service/app/knn_model.py:28 | the divisor is never 0, and equals the scale whenever the scale is not 0 |
| KnnModel.Standardize | ml_service/app/knn_model.py:28 | one output per feature; output times its divisor gives back value minus mean; a zero-scale column is only centred |
| KnnModel.EffectiveK | ml_service/app/knn_model.py:32 | k = min(n_neighbors, n): 1 <= k <= n, k <= n_neighbors, and k is one of the two |
| KnnModel.AllDistances | ml_service/app/knn_model.py:30-31 | one non-negative distance per historical row, in row order |
| KnnModel.Assess | ml_service/app/knn_model.py:30-48 | k indices that list the nearest rows; the distances, ids and labels are index-aligned with them; distances are non-decreasing; vote and ratio lie in [0, 1] |
| KnnModel.Pick | ml_service/app/knn_model.py:35-37 | numpy indexing by a list of positions: one entry per position, entry j being the entry at position j |
| KnnModel.Respond | ml_service/app/knn_model.py:50-62 | band from the unrounded vote; score and ratio within 0.00005 of the vote and the ratio; neighbour ids passed through; each reported distance within 0.00005 of its neighbour's distance; rationale counts neighbours and fraud labels |
| KnnModel.Score | ml_service/app/knn_model.py:26-62 | fails exactly when the feature vector fails, with its error; otherwise the response satisfies `KnnModel.ReportsNearest` for the standardised feature vector: the ids of the k nearest rows, closest first; each reported distance within 0.00005 of that row's distance; the risk score is the weighted vote over those rows rounded to four decimals, and the band is that of the unrounded vote; the fraud ratio is their label mean rounded to four decimals; the rationale reports k neighbours and their number of fraud labels. Distances are non-decreasing and score and ratio lie in [0, 1] |
| KnnModel.ScoreQuery | ml_service/app/knn_model.py:30-62 | on a standardised query: `KnnModel.ReportsNearest` holds (ids, distances, rounded vote, band of the unrounded vote, rounded ratio and rationale of the k nearest rows), each id is a known row id, distances are non-decreasing, and score and ratio lie in [0, 1] |
| KnnModel.SingleNeighbourScore | ml_service/app/knn_model.py:32-41 | whenever k = min(n_neighbors, n) is 1, the single neighbour is the closest row, and score and ratio are its label |
| KnnModel.UniformHistoryScore | ml_service/app/knn_model.py:39-48 | when every historical label is l, score and ratio are l, and the band is high for l = 1 and low otherwise |
| KnnModel.LargeNeighbourCountTakesEveryRow | ml_service/app/knn_model.py:32-34 | a neighbour count of at least n is clamped to n and every row is selected |
| KnnModel.BandUsesUnroundedProbability | ml_service/app/knn_model.py:43-56 | a vote of 0.74996 has band medium but is reported as 0.75 |
| KnnModel.StoredRowIsAtDistanceZero | ml_service/app/knn_model.py:30-36 | a query equal to a stored row, under a distance that is zero from a point to itself, has its nearest selected neighbour at distance 0 |
| KnnModel.StoredRowScoresZeroDistance | ml_service/app/knn_model.py:26-60 | scoring a payload whose standardised features equal a stored row succeeds and reports 0 as the first distance |
| TriageService.Triage | ml_service/app/main.py:31-36 | auto_block iff risk >= high; manual_review iff low <= risk < high; auto_approve iff risk is below both thresholds |
| TriageService.DefaultThresholdExamples | ml_service/app/main.py:10-11 | with 0.35 and 0.75: 0.80 blocks, 0.50 and 0.35 go to review, 0.10 is approved, 0.75 blocks |
| TriageService.TriageMonotone | ml_service/app/main.py:31-36 | with low <= high, a higher risk never gets a milder decision |
| TriageService.InvertedThresholdsSkipReview | ml_service/app/main.py:31-36 | with low > high nothing goes to review: block at or above high, else approve |
| TriageService.Dump | ml_service/app/main.py:28 | the dumped payload holds the request fields plus a `transaction_id` entry (None when absent) |
| TriageService.ScoreTransaction | ml_service/app/main.py:26-46 | fails exactly when scoring fails; otherwise echoes the transaction id, passes the scored fields through unchanged, decides by the rule on the reported score, and reports the thresholds used |
| TriageService.DefaultDecisionAgreesWithBand | ml_service/app/main.py:29-36 | under the default thresholds a high band rounds to a blocked score, and an approved score has a low band |
| TriageService.ResponseDecisionAgreesWithBand | ml_service/app/main.py:28-46 | the same, stated on the triage response |
| ScoreController.DecisionFromRisk | api/src/controllers/scoreController.js:17-21 | auto_block iff risk >= high, otherwise manual_review iff risk >= low, otherwise auto_approve |
| ScoreController.GatewayAgreesWithService | api/src/controllers/scoreController.js:17-21 | the gateway's rule equals the scoring service's rule for every risk and every pair of thresholds |
| ScoreController.MissingFields | api/src/controllers/scoreController.js:25 | exactly the required fields absent from the body, in required-field order |
| ScoreController.NullIsNotMissing | api/src/controllers/scoreController.js:25 | a field present with null is not reported missing |
| ScoreController.Truthy | api/src/controllers/scoreController.js:36 | the falsy values are exactly null, false, 0 and the empty string |
| ScoreController.RequiredFieldsHaveNoComma | api/src/controllers/scoreController.js:3-12 | no required field name contains a comma |
| ScoreController.Join | api/src/controllers/scoreController.js:28 | `missing.join(', ')`: a single name is itself, and the joined string starts with the first name; `ScoreController.SplitJoin` recovers the names from it |
| ScoreController.SplitJoin | api/src/controllers/scoreController.js:28 | joining comma-free names with ", " and cutting at ", " gives the names back |
| ScoreController.MessageRoundTrip | api/src/controllers/scoreController.js:26-30 | the text after the message prefix decodes back to the listed field names |
| ScoreController.MissingMessage | api/src/controllers/scoreController.js:28 | the message starts with "Missing required fields: " |
| ScoreController.MissingMessageRoundTrip | api/src/controllers/scoreController.js:25-30 | the 400 message lists every missing field and no other, in order |
| ScoreController.EchoedTransactionId | api/src/controllers/scoreController.js:36 | the body's transaction id when it is truthy, null otherwise |
| ScoreController.ScoreTransaction | api/src/controllers/scoreController.js:23-52 | 400 with the missing-field message iff a required field is missing; the service's failure is passed on iff nothing is missing and scoring failed; otherwise the scored fields pass through with the rule's decision, the echoed id and the thresholds |
| ScoreController.RejectionIgnoresScoring | api/src/controllers/scoreController.js:26-32 | a rejected body's reply does not depend on what the scoring service would answer |
| TrainModel.FeatureColumns | scripts/train_model.py:38-42 | a column is a feature iff it is in the header and is neither the target nor a dropped column; header order is kept |
| TrainModel.LowerChar | scripts/train_model.py:45 | the result is never an upper-case ASCII letter; upper-case letters move to lower case, everything else is unchanged |
| TrainModel.Lower | scripts/train_model.py:45 | same length, each character lowered |
| TrainModel.LabelOf | scripts/train_model.py:45 | the label is 0 or 1, and 1 iff the value is a string that lower-cases to "yes" |
| TrainModel.LabelIgnoresCase | scripts/train_model.py:45 | label 1 iff the value is y, e, s in any mix of cases |
| TrainModel.Truncate | scripts/train_model.py:57 | the integer part toward zero |
| TrainModel.RowId | scripts/train_model.py:57 | an id exists iff the value converts to a number, and it is that number truncated toward zero |
| TrainModel.FeatureMatrix | scripts/train_model.py:44 | succeeds iff every row's features convert; one vector per row, each the row's feature vector |
| TrainModel.RowIds | scripts/train_model.py:57 | succeeds iff every row id converts; one id per row |
| TrainModel.Labels | scripts/train_model.py:45 | one 0/1 label per row, each the row's target value tested for "yes" ignoring case |
| TrainModel.Fit | scripts/train_model.py:47-48 | the bundle is valid, keeps the given columns, neighbour count, labels and ids, takes each column's mean and (zero-guarded) scale from the scaler's statistics of that column, and stores every row standardised with them |
| TrainModel.Train | scripts/train_model.py:33-84 | rejects a table without `CBK` with the missing-target error, and succeeds iff every check the script meets passes, including that the target column of a non-empty table holds a string; the bundle is valid (n rows in matrix, labels and ids; d-wide rows, mean and scale; 0/1 labels; no zero scale), records n_neighbors as given, takes mean and scale from the scaler's statistics of each feature column, and stores each row's standardised features, its label and its row id |
| TrainModel.TrainingRowHasZeroDistanceNeighbour | scripts/train_model.py:44-69 | scoring a training row against the bundle trained on it finds a neighbour at distance 0, whenever the distance is zero from a point to itself |
| TrainModel.DefaultNeighbourCount | scripts/train_model.py:22 | a bundle trained with the default records 15 neighbours, and scoring uses 15, or n when the table has fewer rows |
| TrainModel.NonStringTargetRejected | scripts/train_model.py:44-45 | once the features convert, a non-empty table whose target column holds no string fails with the non-string-target error instead of training on all-0 labels |

## Left out

- File and artifact I/O: reading the bundle and metadata, reading the CSV, writing npz, json and joblib files, and the script's prints. The bundle is the record `KnnModel.Bundle`.
- HTTP and routing: the FastAPI routes, the health endpoint, the Express app and router, and the `fetch` client. The gateway receives the scoring service's answer as a parameter, `MlOutcome`. A failed call is passed on with its details, not with the client's 502 message.
- Reading thresholds from the environment. Thresholds are parameters, and the defaults 0.35 and 0.75 are constants.
- Validation declared in `ml_service/app/schemas.py`, such as the requirement that `night_transaction` lies in [0, 1]. It happens in the web framework before the code in this model runs.
- sklearn fitting. `StandardScaler`'s statistics are an abstract per-column function, and a zero standard deviation becomes a scale of 1, as sklearn does. The fitted classifier and neighbour index are saved but never used by the scorer; only their `n_neighbors >= 1` check is modelled.
- Floating point. There are no float32 casts and no NaN or infinities, and the Euclidean norm and its square root are not modelled: `KnnModel.AllDistances` takes any non-negative distance.
- Python's `float()` string grammar. It is a parser parameter. Booleans convert to 1.0 and 0.0, and `None` is rejected.
- TrainModel.LabelOf: gives 0 for a value that is not a string, as pandas does for a non-string cell in a column that also holds strings. Which columns pandas stores with a string-compatible dtype is reduced to one rule, `TrainModel.TargetHasText`: a column with at least one string passes, any other raises.
- TrainModel.LowerChar: lower-cases the ASCII letters only. No other character lower-cases to y, e or s, so the "yes" test is decided exactly.
- TrainModel.Lower: `str.lower()` over ASCII letters only, as for `TrainModel.LowerChar`; the length is kept, which full Unicode lower-casing does not always do.
- TrainModel.RowId: reads ids through the same conversion as features, then truncates. numpy's own text-to-integer parsing is not modelled.
- TrainModel.Train: returns one error per failing check. The exact exception types and messages of pandas and sklearn are not modelled, except the missing-target message.
- Selection cost. The source uses introselect and then sorts k items. `Selection.SelectNearest` uses k linear passes, and only the result is claimed equal.

