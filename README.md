# toppred core in Dafny

toppred evaluates classifiers that output a ranked list of candidate labels
per sample. This project models its two core routines and proves their
properties.

- **`top_predictions`** (toppred/predictions.py). It takes a truth vector of
  N labels and an N x K matrix of ranked candidates. For each rank
  k = 0..K-1 it yields `(k, vector)`. In that vector, a sample counts as
  correctly predicted (it holds the true label) when the true label is among
  its first k+1 candidates; otherwise it holds its first candidate. The
  vector comes from a buffer that starts as column 0 and gets one masked
  update per rank. Shape errors are raised before anything is yielded.
- **`reports2string`** (toppred/utils.py). It takes one classification report
  per rank, and each report maps a row label to a dictionary of metrics.
  - For every report it builds the row labels and an insertion-ordered
    dictionary of columns keyed `("Top k+1", metric, "")`.
  - A blank row goes in just before "micro avg".
  - Raw support values go in one `("", "support", "")` column, and only for
    the last report.
  - The frames are then concatenated and rendered.

Modules:

- `Wrappers` (wrappers.dfy): `Option` and `Result`.
- `Predictions` (predictions.dfy): the inputs as `ArrayLike` values, the
  shape checks, the reference function `EffectivePred`, and the imperative
  rank loop with its buffer (an `array`).
- `PredictionScenarios` (predictions_tests.dfy): the cases of
  tests/test_predictions.py.
- `Utils` (utils.dfy): the frames as a datatype `Frame(labels, keys,
  columns)`, which is what `pd.DataFrame(metrics, index=labels)` receives.
  - Each of the source's loops is a method proved equal to a function:
    - `PadColumns` to the map comprehension `Pad`;
    - `AppendMetrics` to the fold `PutMetrics` over the row's items;
    - `ReportFrame` to the fold `BuildFrame` over the rows, whose step is `AddRow`;
    - `ReportsToFrames` to `BuildFrames` over the reports.
  - The properties are lemmas about those functions.
- `UtilsScenarios` (utils_tests.dfy): a worked two-rank example.

The model leaves two things as parameters:

- `fmt(value, digits)`: the f-string `f"{value:.{digits}f}"`. It stays
  uninterpreted, and every proved property holds for any formatter.
- `render(frames)`: pandas' `concat(..., axis=1)` followed by `str`.

The code yields the same numpy buffer at every rank, and that buffer is a
view of `y_pred[:, 0]`. The model records the buffer's contents at each
yield, which is what a consumer sees if it reads the vector before pulling
the next one (the repository's tests do this).

## Model

| member | source | states |
|---|---|---|
| Predictions.ArrayLike.Shape | toppred/predictions.py:30-45 | For a valid array, the shape has length 1 exactly for a vector and length 2 exactly for a matrix, so `ndim` tells the cases apart as the checks do |
| Predictions.CheckShapes | toppred/predictions.py:34-53 | The checks run in the source's order. `y_true.ndim != 1` fails with y_true's shape; then `y_pred.ndim != 2` fails with y_pred's shape; then different sample counts fail with both counts; then K = 0 fails (`y_pred[:, 0]` has no column); it succeeds exactly when none applies, and then returns the vector, the rows and K |
| Predictions.Column | toppred/predictions.py:53 | `y_pred[:, j]` has one entry per sample, and entry i is row i's j-th candidate |
| Predictions.MaskedUpdate | toppred/predictions.py:58-61 | One rank's masked update keeps the length; a sample whose rank-k candidate equals its truth now holds the truth, and every other sample keeps its previous entry |
| Predictions.HitWithin | toppred/predictions.py:56-61 | "Correct within k+1 candidates" holds exactly when the truth occurs in the first k+1 entries of the sample's row |
| Predictions.EffectivePred | toppred/predictions.py:52-64 | The vector yielded at rank k has one entry per sample |
| Predictions.EffectivePredAt | toppred/predictions.py:52-64 | Closed form of the rank-k vector: entry i is the truth when row i's truth is among its first k+1 candidates, otherwise row i's first candidate |
| Predictions.CorrectIffHitWithin | toppred/predictions.py:56-61 | Entry i equals the truth if and only if the truth is among the first k+1 candidates; on a miss it is the first candidate |
| Predictions.RankZeroIsFirstColumn | toppred/predictions.py:53-61 | The rank-0 vector is column 0 unchanged |
| Predictions.MonotoneCorrectness | toppred/predictions.py:56-61 | A sample correct at rank k1 is still correct, with the same label, at every rank k2 >= k1 |
| Predictions.MaskRank | toppred/predictions.py:58-61 | The buffer becomes the masked update of its old contents: entries whose rank-k candidate equals the truth take that candidate, and the others keep their old value |
| Predictions.RankScan | toppred/predictions.py:52-64 | Exactly K pairs, the k-th with rank k and the reference vector EffectivePred(k), from one buffer initialised with column 0 and updated in place |
| Predictions.TopPredictions | toppred/predictions.py:5-64 | The four errors come before any output, each under its own condition, and the call succeeds exactly when none of them applies; on success there are K pairs, ranks 0..K-1 in order, every vector has length N, and entry i of vector k is given by the hit-within-k+1 closed form |
| PredictionScenarios.TestCandidates | tests/test_predictions.py:12-22 | The nine rows [1, 2, 3] as a well-shaped 9 x 3 input |
| PredictionScenarios.ThreeRankScenario | tests/test_predictions.py:26-38 | For truth [1,2,3,4,5,4,3,2,1] and nine rows [1,2,3], the three vectors are [1,1,1,1,1,1,1,1,1], [1,2,1,1,1,1,1,2,1] and [1,2,3,1,1,1,3,2,1] |
| PredictionScenarios.TruthShapeScenarios | tests/test_predictions.py:61-86 | Swapped inputs, None, y_true equal to y_pred, and a 10 x 6 y_true all fail the first check with y_true's shape |
| PredictionScenarios.CandidateShapeScenarios | tests/test_predictions.py:117-135 | y_pred None, equal to y_true, or a vector of 10 all fail the second check with y_pred's shape |
| PredictionScenarios.SampleCountScenarios | tests/test_predictions.py:159-168 | Dropping one sample from either input fails the third check with the two counts |
| Utils.DecimalString | toppred/utils.py:49 | `str(top+1)` is a non-empty string of decimal digits |
| Utils.DecimalRoundTrip | toppred/utils.py:49 | Reading the decimal string back gives the number |
| Utils.MetricKey | toppred/utils.py:47-49 | A metric column name is never the support column name |
| Utils.MetricKeyInjective | toppred/utils.py:49 | `("Top {top+1}", metric, '')` names are equal if and only if rank and metric are equal |
| Utils.InMetricKeys | toppred/utils.py:49 | A key is a metric key of a rank exactly when it is that rank's key for its own metric level |
| Utils.TopHeader | toppred/utils.py:49 | `f"Top {top+1}"`, "Top " followed by `str(top+1)`; DecimalString, DecimalRoundTrip and MetricKeyInjective state its properties |
| Utils.Names | toppred/utils.py:34 | The report's keys in order |
| Utils.Lookup | toppred/utils.py:62 | `performance['support']` as an optional value: the value of the first item with that name. LookupAt and LookupAbsent state when it is present and what it returns |
| Utils.MetricSet | toppred/utils.py:44-47 | The names of a row's metrics that get columns; it never contains 'support', and MetricSetMembers characterises it exactly |
| Utils.Pad | toppred/utils.py:38-39 | Every existing column with one '' appended. PadColumns is proved equal to it, and OpenRowEffect gives its effect per column |
| Utils.Put | toppred/utils.py:55-57 | Create the column on first sight, appending its key to the key order, then append the cell. PutWellFormed keeps the frame well formed |
| Utils.PutMetrics | toppred/utils.py:44-57 | The fold of Put over a row's items other than 'support'. AppendMetrics is proved equal to it; PutMetricsKeys and PutMetricsEffect state its effect |
| Utils.OpenRow | toppred/utils.py:36-42 | The optional blank row (label and padding) followed by the row's label. OpenRowEffect states its effect |
| Utils.AddRow | toppred/utils.py:36-62 | One row: OpenRow, then PutMetrics, then in the last report the raw support or the KeyError. AddRowEffect, AddRowLabelsKeys and FrameOutcome state its effect |
| Utils.BuildFrame | toppred/utils.py:29-63 | The fold of AddRow over a report's rows, stopping at the first error. ReportFrame is proved equal to it; FrameOutcome, FrameLabels, FrameKeys and FrameTable state its properties |
| Utils.BuildFrames | toppred/utils.py:24-65 | The frames of the first `count` reports, the last report flagged, stopping at the first error. ReportsToFrames is proved equal to it; FramesShape, FramesOutcome and FramesColumns state its properties |
| Utils.LookupAt | toppred/utils.py:62 | In a dictionary, looking up the name of item i gives item i's value |
| Utils.LookupAbsent | toppred/utils.py:62 | Lookup of a name that no item carries is absent (the KeyError case) |
| Utils.MetricSetMembers | toppred/utils.py:44-47 | The metrics that get columns are exactly the names in the performance dictionary other than 'support' |
| Utils.PadColumns | toppred/utils.py:38-39 | Every existing column gets one '' cell, in key order, and no column is added |
| Utils.AppendMetrics | toppred/utils.py:44-57 | The metric loop equals the fold of `Put` over the row's items. Each non-support metric is formatted with `digits`; its column is created on first sight (appended to the key order) and then extended |
| Utils.ReportFrame | toppred/utils.py:29-63 | The row loop of one report equals BuildFrame: the blank row before "micro avg", the label, the metrics, and the raw support in the last report, or the KeyError of the first last-report row without 'support' |
| Utils.ReportsToFrames | toppred/utils.py:24-65 | One frame per report, in report order; frame k is BuildFrame of report k with the last-report flag set only for the final report |
| Utils.ReportsToString | toppred/utils.py:6-76 | No reports: the empty-concatenation error. Otherwise it succeeds exactly when every row of the last report has 'support', and a failure names a row of the last report; success returns "\n" + render(frames) + "\n" |
| Utils.PutWellFormed | toppred/utils.py:55-57 | Appending a cell keeps the column names distinct and in step with the columns, and keeps the labels |
| Utils.PutMetricsWellFormed | toppred/utils.py:44-57 | The metric loop keeps that invariant |
| Utils.BuildFrameWellFormed | toppred/utils.py:29-63 | Every frame built from a report keeps it |
| Utils.BuildFrameFailureSticks | toppred/utils.py:62 | Once a row raises, the report's outcome is that exception |
| Utils.BuildFramesFailureSticks | toppred/utils.py:28-65 | Once a report raises, the whole call's outcome is that exception |
| Utils.FrameOutcome | toppred/utils.py:59-62 | A report other than the last never fails; the last one fails exactly when some row lacks 'support', and then with the first such row's label |
| Utils.FramesShape | toppred/utils.py:28-65 | On success there are as many frames as reports processed, each the frame of its own report |
| Utils.FramesOutcome | toppred/utils.py:28-65 | All reports succeed exactly when the last report is fully supported; a failure carries a last-report row's label |
| Utils.FramesPrefixSucceed | toppred/utils.py:59 | Any run of reports that stops before the last one succeeds |
| Utils.MetricKeysUnion | toppred/utils.py:49 | Metric keys of a union of metric sets are the union of the keys |
| Utils.PutMetricsKeys | toppred/utils.py:44-57 | The metric loop keeps the labels and adds exactly the keys of the row's non-support metrics |
| Utils.PutMetricsEffect | toppred/utils.py:44-57 | Columns of other keys are unchanged, and each non-support metric's column is its old cells plus `fmt(value, digits)` |
| Utils.OpenRowEffect | toppred/utils.py:36-42 | Before the metrics, a row adds '' then its label for "micro avg" (just its label otherwise), keeps the column names, and pads each existing column with '' exactly for "micro avg" |
| Utils.AddRowEffect | toppred/utils.py:36-62 | One row's full effect: labels, new column names (support only in the last report), untouched columns padded, each metric column padded then given its formatted cell, the support column given the raw value |
| Utils.TableBase | toppred/utils.py:34-63 | A one-row report not named "micro avg" gives a one-row table |
| Utils.StepCells | toppred/utils.py:34-63 | A further row keeps the column set, lengthens labels and every column alike, keeps their earlier cells, puts '' in the blank row, and puts the row's cells last |
| Utils.StepColumns | toppred/utils.py:36-62 | Every column grows by the optional '' cell and one cell of the row |
| Utils.StepRows | toppred/utils.py:36-42 | Rows of the report land in the same table rows after one more row; the new row lands one further down when it, or an earlier row, is "micro avg" |
| Utils.TableStep | toppred/utils.py:34-63 | A further row with the same metric names keeps the table shape, the cell placement and the blank row |
| Utils.TableRowsStep | toppred/utils.py:42-62 | Earlier rows keep their cells, and the new row's label, formatted metrics and support sit at its table row |
| Utils.TableBlankStep | toppred/utils.py:36-39 | The blank row stays blank in the labels and in every column |
| Utils.FrameTable | toppred/utils.py:29-65 | Columns are aligned: every column has one cell per label, row e's label, formatted metrics and raw support sit at its table row, and the row before "micro avg" is '' in every column |
| Utils.AddRowLabelsKeys | toppred/utils.py:36-62 | One row adds its label (after '' for "micro avg") and exactly its metric keys, plus support in the last report |
| Utils.BlankStep | toppred/utils.py:36-42 | Adding a row keeps "labels are the keys with '' inserted before micro avg" |
| Utils.FrameLabels | toppred/utils.py:34-42 | The labels are the report's keys in order: unchanged without "micro avg", with one '' inserted right before it otherwise (no blank row without micro avg) |
| Utils.FrameLabelsBlank | toppred/utils.py:34-42 | The same, as one invariant of the frame built from any report |
| Utils.SupportNotAMetric | toppred/utils.py:47 | 'support' never becomes a per-rank metric column |
| Utils.FrameKeys | toppred/utils.py:44-62 | A frame's column names are `("Top k+1", m, '')` for the non-support metrics met in the report, plus `('', 'support', '')` exactly for a non-empty last report |
| Utils.FramesColumns | toppred/utils.py:24-68 | Over all frames, support appears only in the last one (when that report has rows), and no column name appears in two frames |
| UtilsScenarios.RowFacts | toppred/utils.py:44-62 | A row with precision and support has distinct names, finds both, and contributes only "precision" as a metric |
| UtilsScenarios.ExampleFrame | toppred/utils.py:29-63 | A report "one", "micro avg" gives labels ["one", "", "micro avg"] and the precision column, plus support in the last report |
| UtilsScenarios.ExampleCells | toppred/utils.py:36-62 | In that frame, precision is [fmt(a), '', fmt(b)] and support is [5, '', 5] |
| UtilsScenarios.HeaderKeys | toppred/utils.py:49 | Ranks 0 and 1 give the headers "Top 1" and "Top 2" |
| UtilsScenarios.TwoRankScenario | toppred/utils.py:24-65 | Two reports give two frames with the columns ("Top 1", "precision", ""), ("Top 2", "precision", "") and ("", "support", ""), with blank middle rows and the raw support only in the second frame |
| UtilsScenarios.MissingSupportScenario | toppred/utils.py:59-62 | A last report whose second row lacks 'support' fails with that row's label |

## Left out

- `np.asarray` (toppred/predictions.py:30-31) is not modelled. The inputs are
  already `ArrayLike` values with their shape. Ragged nested lists, which numpy
  turns into object arrays or rejects, are not represented; a `Tensor` keeps
  only its shape.
- The `array_like` union type (toppred/types.py) is not part of this model.
- Generator laziness is not modelled. The model computes all K pairs at once.
  With the source's generator, a consumer that stops early never sees the
  later ranks; the values it does see are the same.
- Predictions.TopPredictions: does not model that the source yields the same
  buffer object at every rank. A consumer that keeps the yielded arrays sees
  every one of them equal to the last vector. The model records each vector's
  contents at yield time.
- Predictions.TopPredictions: does not model that the buffer is a view of
  `y_pred[:, 0]`. The caller's array is overwritten with the final vector. The
  model gives the buffer its own storage. The yielded values are the same,
  because later ranks read only columns 1 and up.
- toppred/metrics.py (`top_classification_report`, which calls sklearn) and the
  example scripts are not part of this model. The reports are inputs.
- Float formatting `f"{value:.{digits}f}"` is the parameter `fmt`. Its
  ValueError for a negative `digits` and its rounding are not modelled.
- pandas (`DataFrame`, `concat(axis=1)`, `style.set_properties`, `str`) is the
  parameter `render`; the model stops at the frames it receives.
  - Utils.ReportsToString: it does not model pandas' ValueError when columns
    have different lengths. That happens when a metric first appears after the
    blank row, or when the rows of a report have different metric names.
  - The style call's result is discarded in the source, so it has no effect.
- Utils.ReportsToString: every row value is a metrics dictionary (`Report<V>`
  has no other kind of row). A report can also hold a scalar entry, such as the
  float under 'accuracy' that sklearn's dictionary report carries when
  "micro avg" is not shown (toppred/metrics.py:68-71, the default `labels=None`
  at toppred/metrics.py:11). On such a row the source raises an AttributeError
  at `performance.items()` (toppred/utils.py:44). That row, and that error, are
  not represented.
- Utils.FrameTable: states column alignment only for reports that meet two
  conditions: every row has the same metric names, and the first row is not
  "micro avg". Per-class rows and the average rows of a classification
  report all carry precision, recall, f1-score and support. For other
  inputs, the
  columns can have fewer cells than there are labels; FrameLabels, FrameKeys
  and AddRowEffect still describe exactly what the frame holds.
- Utils.FrameLabels: assumes the report's row labels are distinct, as with the
  source's dictionary keys. The model represents dictionaries as item lists,
  which could repeat a key.
- Integers are unbounded, and labels and values are of arbitrary type
  parameters. No overflow arises in the source either (Python ints).
