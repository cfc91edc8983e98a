# Home healthcare quality: a Dafny model of the script's table logic

The script `home_healthcare_quality.py` loads a table of state-level home
healthcare indicators and fits a random-forest regressor that predicts the
"Quality of Patient Care Star Rating". It ranks the indicators by importance
and runs a what-if scenario: flu-shot compliance is raised by 10 points,
capped at 100, and the states are ranked by how much their predicted rating
changes. This project models the list and table logic around the library
calls and proves what that logic guarantees:

- **Column selection** (`column_selection.dfy`, module `ColumnSelection`).
  The float-typed columns are selected. The leakage columns are those whose
  name starts with `"Star Rating"` and contains `"Percentage"`. The feature
  columns are the float columns without the target and without the leakage
  columns. pandas' `drop` refuses labels the frame lacks, and the model keeps
  that error path.
- **String tests** (`strings.dfy`, module `Strings`): `str.startswith`, stated
  character by character, and the substring test `in`, stated as "some window
  of the string equals the substring".
- **What-if step** (`what_if.dfy`, module `WhatIf`). A `Frame` class stands for
  a pandas frame of numeric columns. `Frame.Copy` is `X.copy()`, and
  `Frame.SetColumn` is the in-place assignment that overwrites the flu-shot
  column of the copy. `RunWhatIf` follows lines 115-131: the guard, both
  predictions, the per-row delta and its mean. The fitted scaler and model are
  one opaque parameter `predict: Table -> seq<real>`. Using one fixed function
  for both calls is how the model states that the scaler and the model are
  never refitted. `RunWhatIf` and `MakeWhatIf` have no `modifies` clause, so
  Dafny proves that `X` itself is never changed.
- **Ranking** (`ranking.dfy`, module `Ranking`): a descending sort and
  `head(k)`, generic over the row type and its score. The sort is specified
  only as "sorted by descending score, and a permutation", because pandas'
  default sort is not stable. `SortedScoresUnique` proves that every allowed
  order of tied rows gives the same score column.
- **Importances** (`importances.dfy`, module `Importances`): the
  (feature, importance) table, ranked, and its top 10 rows.
- **State report** (`state_ranking.dfy`, module `StateRanking`): the
  (state, baseline, what-if, change) table, ranked by change, and its top 5.
- `outcome.dfy` (module `Outcome`) holds the `Option`, `Result` and `Error`
  types for the error paths.

Percentages and predictions are exact `real` numbers, not float64 values
(see "Left out").

Two points about the code itself:
- pandas' default `sort_values` (quicksort) is not stable. So the model
  claims no order among rows with equal scores.
- When the flu-shot column is absent, the guard at line 115 skips lines
  118-134, and nothing is skipped after them. The script then first fails at
  line 141, where the histogram reads `delta`, which was never assigned
  (a NameError). The state report at lines 154-162 would fail in the same
  way, on `baseline_pred`. `StateReport` models lines 154-162 on their own and
  gives that failure as `Failure(Undefined("baseline_pred"))`.

## Model

| member | source | states |
|---|---|---|
| `Strings.StartsWith` | home_healthcare_quality.py:48 | `s.startswith(prefix)` holds exactly when the prefix is no longer than `s` and matches it character by character |
| `Strings.Contains` | home_healthcare_quality.py:48 | `sub in s` holds exactly when some window of `s` equals `sub` |
| `ColumnSelection.NumericColumns` | home_healthcare_quality.py:32 | a name is selected exactly when the table has a float64 column of that name; the selection keeps the table's column order |
| `ColumnSelection.LeakColumns` | home_healthcare_quality.py:48 | a column is a leakage column exactly when it is a column of the table, its name starts with "Star Rating" and "Percentage" occurs in it; the table's order is kept |
| `ColumnSelection.Drop` | home_healthcare_quality.py:53 | `drop` fails, naming exactly the missing labels, when some label is not a column; otherwise the result is exactly the columns not listed, in their original order |
| `ColumnSelection.FeatureColumns` | home_healthcare_quality.py:47-54 | a successful selection never contains the target, and every feature column is a float column that is not a leakage column |
| `ColumnSelection.FeatureColumnsPartition` | home_healthcare_quality.py:47-54 | the feature columns are exactly the float columns that are neither the target nor a leakage column, in their original order; the selection fails exactly when the target or some leakage column is not a float column |
| `ColumnSelection.NumericNamesListed` | home_healthcare_quality.py:32 | every selected float column is a column of the table |
| `WhatIf.Table.With` | home_healthcare_quality.py:123 | assigning a column overwrites it in place, or appends it if it is new; the row count and every other column are unchanged |
| `WhatIf.Frame.Copy` | home_healthcare_quality.py:122 | the copy is a new frame with the same contents |
| `WhatIf.Frame.SetColumn` | home_healthcare_quality.py:123 | the frame's new contents are its old contents with that one column assigned |
| `WhatIf.Bump` | home_healthcare_quality.py:123 | the adjusted value is never above 100; it is x + 10 when x <= 90 and 100 when x >= 90; it is at least x whenever x <= 100 |
| `WhatIf.BumpAll` | home_healthcare_quality.py:123 | the adjusted column has the same length, and each entry is the clipped value of the entry at the same row |
| `WhatIf.WhatIfTable` | home_healthcare_quality.py:122-123 | the what-if table has the same columns in the same order and the same row count; only the flu-shot column differs, and it holds each row's clipped value |
| `WhatIf.MakeWhatIf` | home_healthcare_quality.py:122-123 | the adjustment is made on a fresh copy, which holds the what-if table; the original frame is not in the method's frame, so it cannot change |
| `WhatIf.Subtract` | home_healthcare_quality.py:130 | `delta` has the common length of both vectors, and delta[i] = whatif[i] - baseline[i] |
| `WhatIf.Mean` | home_healthcare_quality.py:131 | the mean exists exactly when the vector is non-empty |
| `WhatIf.SumSubtract` | home_healthcare_quality.py:130-131 | the sum of the per-row deltas is the what-if sum minus the baseline sum |
| `WhatIf.MeanOfDifference` | home_healthcare_quality.py:130-131 | the average change is the mean what-if prediction minus the mean baseline prediction |
| `WhatIf.SumBounds` | home_healthcare_quality.py:131 | a sum of n values in [lo, hi] lies in [n * lo, n * hi] |
| `WhatIf.MeanBounds` | home_healthcare_quality.py:131 | if every delta lies in [lo, hi], so does the average change |
| `WhatIf.RunWhatIf` | home_healthcare_quality.py:115-131 | a scenario is produced exactly when the flu-shot column is a feature column; the baseline and what-if predictions come from the same predictor on `X` and on the what-if table; the delta has one entry per row, equal to what-if minus baseline; the average change is its mean; so the scenario's three vectors have one entry per row and its delta is what-if minus baseline |
| `WhatIf.FluShotColumnIsFeature` | home_healthcare_quality.py:112-115 | after a successful selection, the guard passes exactly when the flu-shot indicator is a float column, since it is neither the target nor a leakage column |
| `Ranking.Insert` | home_healthcare_quality.py:96 | inserting adds exactly that row to the multiset of rows |
| `Ranking.InsertSorted` | home_healthcare_quality.py:96 | inserting into a list sorted by descending score keeps it sorted |
| `Ranking.SortDesc` | home_healthcare_quality.py:96 | the sorted rows are a permutation of the input, in non-increasing order of score |
| `Ranking.Head` | home_healthcare_quality.py:99 | `head(k)` returns the first min(k, n) rows, unchanged |
| `Ranking.TopKShape` | home_healthcare_quality.py:96-99 | the top k are min(k, n) rows in non-increasing order of score |
| `Ranking.TopKSelectsLargest` | home_healthcare_quality.py:96-99 | the top k are a sub-multiset of the rows, and every row left out scores no higher than every row taken |
| `Ranking.TopKMembers` | home_healthcare_quality.py:96-99 | every top row is an input row, and no input row outside the top scores above a top row |
| `Ranking.SortedScoresUnique` | home_healthcare_quality.py:96 | any two descending orders of the same rows have the same score in every position, whatever order the tied rows take |
| `Importances.ImportanceTable` | home_healthcare_quality.py:93-95 | building the table fails exactly when the name and score columns differ in length; otherwise row i pairs the i-th feature with the i-th importance |
| `Importances.RankImportances` | home_healthcare_quality.py:93-96 | `fi_df` is a permutation of the (feature, importance) rows, sorted by non-increasing importance |
| `Importances.Top10` | home_healthcare_quality.py:99 | `top10` fails exactly when the table cannot be built |
| `Importances.Top10Ranked` | home_healthcare_quality.py:99 | `top10` holds min(10, n) rows in non-increasing order of importance |
| `Importances.Top10Selects` | home_healthcare_quality.py:93-99 | `top10` is a sub-multiset of the table, so each row is kept at most as often as it occurs; each row pairs a feature with its own importance; no feature left out has a higher importance than one kept |
| `StateRanking.StateTable` | home_healthcare_quality.py:155-160 | building the table fails exactly when its four columns differ in length; otherwise row i gathers the i-th state, baseline, what-if and change |
| `StateRanking.StateReport` | home_healthcare_quality.py:154-162 | lines 154-162 on their own: there is no report without a "State" column; with one, the report fails when the what-if step never ran or the columns differ in length |
| `StateRanking.StateReportRanked` | home_healthcare_quality.py:155-162 | the report holds min(5, n) rows in non-increasing order of change |
| `StateRanking.StateReportSelects` | home_healthcare_quality.py:155-162 | the report is a sub-multiset of the table, so each state's row is shown at most as often as it occurs; each reported row is one state's row; no state left out has a larger change than a state shown |
| `StateRanking.ReportedChangesAreDifferences` | home_healthcare_quality.py:155-162 | when the scenario's delta is its what-if minus its baseline predictions, every reported change is the what-if minus the baseline of that row |

## Left out

- Loading the CSV file and the shape, column, dtype, missing-value and summary printouts (lines 10-25): these are file I/O and pandas internals.
- The histograms, the bar chart, the what-if histogram and the `textwrap` title wrapping (lines 27-42, 104-107, 140-148): these are plotting only. The plot at lines 140-148 reads `delta` outside the guard; it is not modelled.
- `train_test_split`, `StandardScaler`, `RandomForestRegressor.fit`/`predict` and `feature_importances_` (lines 57-71, 89): these are library calls with fixed seeds. Scaling and prediction appear only as the opaque `predict` parameter. Importances appear only as a given sequence, so the model does not claim that they are non-negative or sum to 1.
- The mean squared error and R² (lines 76-82): these are floating-point metrics from the library.
- Selecting the target vector (line 54): it needs the target column, and `FeatureColumns` already fails when the target is missing.
- Missing values: NaN cells and pandas' handling of them in `clip` and `mean` are not modelled. Every cell is a real number.
- WhatIf.MeanOfDifference: float64 cells, predictions and means are modelled as exact reals. So `WhatIf.SumSubtract` and `WhatIf.MeanOfDifference` hold exactly in the model, while in the program they hold only up to rounding.
- StateRanking.StateReport: it models lines 154-162 on their own. When the flu-shot column is absent, the whole script already stops at line 141, because the plot reads the unassigned `delta`. The model does not capture that earlier failure.
- WhatIf.Mean: numpy returns NaN for an empty vector; here that is `None`. The library refuses to predict on an empty table before this point.
- WhatIf.Subtract: numpy broadcasting of unequal shapes is not modelled. The two predictions always have one entry per row, so the model requires equal lengths.
- Ranking.SortDesc: the rows are sorted by insertion. Only sortedness and permutation are claimed. Which of several tied rows pandas shows first is not modelled.
- WhatIf.Frame: the frame keeps only numeric columns by name. The row index and index alignment on assignment are not modelled, because the copy shares the original's index.
