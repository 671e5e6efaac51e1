# Carbon-credit retirement dashboard: filter and pivot model

This project models the data pipeline of a Streamlit dashboard of carbon-credit retirement records (`app.py`). It covers:

- the year slider's bounds and the option lists of the three multiselects;
- the year-range filter and the three categorical filters (project type, methodology, country/area);
- the beneficiary-by-year pivot, with 0 in empty cells, year columns labelled `str(int(year))`, a Grand Total column, and rows sorted by that total;
- the three headline figures;
- the top-five trend series;
- the "no data" warning path.

A record is the `Records.Record` datatype. The year is `Option<int>`, and None stands for a date that `pd.to_datetime(..., errors='coerce')` could not parse. The quantity is `Option<int>`, and None stands for a value `pd.to_numeric` could not coerce. Every text column may be missing.

Modules, in pipeline order:

- `Records`: the record and its fields.
- `Filtering`: `Keep`, which is boolean indexing of a frame, and `Filter`, the four narrowings of lines 64-76. Each multiselect becomes `Unrestricted | RestrictedTo(set)` through `SelectionOf`, which models the `len(...) > 0` tests.
- `Sidebar`: slider bounds and option lists.
- `YearLabels`: `str(int(y))` and `int(s)` on column labels.
- `Pivot`:
  - `SumIn(rs, keys)` is the specification of every sum: the total quantity of the records whose (beneficiary, year) group lies in `keys`.
  - `AccumulateCells` is the group-sum loop. It is proved equal to the sparse table `CellTable`.
  - `Cell` is the `fill_value=0` read of that table.
  - `MakeRow` adds the Grand Total.
- `Ranking`: sorting by Grand Total, then `head(5)`.
- `Dashboard`:
  - `Narrow` performs the step-by-step reassignments of lines 64-76.
  - `BuildPivot` builds the pivot (lines 80-91).
  - `Present` computes the three figures.
  - `TopTrends` computes the chart series.
  - `Render` is one pass of the script, ending in either `NoData` (the warning) or `Report`.
- `Scenarios`: a three-record worked example.

Behaviour of the code that a reader of the dashboard might expect to be otherwise, and that the model follows:

- **Picking every option is not picking none.** `isin` never matches a missing value, so a non-empty selection drops the records whose field is missing, even when it lists every option. `Sidebar.PickingAllOptionsDropsMissing` states this.
- **Records with a missing beneficiary never reach the pivot.** The pivot's grouping drops rows whose index key is missing. Such records still count towards the `len(filtered_df) > 0` test, so the report may show a table with no rows. The sum of the Grand Totals is the quantity of the filtered records that have a beneficiary (`GroupedQuantity`), not of all filtered records.
- **No order among equal Grand Totals.** One might expect rows with equal totals to keep their earlier order. `sort_values` is not a stable sort by default, so the code does not guarantee that, and the model promises nothing about the order of rows with equal totals.

## Model

| member | source | states |
|---|---|---|
| `Filtering.SelectionOf` | app.py:69-76 | An empty multiselect list means no restriction. A non-empty one restricts to exactly the picked values. |
| `Filtering.Keep` | app.py:64-67 | Boolean indexing keeps, in their original order, exactly the records satisfying the condition, each as often as it occurs. |
| `Filtering.KeepAll` | app.py:69-76 | A condition that holds of every record leaves the frame unchanged. This is why skipping an empty selection is the same as applying it. |
| `Filtering.KeepTwice` | app.py:64-76 | Narrowing twice is narrowing once by the conjunction. |
| `Filtering.KeepCommutes` | app.py:69-76 | Two successive narrowings can be applied in either order. |
| `Filtering.Filter` | app.py:64-76 | The filtered frame is an order-preserving subsequence of the input. A record is kept iff its year is known and lies in [lo, hi] and each selection admits its field. A record with an unparsed date is never kept. |
| `Filtering.FilterIsOneKeep` | app.py:64-76 | The four successive narrowings equal one pass with the conjunction of the four conditions. |
| `Filtering.SelectionOfEffect` | app.py:69-76 | With an empty list a categorical filter returns the records unchanged. With a non-empty list it keeps exactly the records whose field is present and among the picked values. |
| `Filtering.CategoricalFiltersCommute` | app.py:69-76 | Applying the country, methodology and project-type filters in reverse order gives the same records. |
| `Filtering.FilterEmptyIff` | app.py:79 | The filtered frame is empty exactly when no record passes all four filters. |
| `Sidebar.EarliestYear` | app.py:25 | The minimum year is None iff every year is missing. Otherwise it is a year of some record and no known year is smaller. |
| `Sidebar.LatestYear` | app.py:26 | The maximum year is None iff every year is missing. Otherwise it is a year of some record and no known year is larger. |
| `Sidebar.SliderBounds` | app.py:25-26 | The slider's bounds are (2020, 2024) when no year is known. Otherwise they are the earliest and the latest known year: both are years of some record, and they enclose every known year. |
| `Sidebar.FullSpanKeepsDatedRecords` | app.py:25-26 | Filtering on the slider's full span drops exactly the records whose date did not parse. |
| `Sidebar.OptionList` | app.py:37 | The option list is strictly ascending in Python's string order. It holds exactly the non-missing values of the column. The same function serves lines 46 and 55. |
| `Sidebar.OptionListUnique` | app.py:37 | `unique()`: no value appears twice in an option list. |
| `Sidebar.PickingAllOptionsDropsMissing` | app.py:69-70 | When some record has a value, selecting every option keeps exactly the records whose field is present. |
| `YearLabels.ShowYear` | app.py:89 | A year label is Python's `str` of the year: a minus sign exactly when the year is negative, then decimal digits with no leading zero (except for the year 0 itself). |
| `YearLabels.ParseShowYear` | app.py:116 | `int(str(y)) == y` for every integer year. |
| `YearLabels.ShowYearInjective` | app.py:89 | Distinct years get distinct column labels. |
| `YearLabels.Labels` | app.py:89 | Relabelling keeps the number and the order of the year columns. |
| `YearLabels.Relabel` | app.py:116 | `[str(int(c)) for c in …]` on the string labels of line 116 (line 89 relabels numeric years, which is `Labels`) fails exactly when some label does not parse as an integer. Otherwise it keeps the number of columns, and column j becomes the label of the year that column j parses to. |
| `YearLabels.RelabelLabels` | app.py:116 | Relabelling the already-relabelled year columns with `str(int(c))` succeeds and changes nothing. |
| `Pivot.PairKeys` | app.py:80-86 | A (beneficiary, year) group exists iff some record has that beneficiary and that year. |
| `Pivot.Cell` | app.py:85 | `fill_value=0`: a cell reads its group's entry when the group occurs, and a non-zero cell implies that the group occurs. With `CellTable` each cell is its group's sum (`Pivot.CellIsGroupSum`). |
| `Pivot.SumInAbsentKeys` | app.py:85 | Groups that no record falls in sum to 0. |
| `Pivot.CellIsGroupSum` | app.py:80-86 | Every dense cell equals the sum of quantities of its (beneficiary, year) group. Missing quantities add 0, and a pair with no record reads 0. |
| `Pivot.AddToGroup` | app.py:84 | Adding one record's quantity to its group's running sum keeps every running group sum right. |
| `Pivot.AccumulateCells` | app.py:80-86 | The one-pass accumulation yields exactly the groups that occur, each holding its group sum. The result equals `CellTable`. |
| `Pivot.ColumnYears` | app.py:82 | The year columns are strictly ascending. They are exactly the years of the grouped records, with no extra years. |
| `Pivot.RowNames` | app.py:81 | The row labels are the grouped records' beneficiaries, each exactly once. |
| `Pivot.MakeRow` | app.py:90 | A row's Grand Total is the sum of its year cells, and cell j is the beneficiary's filled cell for year j. With `CellTable` that total is the beneficiary's quantity (`Pivot.GrandTotalIsBeneficiaryQuantity`). |
| `Pivot.RowCellsSum` | app.py:90 | The sum across a row's year cells is the sum over that row's groups. |
| `Pivot.GrandTotalIsBeneficiaryQuantity` | app.py:90 | A row's Grand Total is the total quantity of that beneficiary's dated records. |
| `Pivot.RowsSum` | app.py:90 | The Grand Totals of rows for distinct beneficiaries add up to the sum over all their (beneficiary, year) pairs. |
| `Pivot.PivotConservesQuantity` | app.py:90 | The Grand Totals add up to the quantity of every record that has a beneficiary and a year. Nothing is lost or counted twice. |
| `Pivot.UnsortedRowsShape` | app.py:80-90 | There is one row per beneficiary present. Each row's cells are its group sums and its Grand Total is its total quantity. |
| `Ranking.InsertByTotal` | app.py:91 | Inserting a row into a list ordered by descending Grand Total keeps it ordered. The result holds the old rows plus the new one. |
| `Ranking.SortByTotal` | app.py:91 | The sorted rows are non-increasing by Grand Total and are a permutation of the input rows. The order among equal totals is not specified. |
| `Ranking.TopRows` | app.py:109 | `head(5)` is the first min(5, n) rows. Of sorted rows, no row left out has a larger total than a row taken. |
| `Dashboard.YearColumns` | app.py:110 | The list comprehension keeps the columns other than "Grand Total", in their order and with their repeats: the result is a subsequence of the columns, each non-total label as often as in the input. With no "Grand Total" column the columns are unchanged. |
| `Dashboard.YearColumnsDropsTotal` | app.py:100 | The Grand Total column appended last does not change the year columns. |
| `Dashboard.YearColumnsOfTable` | app.py:110 | Dropping "Grand Total" from the relabelled pivot's columns gives exactly the year labels, in order. |
| `Dashboard.TrendSeries` | app.py:118-126 | There is one series per top row, in row order. Each is named by the beneficiary and pairs every year label with that row's cell. |
| `Dashboard.BuildPivot` | app.py:80-91 | The relabelled year columns are those of `ColumnYears`, and there is one row per beneficiary present. Every row's cells are group sums and its Grand Total is its beneficiary's quantity. Rows are ordered by descending Grand Total, and they are a permutation of the unsorted pivot. The totals add up to the grouped quantity, and every row's Grand Total is the sum of its year cells. |
| `Dashboard.Summarize` | app.py:96-100 | The figures are the number of rows, the sum of the Grand Total column, and, when no year label reads "Grand Total", the number of year columns. |
| `Dashboard.Narrow` | app.py:64-76 | The step-by-step reassignments of the filtered frame give exactly `Filter` with the three multiselect lists. |
| `Dashboard.Present` | app.py:94-100 | The table is the pivot of the filtered records: one row per beneficiary present, a permutation of the unsorted pivot, ordered by descending total. "Total Beneficiaries" is the number of distinct beneficiaries. "Total Credits Issued" is the grouped quantity. "Years Covered" is the number of distinct years. |
| `Dashboard.TopTrends` | app.py:109-126 | The chart has min(5, n) series. Series i belongs to row i, and its points are (label of year j, group sum of that beneficiary in year j). |
| `Dashboard.Render` | app.py:64-146 | The warning is shown iff no record passes the filters. Otherwise the report's table is the pivot of the filtered records (`PivotOf`): year labels, one row per beneficiary present, group-sum cells, beneficiary totals, descending order, a permutation of the unsorted pivot. Its figures are as in `Present`. Its series (`TrendsOf`) are min(5, n) in number, series i belongs to row i, and its points are (label of year j, group sum of that beneficiary in year j). |
| `Scenarios.ExamplePivot` | app.py:80-91 | For A: 2021→10, 2022→5, and B: 2021→20, the sorted pivot is [B (20, 0; 20), A (10, 5; 15)]. |
| `Scenarios.ExampleForestryFilter` | app.py:69-70 | Restricting project types to Forestry keeps only A's two records. |
| `Scenarios.ExampleForestryRows` | app.py:80-86 | With only A's records, the only beneficiary is A, and the unsorted pivot has exactly one row, A's: B gets no row at all rather than a row of zeros. |
| `Scenarios.ExampleNoData` | app.py:79 | A year range that holds no record leaves an empty frame, so no pivot is built. |

## Left out

- Streamlit widgets and display (page setup, title, sidebar, metric tiles, dataframe, warning text; app.py:6-9, 22-61, 94-104, 146): presentation only. The model takes the widgets' values as inputs (`yearRange`, the three picked lists) and returns what they would display (`View`).
- The slider's initial value `(2020, max_year)` (app.py:32) and how Streamlit clamps or rejects it: widget behaviour. `Render` takes whatever range the slider returns.
- Plotly figure construction and layout (app.py:113-143): the model stops at the series values handed to `add_trace`.
- Reading `vcus.csv` (app.py:12), and the failure when a column is missing: file I/O. The input is a sequence of records.
- `pd.to_datetime` and `pd.to_numeric` parsing (app.py:15-19): library behaviour. Their outcomes are the `Option` fields of a record, and the year is taken to be an integer.
- Floating-point quantities and the `,.0f` formatting of "Total Credits Issued" (app.py:98): quantities are integers, so every sum is exact.
- The pivot's row order before sorting: pandas lists beneficiaries in ascending order, while `RowNames` lists them in first-appearance order. After `SortByTotal` the model promises nothing about equal totals, so no stated property depends on this order.
- Ranking.SortByTotal: insertion sort is one stable choice. The contract promises only the order by total and the permutation, as `sort_values` does.
- YearLabels.ParseYear: accepts only an optional minus sign followed by digits. Python's `int` also accepts surrounding whitespace, a plus sign and underscores, none of which can occur in a label built by `str`.
- The in-place updates of `pivot_table` (column relabelling, the added Grand Total column, reassignment to the sorted frame; app.py:89-91) are modelled as building a new `Table` value.
- Dashboard.TrendSeries: requires every row to have one cell per year label. That is the shape every pivot row has (`IsPivotRow`), not a condition the script checks.
- Period granularities other than the year (quarter, month) do not exist in this script and are not modelled.
