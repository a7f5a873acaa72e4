# Nigerian road traffic crash dashboard: filter and aggregate model

This project models the data pipeline behind a Streamlit dashboard of Nigerian
road traffic crashes for 2020–2024. The dashboard loads one crash table. Each
row holds a state, a quarter, casualty and vehicle counts, and per-cause crash
counts. From that table it computes:

- a **filtered view**: rows matching the sidebar's state, quarter, four
  inclusive count ranges and, when any cause is picked, at least one picked
  cause indicator;
- six **KPIs**: total crashes, injury rate, fatality rate, speed-violation
  and under-influence percentages, and total deaths;
- five **aggregate tables**:
  - top 10 (state, quarter) pairs by deaths;
  - top 10 states by deaths;
  - top 15 states by crashes;
  - the five crash causes ranked, with the main reason;
  - crashes per quarter;
- the **faulty-vehicle share**: counts and percentages.

As in `app.py`, the KPIs and aggregate tables are computed from the whole
table, not from the filtered view. Each of them is a function of a
`seq<Record>`. Callers pass the loaded table.

Layout (one module per file):

- `sequences.dfy` (`Sequences`): the boolean-mask selection `Where` and
  subsequences.
- `records.dfy` (`Records`): the row, its summed columns, and column sums.
- `filtering.dfy` (`Filtering`): the sidebar criteria and the filter.
- `kpis.dfy` (`Kpis`): exact rates and the KPI set.
- `grouping.dfy` (`Grouping`): `groupby(key)[col].sum()`.
- `ranking.dfy` (`Ranking`): descending sort, `head(n)` and `nlargest(n)`.
- `aggregates.dfy` (`Aggregates`): the four group-by queries.
- `causes.dfy` (`Causes`): the cause ranking and the faulty-vehicle share.
- `scenarios.dfy` (`Scenarios`): a worked three-state ranking.

How the model represents the source:

- Rates are exact rationals (`real`). A zero total-crash count gives
  `Undefined`, where the source gets a NaN or infinity.
- A group-by result is a list of (key, total) groups with distinct keys. It is
  specified against a reference sum per key (`Grouping.SumForKey`).
- A top-n result is specified against the group-by: its size, its order,
  exact sums, and that no left-out key beats a kept one.

## Model

| member | source | states |
|---|---|---|
| Records.ColumnSum | app.py:66-70 | `df[col].sum()`: no row's value exceeds the column sum, and an empty table sums to zero |
| Records.ColumnSumAppend | app.py:66-70 | The column sum over two tables laid end to end is the sum of their column sums |
| Records.ColumnSumPermutation | app.py:66-70 | Tables with the same rows in any order have the same column sum |
| Filtering.BaseFilter | app.py:48-57 | The state/quarter/range mask keeps rows in table order, and keeps exactly the rows that match state and quarter and lie in all four inclusive ranges. Each matching row appears as often as in the table |
| Filtering.Filter | app.py:48-62 | The filtered view is a subsequence of the table. A row is in it iff it passes the base mask and either no cause is picked or some picked cause indicator is non-zero. Each matching row appears as often as in the table; other rows do not appear |
| Filtering.FilterLength | app.py:48-62 | The filtered view is never longer than the table |
| Filtering.FilterIsSingleMask | app.py:59-62 | Applying the cause mask after the base mask equals one mask with the whole predicate |
| Filtering.NoCauseIsBaseFilter | app.py:60-62 | With no cause picked, the filtered view is the base mask's result |
| Filtering.FilterIdempotent | app.py:48-62 | Filtering the filtered view again with the same criteria returns the same rows |
| Filtering.EmptyWhenRangeCrossed | app.py:50-57 | When any slider minimum exceeds its maximum, the filtered view is empty |
| Kpis.Ratio | app.py:66-67 | The result times the denominator gives back the numerator. It is undefined exactly when the denominator is zero, and never negative |
| Kpis.Percentage | app.py:68-69 | The result times the denominator gives back 100 times the numerator. It is undefined exactly when the denominator is zero. It lies in 0..100 when numerator ≤ denominator |
| Kpis.ComputeKpis | app.py:66-70 | Total crashes and total deaths are the column sums. The injury and fatality rates are the injured and killed sums over the crash sum. The speed and influence rates are 100 times the SPV and DAD sums over the crash sum. All four rates are undefined when the crash sum is zero |
| Kpis.KpisIgnoreRowOrder | app.py:66-70 | Two tables with the same rows in any order have the same KPIs |
| Kpis.NoCrashesNoRates | app.py:66-69 | A table with no crashes has all four rates undefined |
| Grouping.Accumulate | app.py:109 | Adding a value to a key changes only that key's group, or appends the key once. Keys stay distinct, and the grand total grows by the value |
| Grouping.GroupSum | app.py:109 | The group-by result has one group per distinct key of the table and no key twice. Each group holds the sum of the column over that key's rows. The groups add up to the column total |
| Grouping.GroupCount | app.py:109 | The number of groups equals the number of distinct keys in the table |
| Ranking.Insert | app.py:134 | Inserting into a non-increasing list keeps it non-increasing and adds exactly that group |
| Ranking.SortDescending | app.py:134 | The descending sort is non-increasing and a permutation of its input |
| Ranking.Largest | app.py:89 | nlargest(n) and head(n) of a descending sort return min(n, number of groups) groups, largest first. All are drawn from the input, with keys still distinct. No group left out is larger than any group kept |
| Ranking.LeftOutIsSmaller | app.py:89 | A group that the top-n leaves out is worth at most each kept group |
| Ranking.KeptIsInput | app.py:89 | Every group the top-n keeps is an input group |
| Aggregates.TopOfGroupSum | app.py:88-89 | The top-n of a group-by-sum has min(n, distinct keys) entries, largest first. Each entry is a distinct key of the table with its exact sum. No key left out has a larger sum than a kept key |
| Aggregates.TopFatalStateQuarters | app.py:88-89 | The ten (state, quarter) pairs with the most deaths, with the top-n properties above |
| Aggregates.TopDeathStates | app.py:109-111 | The ten states with the most deaths, with the top-n properties above |
| Aggregates.TopCrashStates | app.py:131-134 | The fifteen states with the most crashes, with the top-n properties above |
| Aggregates.CrashesByQuarter | app.py:181 | Crashes per quarter: one entry per quarter of the table, each with its crash sum. The entries add up to the table's crash total |
| Causes.CauseTotals | app.py:151-155 | The (Reason, Count) table has five rows with no cause column twice. Its reasons are exactly the five cause columns, and each count is that column's sum |
| Causes.TopReasons | app.py:151-162 | The reason table ranked and cut at 5 keeps all five cause columns, largest first. Each is a cause column with its own total, and together they are exactly the five (reason, count) pairs |
| Causes.MainReason | app.py:151-156 | The main reason is a cause column with its total, and no cause column has a larger total |
| Causes.MainReasonHeadsTopReasons | app.py:156-162 | The main reason is the first row of the top-reasons table |
| Causes.Complement | app.py:206 | `100 - p`: defined exactly when p is, and the two add up to 100 |
| Causes.VehicleSafety | app.py:194-207 | The faulty count is the FTQ sum, and the two counts add up to the crash total. Each percentage times the crash total is 100 times its count. Both are undefined when the total is zero, and otherwise they add up to 100 |
| Causes.VehicleSafetyExample | app.py:194-207 | 10 faulty-vehicle crashes out of 100 give counts 10 and 90 and percentages 10 and 90 |
| Scenarios.ExampleGroups | app.py:109 | States A, B, C with 5, 12, 3 deaths group to A:5, B:12, C:3 |
| Scenarios.ExampleRanking | app.py:111 | Those groups sort descending as B:12, A:5, C:3 |
| Scenarios.TopDeathStatesExample | app.py:109-111 | Top ten death states of that table: B:12, A:5, C:3 |

## Left out

- The Streamlit widgets, titles, tables and Altair charts are left out. So are the CSV load and its cache, and the exception handlers with their error messages (app.py:5-14, 22-45, 73, 75-81, 91-106, 114-128, 136-147, 159, 165-176, 182-192, 200, 210-221, 246-251). The metrics displayed at app.py:74-81 are the fields of `Kpis.ComputeKpis`'s result; app.py:74 shows its `totalCrashes`. The tables displayed at app.py:165 and 210 are `Causes.TopReasons` and `Causes.VehicleSafety`. Widget values enter the model as a `Filtering.Criteria` parameter. The loaded table is a parameter.
- Sliders and select boxes are not bounded by the table's own values. The model accepts any state, quarter and `nat` bounds. The source's widgets offer only values taken from the table.
- Floating point is not modelled: rates are exact rationals. The `:.2f` rounding for display is left out. NaN and infinity from a zero crash total are both `Undefined`.
- Integer columns are unbounded `nat`. 64-bit overflow of the column sums is not modelled, and negative counts are excluded by the type.
- The four cause-filter labels ("Speed violation" and the others) are looked up as columns of the table. The model gives each one its own indicator field. A table without those columns makes the source fail with a key error, which the model does not represent.
- Ranking.Largest: does not fix which of several equal-valued groups are kept at the cut, or in what order. `nlargest` keeps the tied groups that come first in the group-by's key-sorted order, while the tie order of `sort_values` is unspecified. The model does not fix the group order (see the next line), so it fixes neither. Only the non-increasing order and the dominance of kept over left-out groups are stated.
- Grouping.GroupSum: does not state the key order of the result (pandas sorts group keys). The model's groups appear in first-occurrence order, and only their contents are specified.
- Aggregates.CrashesByQuarter: does not state that the quarters come out in sorted key order, for the same reason.
- Column projections such as `[['State', 'Quarter', 'Num_Killed']]` and `reset_index` only rename or reorder columns. Index alignment between the cause mask and the filtered view is not modelled. The cause mask is applied row by row.
