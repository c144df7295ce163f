# Well forecast dates and viewer filter — a Dafny model

This project models the two pure cores of a small well-production forecast tool.

1. **Date resolution** (`process_well_data`). The tool builds an entity → start-date dictionary from the
   `start_dates` sheet. Duplicate entities are last-write-wins. It resets the forecast sheet's `Date`
   column to null (`NaT`). Then, for every forecast row whose entity has a start date, it shifts the
   start date by `Month - 1` calendar months (a pandas `DateOffset`) and sets `Date` to the first day of the
   resulting month. Rows without a start date keep a null
   `Date` and stay in the output.
2. **Viewer** (`viewer.py`). This part covers three things:
   - The row filter `filter_data` is an entity mask, an inclusive date-range mask and a likelihood mask.
     Each mask applies only when its selection is non-empty.
   - The default entity selection is the alphabetically first entity.
   - The chart helper returns no chart for an empty table.
   - The page draws three charts or a "no data" message.

Modules:
- `Wrappers` (wrappers.dfy): `Option`, which models a nullable `Date`.
- `Dates` (dates.dfy): (year, month, day) dates, the absolute month count `year * 12 + (month - 1)`,
  `DateOffset` month arithmetic with its end-of-month day clamp, `replace(day = 1)`, and the
  chronological order used when timestamps are compared.
- `TextOrder` (text_order.dfy): Python's `str` ordering (code-point lexicographic, prefix first) and the
  least element that `sorted(...)[0]` picks.
- `Seqs` (seqs.dfy): boolean-mask row selection (`df[mask]`) and subsequences.
- `Table` (table.dfy): the rows of the start-date sheet and of the forecast table. The rate columns are
  carried through as opaque values.
- `ProcessForecast` (process_forecast.dfy): `process_well_data`.
- `Viewer` (viewer.dfy): `filter_data`, the default entity, `plot_stacked_area`, and the page body.
- `Pipeline` (pipeline.dfy): what the viewer does with rows that the resolver left undated.

Modelling choices:
- **Null start dates.** An empty start-date cell becomes `NaT` in the dictionary (process_forecast.py:30).
  `NaT` plus an offset, and `NaT.replace`, both give `NaT`, so such rows get a null `Date`. The model's
  start date is therefore an `Option<Date>`.
- **Month offsets.** `DateOffset` accepts any integer `Month` (process_forecast.py:46), so the model does
  too: values below 1 shift backwards. `ResolveStrictlyIncreasing` holds for all offsets.
- **Likelihood selection.** `filter_data` reads it from a page-level global (viewer.py:52, 73). In the
  model it is an explicit argument of `FilterData`.
- **Empty-result message.** viewer.py:109-117 shows one "no data" message for the whole page when the
  filtered table is empty.
- **Date range.** `date_range` is a `DatetimeIndex` (viewer.py:51). The model uses `Option<Interval>`,
  where `None` stands for the empty index, in which case the date mask is skipped (viewer.py:71).

## Model

| member | source | states |
|---|---|---|
| Dates.AddMonths | process_forecast.py:46-47 | shifting by `k` months adds `k` to the absolute month count, keeps the day when the target month is long enough and clamps it to the month's last day otherwise, so a valid date stays valid |
| Dates.WithDayOne | process_forecast.py:48 | setting the day to 1 keeps the year and month (so the absolute month count) and gives day 1 |
| ProcessForecast.StartDateMapKeys | process_forecast.py:34 | the start-date dictionary has a key for an entity exactly when some start-date row names it |
| ProcessForecast.LastWriteWins | process_forecast.py:34 | when an entity is duplicated, its last start-date row supplies the dictionary's value |
| ProcessForecast.ResolveDate | process_forecast.py:46-48 | the resolved date is a valid first-of-month date `Month - 1` months after the start month |
| ProcessForecast.RowDate | process_forecast.py:43-49 | a row's date is null when its entity is not in the dictionary or its start date is null; otherwise it is the first day of the month `Month - 1` months after the start, the unique valid first-of-month date at that absolute month count (`FirstOfAbsMonth`) |
| ProcessForecast.ProcessWellData | process_forecast.py:37-51 | output has the same rows in the same order, every column except `Date` unchanged, absent entities get a null `Date`, present ones the first of the month `Month - 1` months after the start, and every non-null `Date` has day 1 |
| ProcessForecast.ResolveYearMonth | process_forecast.py:46-48 | the resolved year is the start year plus the carry of `(start month - 1) + (Month - 1)` over 12, the month is its remainder plus 1, and the day is 1 |
| ProcessForecast.ResolveIgnoresStartDay | process_forecast.py:46-48 | the start date's day has no effect on the result (the offset's day clamp is overwritten by day 1) |
| ProcessForecast.MonthOneIsStartMonth | process_forecast.py:46-48 | `Month = 1` resolves to the first day of the start month itself |
| ProcessForecast.ResolveStrictlyIncreasing | process_forecast.py:46-48 | for one start date, a larger `Month` resolves to a strictly later date |
| ProcessForecast.ExampleThirdMonth | process_forecast.py:46-48 | start 2024-04-01 with `Month = 3` gives 2024-06-01 |
| ProcessForecast.ExampleYearRollover | process_forecast.py:46-48 | a December start with `Month = 2` gives January 1 of the next year |
| ProcessForecast.ExampleEndOfMonthStart | process_forecast.py:46-48 | a January 31 start gives the same dates as a January 1 start; its second month is February 1, not a day in March |
| ProcessForecast.ProcessIdempotent | process_forecast.py:37-49 | running the transform on its own output returns that output, because a stale `Date` is reset before being filled |
| ProcessForecast.UnmatchedEntityStaysNull | process_forecast.py:37-43 | a row whose entity has no start-date row is kept, unchanged except for a null `Date` |
| ProcessForecast.MatchedEntityUsesLastStart | process_forecast.py:34-49 | a row whose entity is named by a start-date row gets the first of the month `Month - 1` months after the last such row's start date, or null if that start date is null |
| Seqs.Where | viewer.py:70 | a boolean-mask selection keeps only elements of the input that satisfy the mask, and every input element that satisfies it appears in the result |
| Seqs.WhereMultiset | viewer.py:70 | a boolean-mask selection keeps every copy of a passing element, identical elements included, and no copy of a failing one |
| Viewer.MaskEntity | viewer.py:69-70 | applying the entity mask only when the selection is non-empty keeps exactly the rows whose entity is selected or, when nothing is selected, all rows |
| Viewer.MaskDate | viewer.py:71-72 | with a date range, the date mask keeps exactly the rows whose date is non-null and between the bounds inclusive; with an empty range it keeps all rows |
| Viewer.MaskLikelihood | viewer.py:73-74 | applying the likelihood mask only when the selection is non-empty keeps exactly the rows whose likelihood is selected or, when nothing is selected, all rows |
| Viewer.FilterData | viewer.py:56-75 | the entity, date and likelihood masks applied one after another, each only when its selection is non-empty, keep exactly the rows that pass all three conditions at once, in table order |
| Viewer.FilterSoundAndComplete | viewer.py:69-74 | a row is kept exactly when it is a table row whose entity is selected (or none is), whose date is non-null and within the inclusive range (or the range is empty), and whose likelihood is selected (or none is) |
| Viewer.FilterIsSubsequence | viewer.py:69-75 | the filtered table is a subsequence of the input: rows are only removed, never reordered |
| Viewer.FilterMultiplicity | viewer.py:69-75 | the filter keeps every copy of a row that passes all three conditions, identical rows included, and drops every copy of one that does not |
| Viewer.InIntervalMeaning | viewer.py:72 | a null date (`NaT`) lies in no interval, and a date lies in one exactly when it is neither before the lower bound nor after the upper bound in timestamp order |
| Viewer.InvertedIntervalIsEmpty | viewer.py:72 | a date range whose upper bound is before its lower bound keeps no row |
| Dates.BeforeStrictTotalOrder | viewer.py:72 | the timestamp order used by the date mask is irreflexive, transitive, asymmetric and total on distinct dates |
| Dates.NotAfterIsNotReverseBefore | viewer.py:72 | `<=` on dates holds exactly when the reverse strict comparison fails |
| Dates.BeforeIffMonthThenDay | viewer.py:72 | dates with valid months are compared by absolute month count first and by day second |
| Viewer.FilterIdempotent | viewer.py:56-75 | filtering twice with the same selections equals filtering once |
| Viewer.FullRangeKeepsDatedRows | viewer.py:69-74 | with empty entity and likelihood selections and a range spanning every date, the filter keeps exactly the rows with a non-null date |
| Viewer.DefaultEntitySelection | viewer.py:29-30 | the default selection is empty for an empty table, and otherwise holds one entity of the table that is alphabetically no greater than any other |
| Viewer.DefaultEntityIsMinimum | viewer.py:29-30 | the default selection is the singleton of the table's unique alphabetically smallest entity |
| TextOrder.Least | viewer.py:29 | the first element of the sorted list is a member of the list that no member precedes in Python's string order |
| TextOrder.LeastUnique | viewer.py:29 | an element that precedes every member is exactly the one the sorted list starts with |
| TextOrder.TextLeIffPrefixOrFirstDifference | viewer.py:29 | the string order behind `sorted` holds exactly when the first string is a prefix of the second, or has the smaller code point at the first position where they differ |
| TextOrder.TextLeReflexive | viewer.py:29 | every string is ordered before or equal to itself |
| TextOrder.TextLeTotal | viewer.py:29 | any two strings are comparable |
| TextOrder.TextLeTransitive | viewer.py:29 | the string order is transitive |
| TextOrder.TextLeAntisymmetric | viewer.py:29 | two strings ordered both ways are equal |
| Viewer.PlotStackedArea | viewer.py:89-90 | the chart helper yields no chart exactly when its table is empty |
| Viewer.ViewPage | viewer.py:106-117 | the page shows "no data" exactly when no row passes the filter, and otherwise shows oil, gas and water charts of the filtered table |
| Pipeline.UnstartedEntityHiddenByDateFilter | viewer.py:71-72 | a forecast row of an entity without a start date survives resolution with a null date and is dropped by every date-bounded filter |

## Left out

- Reading the workbook sheets, writing and reading `forecast_withdate.csv`, and the usage lines at the foot of the resolver (process_forecast.py:25-27, 55-57; viewer.py:19-26). These are file I/O, and with them the load and missing-column errors.
- String-to-date parsing, `.dt.normalize()` and times of day (process_forecast.py:30; viewer.py:22, 51). Dates are already-parsed (year, month, day) values.
- The parse error of `pd.to_datetime` (process_forecast.py:30): a start-date cell that is not empty but is not a date makes the run stop with an error. The model has no such cell. Its start dates are either a date or null, and null stands for an empty cell.
- The `Timestamp` bounds of pandas (years 1677 to 2262) and the out-of-bounds error beyond them. Model years are unbounded.
- Non-integer or missing `Month` values, and missing entity names. Every `Month` is an integer and every entity a string.
- Streamlit page setup, sidebar widgets and their defaults, including the default date range from the data's min/max dates and the "Mid" likelihood default (viewer.py:10-15, 33-52). This is UI state. The widget values are arguments of the model.
- `@st.cache_data` caching of the loaded table (viewer.py:19). This is framework state.
- Altair chart encoding: axes, stacking, colour, tooltips and size (viewer.py:91-103). This is a foreign charting library. `Chart` records only the rows and the rate column.
- `print` logging (process_forecast.py:24-42). It is a side effect only.
- Rate arithmetic. Rate columns are opaque values carried through unchanged.
