# Dompet Mahasiswa ledger model

Dompet Mahasiswa is a student finance page. Its one piece of logic is a
transaction ledger held in the session. It keeps rows of date, kind
(`Pemasukan` = income, `Pengeluaran` = expense), description and amount in
whole rupiah. The page supports four operations on it:

- appending a row, guarded by a non-empty description and a positive amount;
- deriving a monthly period key (`Bulan`, `YYYY-MM`) and a weekly period key
  (`Minggu`, the ISO 8601 week number without its year) for every row;
- aggregating per period (income, expense and `Net`) and over the whole
  ledger;
- drilling down into one period's expenses for the composition pie.

The model is split into modules that follow the page's stages:

- `Calendar` (calendar.dfy): proleptic Gregorian dates, day ordinals, and the
  ISO 8601 week date. The week date is computed from the first Thursday of
  January and proved to be the unique solution of its defining property.
- `PeriodKeys` (period_keys.dfy): the `YYYY-MM` and week-number strings.
- `Ledger` (ledger.dfy): the ledger as a class whose `Append` method keeps
  the validity invariant.
- `Queries` (queries.dfy): the table with its derived columns, the row
  selections and the amount sums.
- `Aggregation` (aggregation.dfy): totals, `groupby`/`unstack`/`Net`, the
  partition of the totals by period, and the page's behaviour when a kind
  column is missing.
- `DrillDown` (drill_down.dfy): the selected period's expenses and the pie
  slices.
- `Scenarios` (scenarios.dfy): a worked ledger and concrete instances of
  the key collision and the missing-column failure.

The date picker's value, the mode radio and the period select box become
parameters. The date is a `CalendarDate`, the mode is a `Mode`, and the
selected period is a string key.

## Model

| member | source | states |
|---|---|---|
| Ledger.Accepts | App.py:23 | the guard of the "Tambah" button: a non-empty description and a positive amount; Ledger.Ledger.Append's contract states that a row is stored exactly when it holds |
| Ledger.Ledger.constructor | App.py:10-11 | the session's ledger starts as an empty table, and the empty table satisfies the invariant |
| Ledger.Ledger.Append | App.py:22-28 | the row is added exactly when the description is non-empty (no trimming) and the amount is positive; an accepted row goes at the end and no old row changes; a rejected append leaves the table identical; every stored row keeps a non-empty description and a positive amount |
| Calendar.DaysInMonth | App.py:37 | every month has 28 to 31 days, and exactly February of a leap year has 29 |
| Calendar.MultiplesStep | App.py:37 | moving from p to p+1 adds one multiple of 4, 100 or 400 exactly when p+1 is one |
| Calendar.MultiplesNest | App.py:37 | a multiple of 400 is a multiple of 100, and a multiple of 100 is one of 4 |
| Calendar.YearLength | App.py:37 | the day count before year y+1 is the count before y plus y's 365 or 366 days |
| Calendar.DaysBeforeMonth | App.py:37 | no day precedes January, and every month ends where it starts plus its own length (MonthStep) |
| Calendar.MonthStep | App.py:37 | month m+1 starts exactly DaysInMonth(y, m) days after month m, and December ends at the end of the year |
| Calendar.Ordinal | App.py:37 | a date's day number lies inside its own year, and in January it is the year's offset plus the day |
| Calendar.NextDay | App.py:37 | the calendar day after a date, which stays in its year or is January 1 of the next one |
| Calendar.OrdinalNextDay | App.py:37 | the day after a date has the next day number, across month and year ends too |
| Calendar.Week1Monday | App.py:39 | ISO week 1 starts on a Monday whose Thursday falls on January 1-7, which makes it the week of the first Thursday |
| Calendar.WeeksInYear | App.py:39 | an ISO year has 52 or 53 weeks |
| Calendar.Week1MondayMonotone | App.py:39 | week 1 of a later year starts at least 364 days per year later |
| Calendar.IsoWeekDate | App.py:39 | for each day of calendar year y it gives a week date satisfying the ISO defining property, with ISO year y-1, y or y+1 |
| Calendar.IsoCalendar | App.py:39 | `isocalendar()` of a date satisfies the ISO week-date defining property |
| Calendar.SameIsoYearSameDate | App.py:39 | two week dates of one day in the same ISO year are equal |
| Calendar.BeforeLaterIsoYears | App.py:39 | a day before the end of one ISO year lies before the start of every later ISO year |
| Calendar.OneIsoYear | App.py:39 | every week date of a day has the same ISO year |
| Calendar.IsoCalendarUnique | App.py:39 | any week date satisfying the defining property is the one IsoCalendar gives, so the ISO week date is unique |
| Calendar.IsoWeekAtMost53 | App.py:39 | a week number satisfying the defining property is at most 53 |
| Calendar.IsoWeek | App.py:39 | the `week` field of `isocalendar()` lies in 1..53 |
| Calendar.IsoWeekWithinYear | App.py:39 | a date from week 1 of its own year up to week 1 of the next year has week number (its day number - that Monday) / 7 + 1 |
| PeriodKeys.DigitsValue | App.py:38-39 | the number a digit string spells, most significant digit first; never negative |
| PeriodKeys.DecimalString | App.py:39 | `astype(str)` of a week number is a non-empty digit string with no leading zero, one character exactly below 10 |
| PeriodKeys.DecimalStringValue | App.py:39 | reading `astype(str)` of a number back as digits gives the number |
| PeriodKeys.PaddedDigits | App.py:38 | a number below 10^width written as exactly `width` digits |
| PeriodKeys.PaddedDigitsValue | App.py:38 | reading the zero-padded digits back gives the number |
| PeriodKeys.DecimalStringInjective | App.py:39 | two numbers have the same decimal string exactly when they are equal |
| PeriodKeys.PaddedDigitsInjective | App.py:38 | two zero-padded numbers of one width are equal exactly when the numbers are |
| PeriodKeys.MonthlyKey | App.py:38 | the `Bulan` value has the form DDDD-DD |
| PeriodKeys.MonthlyKeySpells | App.py:38 | the first four digits of `Bulan` spell the year and the last two the month |
| PeriodKeys.WeeklyKey | App.py:39 | the `Minggu` value has one or two characters |
| PeriodKeys.WeeklyKeySpells | App.py:39 | `Minggu` is a digit string without leading zero that spells the ISO week number |
| PeriodKeys.PeriodKey | App.py:38-39 | the key of the column the mode selects; PeriodKeySamePeriod states what sharing it means |
| PeriodKeys.PeriodKeySamePeriod | App.py:38-43 | two dates share the selected period key exactly when they share year and month (monthly) or ISO week number (weekly) |
| PeriodKeys.MonthlyKeySameMonth | App.py:38 | two dates share a monthly key exactly when they share year and month |
| PeriodKeys.WeeklyKeySameWeek | App.py:39 | two dates share a weekly key exactly when their ISO week numbers are equal, whatever their years |
| Queries.AddPeriodColumns | App.py:37-39 | each row keeps its transaction and gains its monthly and weekly keys; the row count is unchanged |
| Queries.AddPeriodColumnsAppend | App.py:37-39 | appending a transaction appends exactly one keyed row to the table |
| Queries.PeriodOf | App.py:43 | the `periode_col` value of a row; PeriodColumnIsKey states that it is the period key of the row's date |
| Queries.PeriodColumnIsKey | App.py:43 | `periode_col` of a row is the period key of its date in the chosen mode |
| Queries.SumAmounts | App.py:49-50 | a `Jumlah` sum is non-negative, and over valid rows it is 0 exactly when the selection is empty |
| Queries.OfKind | App.py:49-50 | `df[df["Tipe"] == kind]` has no more rows than the table |
| Queries.OfKindMembers | App.py:49-50 | `df[df["Tipe"] == kind]` holds exactly the table's rows of that kind |
| Queries.InPeriod | App.py:69 | `df[df[periode_col] == key]` has no more rows than the table |
| Queries.InPeriodMembers | App.py:69 | `df[df[periode_col] == key]` holds exactly the table's rows with that key |
| Queries.WithDescription | App.py:73 | the selection by description has no more rows than the table |
| Queries.WithDescriptionMembers | App.py:73 | the selection by description holds exactly the table's rows with that description |
| Queries.SumAmountsAppend | App.py:49-50 | the sum over a concatenation is the sum of the sums |
| Queries.OfKindAppend | App.py:49-50 | the kind selection keeps table order, distributing over concatenation |
| Queries.InPeriodAppend | App.py:69 | the period selection keeps table order, distributing over concatenation |
| Queries.WithDescriptionAppend | App.py:73 | the description selection keeps table order, distributing over concatenation |
| Queries.AbsentPeriodSelectsNothing | App.py:69 | a key that no row has selects no rows |
| Queries.KindsPartitionSum | App.py:49-50 | income sum plus expense sum is the sum of all amounts |
| Aggregation.LedgerTotals | App.py:49-51 | total income plus total expense is the whole `Jumlah` column; `net` is what remains of that column once twice the expense is taken out, i.e. income minus expense; both totals are non-negative |
| Aggregation.TotalsAfterAppend | App.py:49-51 | appending a row raises income or expense, whichever is its kind, by its amount and moves net by plus or minus the amount |
| Aggregation.KindSumAfterAppend | App.py:49-50 | appending a row raises the sum of its own kind by its amount and leaves the other kind's sum unchanged |
| Aggregation.PeriodSumCons | App.py:46 | a period's kind sum is the first row's amount, when it matches, plus the sum over the remaining rows |
| Aggregation.GroupSums | App.py:46 | the grouped and unstacked sums; GroupSumsKeys and GroupSumsCorrect state its index and its cells |
| Aggregation.GroupSumsKeys | App.py:46 | the grouped index is exactly the set of period keys in the table |
| Aggregation.GroupSumsCell | App.py:46 | a grouped cell holds that period's income sum and expense sum, with 0 for a kind it lacks |
| Aggregation.GroupSumsCorrect | App.py:46 | every grouped cell holds its period's income and expense sums |
| Aggregation.Aggregate | App.py:46-47 | `grouped` with zero fill has one row per period present in the table, and each row's `Net` is its income minus its expense |
| Aggregation.AggregateCorrect | App.py:46-47 | each row of `grouped` holds its period's income and expense sums, 0 for a kind the period lacks |
| Aggregation.DistinctTail | App.py:46 | the tail of a list of distinct period keys is distinct and does not contain its head |
| Aggregation.KeysSumCons | App.py:46-50 | over distinct keys, the first row contributes its amount once if its key is listed |
| Aggregation.KeysSumCoversKind | App.py:46-50 | the periods partition the rows: every period's sums of one kind add up to that kind's total |
| Aggregation.KeysSumEmpty | App.py:46 | an empty table has zero sums in every period |
| Aggregation.ColumnSumIsKeysSum | App.py:46-47 | summing a column of a table that holds the period sums gives the summed period sums |
| Aggregation.PeriodColumnsSumToTotals | App.py:46-51 | the `Pemasukan`, `Pengeluaran` and `Net` columns of `grouped`, summed over all periods once each, equal total income, total expense and net |
| Aggregation.AggregateAsWritten | App.py:46-47 | the page's `grouped["Pemasukan"] - grouped["Pengeluaran"]` fails exactly when the ledger lacks one of the two kinds, and otherwise equals the zero-filled aggregate |
| Aggregation.KindColumnsMembers | App.py:46 | `unstack` has a column for a kind exactly when some row has that kind |
| DrillDown.PeriodExpenses | App.py:69-70 | `exp_sel` holds exactly the table's expense rows whose period column equals the selected key |
| DrillDown.PeriodExpensesAppend | App.py:69-70 | `exp_sel` keeps table order |
| DrillDown.PeriodExpensesMatchCell | App.py:68-70 | for a period offered by the select box, its expense rows sum to its `Pengeluaran` cell |
| DrillDown.AbsentPeriodHasNoExpenses | App.py:68-70 | a key outside `grouped.index` selects no expense rows |
| DrillDown.AddToSlices | App.py:73 | merging an amount into the slices raises their total and exactly that description's value by the amount, and adds the description to the slice names |
| DrillDown.AddToSlicesDistinct | App.py:73 | merging keeps the slice names distinct |
| DrillDown.PieSlices | App.py:73 | the pie's slice names are exactly the expense descriptions, and the slices add up to all the amounts |
| DrillDown.PieSlicesCorrect | App.py:73 | no description has two slices, and each slice holds its description's summed amounts |
| DrillDown.PieMatchesCell | App.py:72-73 | the pie of a selectable period sums to that period's `Pengeluaran` cell |
| DrillDown.PeriodExpenseView | App.py:72-77 | the "no expenses" notice is shown exactly when every row of the period is income; otherwise the pie is drawn |
| Scenarios.Year2023 | App.py:39 | 2022 ends after day 738520, and week 1 of 2023 starts on Monday 2023-01-02 |
| Scenarios.Year2024 | App.py:39 | 2023 ends after day 738885, and week 1 of 2024 starts on Monday 2024-01-01 |
| Scenarios.Year2025 | App.py:39 | 2024 ends after day 739251, and week 1 of 2025 starts on Monday 2024-12-30 |
| Scenarios.Week2Of2023 | App.py:39 | 2023-01-11 is in ISO week 2 |
| Scenarios.WeeklyKeyCollidesAcrossYears | App.py:39 | 2023-01-11 and 2024-01-10 are in different years yet both get the weekly key "2" |
| Scenarios.YearDigits2024 | App.py:38 | the year 2024 prints as 2024 |
| Scenarios.MonthDigits | App.py:38 | months 1 to 9 print with a leading zero |
| Scenarios.MonthlyKeys2024 | App.py:38 | January to September 2024 give the keys 2024-01 to 2024-09 |
| Scenarios.Week2Of2024 | App.py:39 | 2024-01-10 is in ISO week 2 |
| Scenarios.Week3Of2024 | App.py:39 | 2024-01-15 is in ISO week 3 |
| Scenarios.Week5Of2024 | App.py:39 | 2024-02-01 is in ISO week 5 |
| Scenarios.ColumnsOfThree | App.py:37-39 | a three-row ledger gains its key columns row by row |
| Scenarios.ExampleColumns | App.py:37-39 | the three example rows get keys 2024-01/2, 2024-01/3 and 2024-02/5 |
| Scenarios.ExampleSession | App.py:22-28 | three valid appends and one with an empty description leave exactly the three rows |
| Scenarios.RejectedAppend | App.py:23-28 | an empty description with amount 1000 leaves a new ledger empty |
| Scenarios.ExampleTotals | App.py:49-51 | the example ledger totals 500000 income, 350000 expense and 150000 net |
| Scenarios.MonthlyGroups | App.py:46 | the example's grouped sums are 2024-01 = (500000, 150000) and 2024-02 = (0, 200000) |
| Scenarios.MonthlyCells | App.py:46-47 | with those sums, the example's `grouped` rows carry the nets 350000 and -200000 |
| Scenarios.ExampleMonthlyAggregate | App.py:46-47 | the monthly `grouped` of the example is 2024-01 = (500000, 150000, 350000) and 2024-02 = (0, 200000, -200000) |
| Scenarios.OneRowPie | App.py:73 | the pie of one expense row is one slice holding its amount |
| Scenarios.FebruaryExpenses | App.py:69-70 | the example's February expense rows are the books row alone |
| Scenarios.FebruaryPie | App.py:69-75 | the February pie is the single slice Books 200000 |
| Scenarios.MarchHasNoExpenses | App.py:69-77 | March, which has no rows, shows the no-expenses notice |
| Scenarios.ExampleBreakdown | App.py:69-77 | the February pie is the single slice Books 200000, and March shows the no-expenses notice |
| Scenarios.IncomeOnlyLedgerFails | App.py:46-47 | a ledger with a single income row makes the page fail, while the zero-filled aggregate is 2024-01 = (500000, 0, 500000) |

## Left out

- Streamlit layout, widgets, messages, `st.stop` and the session-state lifecycle (App.py:6-7, 16-21, 30-35, 42, 54-58, 61-68, 80-90) are not modelled. The widget values are parameters.
- The empty-ledger early stop (App.py:33-35) is not modelled as a separate operation. On an empty table the totals are zero and the corrected `Aggregate` is empty, while `AggregateAsWritten` fails (no kind column exists). The page never reaches that aggregation, because `st.stop()` ends the run on an empty frame.
- Plotly chart rendering (App.py:62-64, 73-75) is not modelled. `PieSlices` gives the data a pie shows: the set of slices, with equal descriptions merged into one slice. The order of the slices is not modelled: the model lists them by first appearance, and Plotly draws them by its own sorting, largest first by default. Colours, labels, percentages and the line chart are not modelled.
- CSV export (App.py:84-88) is not modelled; it is pandas serialisation.
- The `:,.0f` metric formatting (App.py:55-58) is not modelled; it is float formatting.
- `datetime.now()` as the default date (App.py:17) becomes the `date` parameter of `Append`.
- `df` is bound at App.py:13, before the append at App.py:25 replaces the session's frame. A row added in a run therefore shows up only in the next run's aggregates. The model aggregates the table it is given and does not model the one-run delay.
- The date column is the picker's date, converted by `pd.to_datetime`. The model takes proleptic Gregorian dates of years 1 to 9999. pandas' narrower timestamp range and a time-of-day part are not modelled.
- pandas' own ISO calendar code is not part of this model. The week number is computed from day ordinals and proved against the ISO 8601 defining property: week 1 is the Monday-started week containing the year's first Thursday.
- The order of `grouped.index` (sorted as strings) and the order of the select box options are not modelled. `PeriodColumnsSumToTotals` holds for every enumeration of the periods that lists each once.
- Aggregate: fills a missing kind column with zeros, which the page as written does not do (see Findings).
- Integer width is not modelled. Amounts are `nat` and sums are unbounded `int`. Streamlit's integer `number_input` accepts at most 2^53 - 1, and pandas sums an `int64` column modulo 2^64, wrapping past 2^63 - 1. The model has neither bound, so a ledger whose totals exceed 2^63 - 1 behaves differently on the page.
- `Append` reports one rejection outcome for all invalid inputs, matching the page's single warning.
- Repeated aggregation and filtering give the same results because every function of the model is pure. No separate idempotence lemma is stated.

## Findings

| source | as written | input that shows it | evidently intended | confidence | as-written member | corrected member |
|---|---|---|---|---|---|---|
| App.py:46-47 | `unstack` creates only the kind columns that occur, and `grouped["Pemasukan"] - grouped["Pengeluaran"]` then raises KeyError | a ledger whose only row is an income, such as the first transaction of a session (2024-01-10, Pemasukan, Allowance, 500000) | a missing kind counts as a column of zeros, so that month shows income 500000, expense 0, net 500000 | not executed | Aggregation.AggregateAsWritten, with Scenarios.IncomeOnlyLedgerFails | Aggregation.Aggregate, with Aggregation.AggregateCorrect |
