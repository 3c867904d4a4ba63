# ERCOT basis monitor and NWOH import, modelled in Dafny

This project models the computational core of a small wind-asset dashboard.
It has two parts.

**Live basis monitor (`app.py`).** The monitor watches two ERCOT settlement
points: the wind node `NBOHR_RN` and the hub `HB_WEST`. Its core steps are:

- the basis spread (node 1 minus node 2) and the four-way alert
  classification (UNKNOWN / OK / CAUTION / ALERT);
- the price history, built in these steps:
  - keep each node's LMP rows;
  - inner-join the two nodes on interval start;
  - keep intervals at or after a cutoff;
  - sort ascending;
  - turn every joined interval into a point with its basis and a two-way
    "safe"/"alert" status;
- the published snapshot (`latest_data`). A refresh copies the newest point
  into the "latest" fields and keeps the last 100 points for the chart. An
  empty fetch sets the status to "no_data". A failed fetch also gives
  "no_data", because `get_historical_prices` returns an empty history on any
  exception. Only an exception escaping the loop body itself sets "error".

**NWOH historical import (`import_nwoh_excel.py`).**

- The five-minute PPA sheet is rolled up per date: generation-weighted hub
  and node prices, their basis, and the net PPA settlement.
- Every row of the Daily sheet becomes a daily record keyed by its date. The
  row is also added into a month bucket and a year bucket, whose weighted
  averages are then finalised.
- The grand totals sum the daily table.

Modules, one file each:

| file | module | models |
|---|---|---|
| `wrappers.dfy` | `Wrappers` | `Option` for missing or NaN cells |
| `basis_alerts.dfy` | `BasisAlerts` | `calculate_basis`, `get_basis_alert_status` |
| `price_history.dfy` | `PriceHistory` | the join / filter / sort / basis / status of `get_historical_prices` |
| `publisher.dfy` | `Publisher` | `latest_data` as class `LatestData`, one refresh of the background loop |
| `calendar.dfy` | `Calendar` | dates, and the month and year keys |
| `ppa_rollup.dfy` | `PpaRollup` | the five-minute roll-up and the `ppa_by_date` lookup |
| `daily_import.dfy` | `DailyImport` | daily records, and the month and year accumulation |
| `bucket_finalize.dfy` | `BucketFinalize` | weighted averages of the finished buckets |
| `nwoh_import.dfy` | `NwohImport` | grand totals, how the buckets recombine, the whole import |

Modelling choices:

- **Numbers.** Prices, MWh and dollars are `real`. On the five-minute PPA
  sheet, a missing cell or one that `pd.to_numeric` cannot coerce is `None`.
  On the Daily sheet, a missing (NaN) cell is `None`, and the model reads it
  as 0, as `x if pd.notna(x) else 0` does. A Daily cell holding text is not
  modelled (see "Left out"). An LMP on the live feed is always a number.
- **Dates.** A date is `(year, month, day)`. Interval starts are absolute
  instants (`int`).
- **Daily table.** It is a `map` keyed by date. Python's dict insertion order
  is kept as its own sequence (`DayOrder`), so the grand totals are a fold
  over that order.
- **Buckets.** Each bucket is specified as the fold of its period's rows
  (`Totals`). The accumulation loop (`AccumulateDays`) is proved to produce
  exactly those folds.

Python truthiness is modelled as written, on unrounded values (see "Left out"):

- `ppa.get('gwa_node') or rt_lmp` falls back to the RT LMP when the weighted
  node price is 0, not only when it is missing.
- `... if gwa_basis else None` gives no realized price when the basis is
  exactly 0.
- `if gwa_hub and gen_mwh > 0` skips the hub and node products when the hub
  price is 0.

Two status rules live side by side in the source:

- the history point status uses `basis > -100`, so a basis of exactly -100
  is "alert";
- the three-band classification puts -100 in CAUTION.

`Publisher.PointStatusAgainstBands` states where the two rules agree and
where they differ.

Some members are plain definitions. The lemmas and methods in the table
below state their properties, so they have no rows of their own:

- `PriceHistory.PointStatus` (app.py:92) is the two-way point status;
  `Publisher.PointStatusAgainstBands` and `PriceHistory.HistoricalPrices`
  state it.
- `PriceHistory.PointOf` and `PriceHistory.Points` (app.py:88-99) turn one
  joined row, and then the whole merged table, into history points.
- `PpaRollup.Product` (import_nwoh_excel.py:53-54) is the generation × price
  product of one five-minute row.
- `PpaRollup.RowSums` and `PpaRollup.SumsOn` (import_nwoh_excel.py:59-65) are
  what one row adds to its date group's sums, and the sums of one date's group.
- `PpaRollup.GroupByDate` (import_nwoh_excel.py:57-65) is the `groupby` table.
- `DailyImport.NodePriceOn` (import_nwoh_excel.py:120) is the `or rt_lmp`
  fallback for the node price.
- `DailyImport.Totals` (import_nwoh_excel.py:150-174) is the bucket of a
  period, the fold of its rows.
- `NwohImport.Grand` (import_nwoh_excel.py:219-220) is the grand-total sum
  over the daily table in key order.

## Model

| member | source | states |
|---|---|---|
| BasisAlerts.CalculateBasis | app.py:109-113 | the basis exists exactly when both prices do, and then price2 + basis = price1 |
| BasisAlerts.BasisAlertStatus | app.py:119-134 | each of the four (label, class) pairs is returned exactly on its band: no basis, basis > 0, -100 <= basis <= 0, basis < -100 |
| PriceHistory.AtLocation | app.py:56-57 | the kept rows are exactly the rows at that settlement point |
| PriceHistory.MatchRow | app.py:64-67 | one node-1 row yields exactly its joins with the node-2 rows at the same interval start |
| PriceHistory.Join | app.py:63-67 | a joined row exists exactly when a node-1 row and a node-2 row share an interval start; an empty side gives an empty join |
| PriceHistory.AtOrAfter | app.py:79-80 | the kept rows are exactly those at or after the cutoff |
| PriceHistory.Insert | app.py:84 | insertion adds the element to the multiset and grows the length by one |
| PriceHistory.InsertKeepsAscending | app.py:84 | inserting into an ascending table keeps it ascending |
| PriceHistory.SortByStart | app.py:84 | the result is a permutation of the input, ascending by interval start |
| PriceHistory.Merged | app.py:59-84 | no rows for either node gives an empty merged table |
| PriceHistory.MergedMembership | app.py:55-84 | an interval is in the merged table exactly when both nodes priced it at or after the cutoff |
| PriceHistory.PointsSorted | app.py:82-84 | the history points are in non-decreasing time order |
| PriceHistory.PointsPriced | app.py:77-80 | every point lies at or after the cutoff and comes from an interval priced at both nodes |
| PriceHistory.PointsComplete | app.py:63-80 | every interval priced at both nodes at or after the cutoff appears as a point |
| PriceHistory.MatchRowAtMostOne | app.py:63-67 | when node 2 prices each interval once, a node-1 row joins at most one node-2 row |
| PriceHistory.JoinOncePerInterval | app.py:63-67 | when each node prices each interval once, the join holds each interval at most once |
| PriceHistory.AtOrAfterOncePerInterval | app.py:79-80 | the cutoff filter keeps each interval at most once |
| PriceHistory.InsertOncePerInterval | app.py:84 | inserting a row of a new interval keeps each interval at most once |
| PriceHistory.SortOncePerInterval | app.py:84 | sorting keeps each interval at most once |
| PriceHistory.PointsStrictlyAscending | app.py:55-99 | when each node prices each interval once, the history times strictly increase: one point per interval priced at both nodes |
| PriceHistory.HistoryFacts | app.py:55-101 | the points are sorted, after the cutoff, carry basis = node 1 - node 2 with its status, and are exactly the intervals priced at both nodes |
| PriceHistory.HistoricalPrices | app.py:51-101 | the returned history is the points of the merged table; sorted, after the cutoff, basis and status per point, sound and complete |
| PriceHistory.ToHistory | app.py:88-99 | the loop turns each merged row, in order, into its history point |
| Publisher.Recent | app.py:156-157 | keeps min(100, n) points, namely the last ones, in order, and keeps the newest point |
| Publisher.PointStatusAgainstBands | app.py:92 | a point's safe/alert status agrees with the three-band colour except at exactly -100, where the point is "alert" and the band is CAUTION |
| Publisher.LatestData.constructor | app.py:25-33 | the initial snapshot: no prices, no basis, no times, status "initializing", empty history |
| Publisher.LatestData.Publish | app.py:145-162 | a non-empty fetch copies the newest point into the latest fields, stamps the update time and keeps the last 100 points; an empty fetch only sets "no_data"; the snapshot invariant holds and an ascending fetch gives an ascending chart |
| Publisher.LatestData.MarkError | app.py:168-171 | a failure sets status "error" and leaves every other field as it was |
| Publisher.LatestData.Refresh | app.py:140-163 | when the history has points, the newest one fills the latest fields and the status, the update time is stamped and the last 100 points are kept, ascending and after the cutoff; when nothing matched, only the status changes, to "no_data" |
| Calendar.MonthOf | import_nwoh_excel.py:106 | the month key contains the date |
| Calendar.YearOf | import_nwoh_excel.py:107 | the year key contains the date |
| PpaRollup.Gen5Min | import_nwoh_excel.py:50 | the five-minute generation is present exactly when the hourly value is, and 12 of them make the hourly value |
| PpaRollup.SumsOnAppend | import_nwoh_excel.py:59-65 | the group sums of a concatenated sheet are the sums of the parts |
| PpaRollup.SumsOnOtherDates | import_nwoh_excel.py:59-65 | rows of other dates leave a date's group sums at zero |
| PpaRollup.DayFromSums | import_nwoh_excel.py:67-71 | the weighted prices exist exactly when generation is non-zero; gwa_hub * gen = hub product and likewise for the node; basis = (hub product - node product) / gen; net + floating = fixed |
| PpaRollup.PpaByDate | import_nwoh_excel.py:73-83 | the lookup has one entry per PPA date, holding the figures of that date's group |
| DailyImport.DayRecord | import_nwoh_excel.py:109-148 | volume, DA MWh, DA and RT revenue, and DA and RT prices are the row's cells (0 when missing); pnl = gross revenue + net PPA; a date with PPA rows takes its hub price, basis, fixed, floating and net payments from the PPA figures; a date without them has net 0 and no hub, basis, realized or payments; RT revenue splits into a non-negative sale or purchase; rt_mwh + da_mwh = volume; a realized price exactly for a non-zero basis, equal to 33.31 + basis; count 1 |
| DailyImport.RowBucket | import_nwoh_excel.py:150-161 | a row adds its daily pnl, volume, DA and revenue figures and the DA/RT price products; hub and node products only on hub-priced days, with the node-price fallback; count 1 |
| DailyImport.TotalsCount | import_nwoh_excel.py:161 | a bucket's count is the number of dated rows in its period |
| DailyImport.TotalsOfEmptyPeriod | import_nwoh_excel.py:93-102 | a period without rows keeps the all-zero default bucket |
| DailyImport.ProductsOnlyFromHubPricedDays | import_nwoh_excel.py:158-160 | a period without hub-priced days has zero hub and node products |
| DailyImport.DailyTable | import_nwoh_excel.py:129 | the daily table has one key per date of a valid row |
| DailyImport.DayOrder | import_nwoh_excel.py:129 | the key order holds each date of a valid row exactly once |
| DailyImport.DayOrderFirstSeen | import_nwoh_excel.py:104-129 | the key order of any leading part of the sheet is a prefix of the whole key order, so dates are listed as first seen, as dict insertion order gives |
| DailyImport.LastRowWins | import_nwoh_excel.py:129 | a repeated date keeps the record of its last row |
| DailyImport.AddTo | import_nwoh_excel.py:151-161 | defaultdict addition: the key is added (starting from the zero bucket) and every other bucket is unchanged |
| DailyImport.AddToKeepsTotals | import_nwoh_excel.py:150-174 | adding a row into its period's bucket keeps every bucket equal to its period's totals |
| DailyImport.KeysStep | import_nwoh_excel.py:106-107 | one more dated row adds its month and year keys |
| DailyImport.PrefixStep | import_nwoh_excel.py:104-148 | how the table, the key order and the bucket keys change when row i is read |
| DailyImport.MonthBucketsStep | import_nwoh_excel.py:150-161 | adding a row to its month bucket keeps all month buckets equal to their totals |
| DailyImport.YearBucketsStep | import_nwoh_excel.py:163-174 | adding a row to its year bucket keeps all year buckets equal to their totals |
| DailyImport.AccumulateDays | import_nwoh_excel.py:104-174 | the loop builds the daily table and its key order, and month and year buckets whose keys are the months and years seen and whose values are their periods' totals |
| BucketFinalize.Finalize | import_nwoh_excel.py:177-192 | totals carried over; averages only for positive volume; avg DA * DA MWh = DA product, or 0 without DA MWh; avg RT * volume = RT product; hub price, basis and realized price only for a positive hub product, with realized = 33.31 + basis |
| BucketFinalize.BasisIsHubMinusNodeAverage | import_nwoh_excel.py:182-183 | a bucket's basis is its average hub price minus its weighted node price |
| BucketFinalize.FinalizeBuckets | import_nwoh_excel.py:177-209 | every bucket of the table is finalised, under the same key |
| NwohImport.GrandIgnoresOtherDates | import_nwoh_excel.py:219-220 | entries under dates outside the key order do not count |
| NwohImport.GrandAppend | import_nwoh_excel.py:219-220 | a new date at the end of the order adds its entry to the grand totals |
| NwohImport.AllDatesStep | import_nwoh_excel.py:151-152 | one more row adds its daily pnl and volume to the all-time totals when dated |
| NwohImport.GrandStepDated | import_nwoh_excel.py:219-220 | one more row with a new date adds its pnl and volume to the grand totals |
| NwohImport.GrandStepUndated | import_nwoh_excel.py:88-89 | an undated row leaves the grand totals alone |
| NwohImport.LastDateIsNew | import_nwoh_excel.py:129 | without repeated dates, the last row's date is new to the table |
| NwohImport.GrandStep | import_nwoh_excel.py:151-152 | without repeated dates, one more row moves the grand totals and the all-time bucket by the same pnl and volume |
| NwohImport.GrandTotalsMatchRows | import_nwoh_excel.py:219-220 | without repeated dates, total_pnl and total_volume are the sums over all dated rows |
| NwohImport.SumTotalsOfNoRows | import_nwoh_excel.py:93-102 | with no rows every bucket sum is zero |
| NwohImport.SumTotalsStep | import_nwoh_excel.py:150-174 | one more row adds its contributions to the sum of buckets |
| NwohImport.SumContributionsUncovered | import_nwoh_excel.py:150-174 | a row in none of the periods adds nothing to their sum |
| NwohImport.SumContributionsCoveredOnce | import_nwoh_excel.py:150-174 | a row in exactly one of the periods adds its bucket once |
| NwohImport.SumContributionsUndated | import_nwoh_excel.py:88-89 | an undated row adds nothing |
| NwohImport.TotalsPartition | import_nwoh_excel.py:150-174 | buckets of periods that split a period's dates add up to that period's bucket |
| NwohImport.CoversMonthsFrom | import_nwoh_excel.py:106 | months m..12 of a year contain a date once exactly when it falls in that year from month m on |
| NwohImport.YearIsSumOfMonths | import_nwoh_excel.py:150-174 | a year bucket is the sum of its twelve month buckets |
| NwohImport.YearPeriods | import_nwoh_excel.py:107 | one year key per listed year, in order |
| NwohImport.CoversYears | import_nwoh_excel.py:107 | distinct year keys contain a date once exactly when its year is listed |
| NwohImport.YearsSumToAllDates | import_nwoh_excel.py:163-174 | year buckets covering every dated row add up to the all-time bucket |
| NwohImport.GrandTotalsMatchYears | import_nwoh_excel.py:219-220 | without repeated dates, total_pnl and total_volume equal the sums over the year buckets |
| NwohImport.ImportNwoh | import_nwoh_excel.py:10-221 | the result holds the daily table and its key order (first-seen order, by DailyImport.DayOrderFirstSeen), the finalised month and year buckets (the totals of their periods), and grand totals summed over the daily table; without repeated dates these equal the sums over all rows |
| NwohImport.DailyPnlFromSheets | import_nwoh_excel.py:59-127 | end to end: a date's daily pnl is its gross revenue plus the fixed minus the floating payments of its five-minute rows |

## Left out

- Rounding to two decimals (`round(..., 2)`) is not modelled: all figures are exact reals. The truthiness tests on `gwa_node`, `gwa_basis` and `gwa_hub` (import_nwoh_excel.py:120, 142, 158, 171) act on values already rounded at :77-79, so for 0 < |x| < 0.005 the model takes the other branch: a raw basis of 0.004 gives no realized price in the source but one in the model.
- PpaRollup.DayFromSums: a group whose generation sums to 0 gets no weighted prices. pandas would give NaN for 0/0, but ±inf for a non-zero product over a zero sum, and `pd.notna` keeps ±inf. The model treats both cases as missing.
- PriceHistory.SortByStart: states only ordering and permutation. Rows with equal interval starts may come out in any order, because pandas' default sort is not stable.
- DailyImport.DayRecord: a Daily cell holding text (an Excel error string, say) is not modelled. There, `float()` raises and the whole import stops; the model has only numbers or missing cells.
- PriceHistory.LmpRow: an LMP is always a number. A NaN LMP is not modelled; in the source it gives a NaN basis, and since `NaN > -100` is false, such a point is "alert".
- PriceHistory.HistoricalPrices: the exception handler that returns `[]` on any error is not modelled; nothing in the modelled steps raises. A failed ERCOT fetch is modelled as the empty row sequence, which gives an empty history and so "no_data" in `Publisher.LatestData.Refresh`.
- The ERCOT fetch (`gridstatus`) and the clock (`datetime.now`, the 4-hour cutoff) are parameters: the LMP rows, the cutoff instant and the update timestamp. A missing table (`lmp_data is None`) is the empty row sequence.
- `data_time` is published as the interval start instant rather than its string form.
- The Flask routes, the HTML dashboard, `format_price` and logging are not modelled.
- The background thread, its lock, `time.sleep`, and the endless retry loop are not modelled. Each `LatestData` method is one critical section.
- `ALERT_THRESHOLD` is used only in the start-up banner, never in a computation, so it has no counterpart.
- Excel reading, column renaming, date parsing (`pd.to_datetime`, `strftime`) and the JSON output are not modelled. A row whose date does not parse has `date = None`. The hourly sheet is read but never used.
- The `asset`, `source` and `imported_at` fields of the result are not modelled.
- NwohImport.GrandTotalsMatchRows: relates the grand totals to the row totals only when no date repeats. With a repeated date, the daily table keeps the last row while the buckets add every row, so the two can differ (DailyImport.LastRowWins states which row is kept).
