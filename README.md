# energy-report: summary aggregation, verified

A Dafny model of the aggregation and classification core of the
energy-report scripts. They turn interval smart-meter readings for a
metering point (an NMI) into three things:
- daily summaries;
- seasonal summaries;
- the derived numbers the HTML reports show.

The model covers these pieces:

- **Calendar classifiers** (`Calendar`).
  - The time-of-day period of an hour.
  - The financial year, which ends in June.
  - The season of a month, with its sortable label "A - Summer" … "D - Spring".
  - The season-year rule, which rolls December into the next year's summer.
  - The fixed season day weights 90/92/92/91.
- **Readings** (`Readings`). The readings of a meter are grouped by channel. Channel `B1` is export (feed-in); every other channel is import.
- **Daily aggregation** (`Daily`, `DailyProperties`). This is `calc_daily_summary`.
  - Readings are accumulated per day, and import readings also per time-of-day bucket.
  - The buckets are rounded to 3 decimals, and the total is the sum of the rounded buckets.
  - One row is emitted per day that has an import reading.
- **Usage frame** (`Usage`). This is `get_usage_df`: import and export summed per timestamp.
- **Seasonal aggregation** (`Seasonal`, `SeasonalProperties`). This is `calc_seasonal_summary`.
  - Daily rows are grouped by (season-year, season).
  - Each column becomes the rounded mean over its group.
- **Summary store** (`Upserts`, `Store`). This models `update_daily_summaries` and `update_seasonal_summaries`.
  - The tables are maps keyed on their primary keys.
  - `upsert_all` is a keyed overlay.
  - `Store.SummaryStore` is a class whose methods update the two tables in place.
- **Year report** (`YearReport`), from report.py.
  - `get_years`.
  - `get_seasonal_data`.
  - The season-day-weighted year average of `get_year_season_data`.
- **NEM report** (`NemReport`), from nemreport/report.py.
  - The day series and clamped colour range of `build_daily_usage_chart`.
  - The per-day averages of `get_seasonal_data`.
  - The incomplete-month star of `get_month_data`.
  - The net and net-daily columns of `build_month_table`.

Each aggregator is written twice, once in summary.py and once in prepare_db.py. Each has one model, and the table cites both copies. model.py and summary.py likewise repeat the classifiers and `get_usage_df`.

How the model represents the program's values:

- **Energy.** Energy is an integer count of micro-kWh (`Units.KWh`). One step of a 3-decimal kWh value is `Units.Grid` micro-kWh.
  - `round(x, 3)` is `Units.Round3`: the nearest grid value, with ties to even.
  - `statistics.mean` followed by `round(…, 3)` is `Units.RoundedMean`.
  - The per-day ratios of nemreport are `real` quotients.
- **Dates and timestamps.** These are structured values (`Calendar.Date`, `Calendar.Timestamp`), not strings.
- **Dictionaries.** Python dicts iterate in insertion order. Each loop over `dict.keys()` is modelled by the sequence of keys in first-occurrence order.
- **Database reads.** These become inputs:
  - a `Store.Meter`, which holds the channels and their readings;
  - the rows of a query;
  - a function from year to query rows.

## Model

| member | source | states |
|---|---|---|
| Calendar.DaysInMonth | nemreport/report.py:310 | `monthrange` month length: between 28 and 31, 29 exactly for February of a Gregorian leap year, 28 exactly for February of a common year |
| Calendar.YearLength | nemreport/report.py:310 | the twelve month lengths add up to 366 in a leap year and 365 otherwise |
| Calendar.TimeOfDay | model.py:39-50 | Night iff the hour is before 4 or from 21 on, Morning iff in [4, 9), Day iff in [9, 16), Evening iff in [16, 21); summary.py:18-29 is the same function |
| Calendar.TimeOfDayFollowsWindows | model.py:39-50 | every hour 0..23 lies in exactly one of the half-open windows [0,4) Night, [4,9) Morning, [9,16) Day, [16,21) Evening, [21,24) Night, and `time_of_day` returns that window's period; summary.py:18-29 is the same function |
| Calendar.FiscalYear | model.py:53-59 | the financial year is the calendar year or the next one, and the next one exactly for July–December; summary.py:98-104 is the same function |
| Calendar.FiscalYearSpan | model.py:53-59 | a date is in financial year `fy` iff it is in January–June of `fy` or July–December of `fy - 1`; summary.py:98-104 is the same function |
| Calendar.FiscalYearMonotone | summary.py:98-104 | a later month never belongs to an earlier financial year |
| Calendar.SeasonOf | model.py:62-70 | a month that is not spring is one of its season's three months, and a month is spring iff it is none of summer's, autumn's or winter's (so any other number is spring); summary.py:107-115 is the same function |
| Calendar.SeasonsPartitionMonths | model.py:62-70 | a month gets season `s` iff it is one of that season's three months ({12,1,2}, {3,4,5}, {6,7,8}, {9,10,11}), so the four seasons partition the months; summary.py:107-115 is the same function |
| Calendar.SeasonLabelsSortInCalendarOrder | summary.py:107-115 | the labels "A - Summer" … "D - Spring" compare as strings exactly as the seasons order in the calendar |
| Calendar.StrLessIrreflexive | summary.py:107-115 | no label sorts before itself, so the label order is strict |
| Calendar.SeasonKeyIsMonthBlock | summary.py:136-138 | the (season-year, season) key of a date is the block of three consecutive months (December, January, February …) it falls in |
| Calendar.SeasonKeyMonotone | prepare_db.py:80-82 | later dates never get an earlier season key |
| Calendar.DecemberJoinsNextSummer | model.py:73-79 | December of year Y and January and February of Y+1 share the key (Y+1, Summer); summary.py:118-124 is the same rule |
| Calendar.DecimalRoundTrip | model.py:76-78 | the decimal text `str(year)` of a year parses back to that year |
| Calendar.SeasonFyLabel | model.py:73-79 | the label is the digits of a number, a space, then the season's label; the digits parse back to the season-year; summary.py:118-124 is the same function |
| Calendar.SeasonFyLabelIdentifiesKey | model.py:73-79 | two dates get the same `get_season_fy` label iff they have the same (season-year, season) key |
| Calendar.SeasonDaysAreCommonYearLengths | report.py:130-144 | the season weights 90/92/92/91 add up to 365 and are the season lengths of a common year (Summer counts 28 February days) |
| Readings.FlattenClassifiesByChannel | summary.py:57-59 | a reading is taken as export exactly when its channel is `B1` and as import for every other channel; prepare_db.py:30-32 is the same code |
| Units.Round3 | summary.py:68-73 | `round(x, 3)`: the result is on the 3-decimal grid, within half a step of `x`, an even number of steps at a tie, and leaves grid values unchanged |
| Units.RoundedMean | summary.py:147-163 | `round(mean(values), 3)`: a grid value within half a step of total/n |
| Units.RoundedMeanWithin | summary.py:147-163 | the rounded mean of values that lie between two grid values also lies between them |
| Daily.RowFor | summary.py:67-84 | the row of a day carries the nmi and the day; each of the four buckets and the export is a grid value within half a step of the day's raw sum for that period (for the export, of the day's export), so it is that sum rounded to 3 decimals; `imp` is the sum of the rounded buckets |
| Daily.DailySummary | summary.py:67-84 | every emitted row carries the meter's nmi, and its `imp` is the sum of its four rounded time-of-day buckets |
| Daily.AbsentDayHasNoImport | summary.py:55 | a day that was never keyed has all four buckets at 0 (the `defaultdict` default) |
| Daily.AddReading | summary.py:59-65 | one reading keeps the accumulators equal to the per-day bucket sums and export sums of all readings seen, with days in first-seen order |
| Daily.EmitRows | summary.py:67-84 | the emitted rows are, in key order, the rounded rows of the accumulated days |
| Daily.CalcDailySummary | summary.py:50-84 | the nested accumulation loop returns exactly the specified daily summary of the meter's channels; prepare_db.py:25-57 is the same code |
| DailyProperties.ImportDaysExact | summary.py:67 | the days iterated are exactly the days with an import reading, each once |
| DailyProperties.OneRowPerImportDay | prepare_db.py:40-57 | there is a row for day `d` iff some non-`B1` reading starts on `d`; export-only days get no row, and no day gets two rows |
| DailyProperties.ImportDayListed | summary.py:57-63 | a day is keyed iff a reading of a non-`B1` channel starts on it |
| DailyProperties.PeriodsCoverDay | summary.py:64-65 | a day's four buckets add up to the sum of all its import readings |
| DailyProperties.NoExportReadingsSumToZero | summary.py:56 | a day without `B1` readings has export sum 0 |
| DailyProperties.RowMatchesReadings | summary.py:68-73 | for every row, `imp` equals the sum of the four buckets, lies within 2 grid steps of the day's raw import, and `exp` is the day's export rounded (0 when the day has no `B1` reading) |
| DailyProperties.ExportReadingsKeepImports | summary.py:61-62 | appending export readings changes neither the import days nor any import bucket |
| DailyProperties.ExportChannelOnlyAddsExport | prepare_db.py:30-38 | adding a `B1` channel leaves the number of rows and every column except `exp` unchanged |
| DailyProperties.FourPeriodsExample | summary.py:50-84 | one reading per period on one day gives one row whose buckets are those readings and whose `imp` is their sum |
| Usage.UsageFrame | model.py:95-101 | the frame's index never repeats a timestamp; summary.py:199-204 is the same code |
| Usage.AbsentTimeHasNoImport | model.py:84 | a timestamp that was never keyed in `imp_values` has import 0 |
| Usage.AbsentTimeHasNoExport | model.py:85 | a timestamp that was never keyed in `exp_values` has export 0 |
| Usage.AddReading | model.py:86-93 | one reading keeps the two per-timestamp accumulators and their key orders equal to the import and export sums and first-seen timestamps of all readings seen |
| Usage.AddChannel | model.py:86-93 | the inner loop over one channel's readings adds them all to the per-timestamp sums |
| Usage.EmitFrame | model.py:95-101 | the frame holds, per index timestamp in order, the import sum (0 where none was summed) and the negated export sum (0 where none was summed); the index is the import timestamps, or the export timestamps when there are no import timestamps |
| Usage.GetUsageFrame | model.py:82-101 | the accumulation loop returns the usage frame: one row per import timestamp in first-seen order (per export timestamp when the meter has no import readings), with the import sum and the negated export sum; summary.py:179-204 is the same code |
| Usage.TimesExact | model.py:95-99 | the keys of `imp_values` (of `exp_values`) are exactly the starts of the import (export) readings, each once |
| Usage.TimesListReadings | model.py:86-93 | a timestamp is keyed in `imp_values` (`exp_values`) iff a reading of a non-`B1` (`B1`) channel starts then |
| Usage.OneRowPerTimestamp | model.py:95-101 | a row exists for a timestamp iff some non-`B1` reading starts then, or, on a meter with no non-`B1` reading at all, iff some `B1` reading starts then |
| Usage.ExportOnlyMeterHasZeroConsumption | model.py:96-101 | on a meter without import readings every row is at an export timestamp and has consumption 0 (the `fillna(0)` of the adopted index) |
| Usage.NoExportReadingsAtSumToZero | model.py:99-101 | a timestamp with no `B1` reading has export sum 0 |
| Usage.NoExportMeansZeroExport | model.py:99-101 | a row whose timestamp has no `B1` reading has export 0 (the `fillna(0)`) |
| Seasonal.Values | summary.py:139-144 | each column's list for a key has one entry per daily row with that key |
| Seasonal.SeasonKeysExact | summary.py:146 | the keys iterated are exactly the (season-year, season) keys of the daily rows, each once, and they are the keys with a non-empty group |
| Seasonal.RowFor | summary.py:146-165 | the item of a key carries the nmi and the key, and each column is a grid value within half a step of the mean of that column over the key's group |
| Seasonal.SeasonalSummary | summary.py:146-165 | one item per key, in key order, each carrying the nmi and the key |
| Seasonal.AbsentKeyHasNoValues | summary.py:130-131 | a key never seen has empty lists |
| Seasonal.AddRow | summary.py:133-144 | one daily row keeps the per-key lists equal to the column values of all rows seen, with keys in first-seen order |
| Seasonal.EmitItems | summary.py:146-165 | the averaging loop yields, in key order, one item per key of a non-empty group, holding the rounded means of that group |
| Seasonal.CalcSeasonalSummary | summary.py:127-165 | the grouping loop returns exactly the specified seasonal summary; prepare_db.py:71-109 is the same code |
| SeasonalProperties.OneItemPerSeasonKey | summary.py:136-146 | there is an item for key `k` iff some daily row's date has key `k` (December counted with the next year), and keys are distinct |
| SeasonalProperties.ValuesComeFromGroup | summary.py:138-144 | every value averaged for a key comes from a daily row with that key |
| SeasonalProperties.SeasonalFieldIsRoundedMean | summary.py:147-163 | every column of every item is the 3-decimal rounding of the mean of that column over the item's group, and the group is non-empty |
| SeasonalProperties.SeasonalMeanBetween | prepare_db.py:90-107 | a seasonal value lies between any grid bounds of the daily values in its group |
| SeasonalProperties.GroupsIgnoreRowOrder | summary.py:133-144 | reordering the daily rows changes no group's size or sum |
| SeasonalProperties.SummaryIgnoresRowOrder | summary.py:133-165 | the set of seasonal items does not depend on the order the query returns the daily rows in |
| Upserts.Upsert | summary.py:92-94 | every old key stays, every item's key is present, and the last item is stored under its key |
| Upserts.UpsertLookup | summary.py:92-94 | after an upsert a key is present iff it was present or some item has it; untouched keys keep their row, and an upserted key holds the last item with that key |
| Upserts.UpsertOverlays | summary.py:92-94 | an upsert overlays the table with the map of the items |
| Upserts.UpsertIdempotent | prepare_db.py:65-67 | upserting the same items twice leaves the table as after once |
| Upserts.UpsertIgnoresOrder | prepare_db.py:117-119 | upserting items with distinct keys gives the same table in any order |
| Upserts.UpsertAppend | summary.py:90-94 | upserting two batches in turn is upserting their concatenation |
| Upserts.UpsertBatchesConcat | summary.py:90-94 | the loop over nmis upserts the concatenation of all batches |
| Upserts.UpsertBatchesIdempotent | prepare_db.py:60-68 | re-running the per-nmi upsert loop with the same batches changes nothing |
| Store.DailyBatches | summary.py:89-91 | one batch of daily rows per metering point |
| Store.ListingsArePermutations | summary.py:133 | two listings of the same stored rows are permutations of each other |
| Store.SeasonalItemsHaveDistinctKeys | summary.py:173-175 | a seasonal batch never holds two items with the same primary key (nmi, year, season) |
| Store.SeasonalUpsertIgnoresListingOrder | summary.py:170-175 | the seasonal table after the upsert does not depend on the order the daily rows were listed in |
| Store.UpsertFilesByKey | summary.py:92-94 | a table whose rows sit under their own primary keys keeps that after an upsert |
| Store.UpsertKeepsRowProperty | summary.py:92-94 | a property of every row and every item holds for every row after an upsert |
| Store.DailyUpdateIdempotent | summary.py:87-95 | running `update_daily_summaries` twice on unchanged readings leaves the daily table as after once |
| Store.SeasonalUpdateIdempotent | summary.py:168-176 | running `update_seasonal_summaries` twice on unchanged daily rows leaves the seasonal table as after once |
| Store.SummaryStore.UpsertDaily | summary.py:92-94 | `upsert_all` on `daily_reads`: the table becomes the keyed overlay of the items, the seasonal table is unchanged, and rows stay filed under (nmi, day) with their buckets adding up |
| Store.SummaryStore.UpsertSeasonal | summary.py:173-175 | `upsert_all` on `season_reads`: the keyed overlay of the items under (nmi, year, season), the daily table unchanged |
| Store.SummaryStore.UpdateDailySummaries | summary.py:87-95 | the daily table becomes the old one upserted with each metering point's daily summary in turn; prepare_db.py:60-68 is the same code |
| Store.SummaryStore.QueryDaily | summary.py:133 | the query returns each stored daily row of the nmi exactly once, in an unspecified order |
| Store.SummaryStore.UpdateSeasonalSummaries | summary.py:168-176 | the seasonal table becomes the old one upserted with each metering point's seasonal summary of its stored daily rows; prepare_db.py:112-120 is the same code |
| YearReport.GetYears | model.py:31-37 | yields every year from the start year to the end year, ascending, each once, and nothing when the start is later; report.py:32-37 is the same code |
| YearReport.LatestImportsLookup | report.py:123-128 | the per-season import map holds a season iff some row has it, with the value of the last such row |
| YearReport.CollectSeasons | report.py:116-128 | the query loop fills the import and export maps with the last value per season |
| YearReport.YearTotalsByTerm | report.py:146-159 | `yr_sum` is the sum of avg × days over contributing seasons and `yr_days` the sum of their days |
| YearReport.YearSeasonData | report.py:130-169 | fails iff no season contributes weight days, and then with a division by zero; otherwise `yr_sum` is the weighted sum and the year average a grid value within half a step of `yr_sum / yr_days` |
| YearReport.GetYearSeasonData | report.py:115-169 | the year figures of the collected season averages, failing with a division by zero when no season contributes |
| YearReport.GetSeasonalData | report.py:108-113 | one entry per year of the range, each the figures of that year's seasons; fails iff some year has no contributing season |
| YearReport.YearAverageDefinedIff | report.py:146-160 | the year average is defined iff at least one season is present with a non-zero average |
| YearReport.YearDaysAtMost365 | report.py:130-159 | the weights used add up to at most 365, and to exactly 365 when all four seasons contribute |
| YearReport.YearSumWithin | report.py:146-159 | the weighted sum lies between the smallest and largest contributing average times the days |
| YearReport.YearAverageBetween | report.py:160 | the rounded year average lies between any grid bounds of the contributing season averages |
| YearReport.UniformSeasonsGiveThatAverage | report.py:130-160 | four seasons with the same non-zero average v give year average v and year sum 365·v |
| YearReport.ZeroAverageCountsAsMissing | report.py:131-144 | a season whose average is exactly 0 gets no sum and changes neither the year average nor the year sum, as if absent |
| NemReport.MinOf | nemreport/report.py:70 | `min` of a non-empty series is one of its values and below all of them |
| NemReport.MaxOf | nemreport/report.py:67-71 | `max` of a non-empty series is one of its values and above all of them |
| NemReport.DailyUsageChart | nemreport/report.py:55-71 | no chart exactly when the kind is export and the largest export is 0; otherwise one point per day, holding `imp`, `exp` or `imp - exp` by kind |
| NemReport.BuildDailyUsageChart | nemreport/report.py:46-71 | the loop fails on an unknown kind, fails on an empty day list (`max`/`min` of an empty list), and otherwise returns the chart |
| NemReport.ColourRangeClamped | nemreport/report.py:70-71 | both colour bounds lie in [-35, 35] kWh; `vmin` is either the minimum of the data (a data value at most every value) or -35 kWh, and it is -35 kWh only when some value is at most -35 kWh; `vmax` mirrors this with the maximum and 35 kWh; in-range values lie between them; `vmin <= vmax` holds iff some value is at most 35 kWh and some is at least -35 kWh |
| NemReport.NemSeasonalData | nemreport/report.py:282-299 | fails with division by zero iff a season has 0 days or the total is 0 days; otherwise returns per-season, TOTAL and EXPORT per-day averages |
| NemReport.SeasonalAverages | nemreport/report.py:282-299 | TOTAL times the total days is the total import, and EXPORT times the total days is the total export |
| NemReport.SeasonRatioLookup | nemreport/report.py:287-295 | the map holds a season iff a row names it, with the imp / num_days of the last such row |
| NemReport.TotalsWithin | nemreport/report.py:292-294 | the running totals of import lie between the smallest and largest per-day average times the total days |
| NemReport.TotalBetweenSeasons | nemreport/report.py:298 | TOTAL lies between the smallest and largest per-season per-day averages |
| NemReport.PositiveDays | nemreport/report.py:294 | rows with positive day counts give a positive total |
| NemReport.GetMonthData | nemreport/report.py:302-315 | fails iff some month is outside 1..12 (`monthrange` raises); otherwise one entry per row, in order |
| NemReport.EntryOf | nemreport/report.py:306-314 | an entry keeps every field of its row except the nmi, and is starred iff `num_days` is less than the days in that month |
| NemReport.StarExamples | nemreport/report.py:309-313 | 28 days of January and 28 of February 2024 are incomplete; 30 of April, 29 of February 2024, and 28 of February 2023 or 1900 are complete |
| NemReport.MonthTable | nemreport/report.py:321-323 | one table row per month entry |
| NemReport.MonthTableRowOf | nemreport/report.py:322-323 | the row keeps its entry; `net + exp == imp`; `net_daily` is defined iff `num_days != 0`, and then `net_daily × num_days == net` |
| NemReport.NetColumnAddsUp | nemreport/report.py:322 | the net column sums to total import minus total export |

## Left out

- SQLite access (`db.query`, `get_nmis`, `get_readings`, `get_channels`, `get_date_range`, `get_day_data`, nemreader's `get_nmi_channels`/`get_nmi_readings`). Query results become parameters. Within a metering point, only the daily-row query's order is modelled as open (`Store.SummaryStore.QueryDaily`). Channel and reading order is taken as given.
- `get_date_range`, with its MIN/MAX query and `isoparse`, is not part of this model. `YearReport.GetYears` takes the start and end dates.
- nemreport/model.py is not part of this model (`get_season_data`, `get_annual_data`, `get_day_profile(s)`, the `monthly_reads` table). Their rows are inputs, and a season name there is an arbitrary string.
- File ingestion: `import_nem_data` with its bare `except`, and all of nemreport/prepare_db.py. These are wrappers over the NEM12 reader.
- Presentation is not modelled:
  - calplot, plotly and great_tables output;
  - Jinja templates;
  - file copies, `webbrowser` and logging;
  - the module-level script code;
  - the heatmap scaling in `usage_heatmap`.

  `NemReport.BuildDailyUsageChart` returns the series and colour bounds instead of saving a figure.
- Units.Round3: rounds the exact decimal value half to even. Python rounds the nearest binary double, which can differ from this at a tie.
- Units.RoundedMean: `statistics.mean` of floats is taken as the exact mean. Float error is not modelled.
- NemReport.NemSeasonalData: the per-day averages are exact reals, not floats.
- `strftime`/`strptime` of days and `str`/`int` of years are not modelled: dates are structured values. The `"%Y-%m-%d"` key text is not modelled beyond the fact that distinct days have distinct keys.
- NemReport.GetMonthData: the month text `"YYYY-MM"` is taken as already split into two integers. The `ValueError` of `int()` on malformed text is not modelled.
- `get_usage_df` builds a pandas DataFrame. The model returns its rows (timestamp, consumption, export). When there are import timestamps, index alignment drops export at timestamps without import, as the frame does. When there are none, the empty frame adopts the export series' index, and the model gives one row per export timestamp with consumption 0. Column dtypes (the NaN-filled float columns) are not modelled.
- NemReport.MonthTableRowOf: polars division by zero yields inf or NaN rather than raising. The model gives no `net_daily` value (None) in that case.
- The `exp_values` map that `get_year_season_data` fills is never read by the source. It is modelled (`YearReport.CollectSeasons`) but feeds nothing.
- The season weights 90/92/92/91 are kept as written: a fixed common-year approximation. `Calendar.SeasonDaysAreCommonYearLengths` shows they miss 29 February in a leap-year summer.
- `NemReport.ColourRangeClamped` shows that when every day's value exceeds 35 kWh, `vmin` exceeds `vmax`. The model keeps this as written; the plotting library's reaction to it is presentation.
- Calendar.SeasonFyLabel requires a non-negative year (Python's `date` has years 1..9999). Day and hour ranges are not enforced on `Date`/`Timestamp`, because no modelled operation depends on them.
