# Utility cost and weather efficiency pipeline — a Dafny model

This project models the analysis core of a household utility tracker, written in Python with pandas. The tracker reads electric bills and heating-oil deliveries and combines them into one monthly cost table. It derives heating and cooling degree days (HDD/CDD) from daily weather and aggregates them per month. It joins costs with weather into an efficiency table, with a cost per degree day. Finally it compares 2024 with 2023 month by month: a raw saving, a saving normalised by degree days, and a running total.

Modules, one per source file, plus three shared ones:

- `Calendar` (calendar.dfy): months and dates, month ranges, truncation to the first of the month, and month ends.
- `Frames` (frames.dfy): `Option`, used as NaN. It also holds pandas' left merge (`Matches`, `Lookup`, `LeftJoin`), including duplicate right keys.
- `Aggregates` (aggregates.dfy): the NaN-skipping `sum`/`min`/`max`/`mean` reductions. It also holds per-month totals and the lemma that grouping conserves totals.
- `ProcessRawData` (process_raw_data.dfy): `calculate_rate`, the `YYYY-MM` bill month, the electric and oil tables, and `combine_utility_data`.
- `FetchWeather` (fetch_weather.dfy): the `WeatherDataFetcher` class, whose base temperature is fixed at construction. Its `CalculateDegreeDays` method writes the `HDD`/`CDD` columns into the caller's `DailyFrame`. The module also holds `process_monthly`, which is `resample('M')`.
- `CalculateEfficiency` (calculate_efficiency.dfy): `calculate_efficiency_metrics`. It is a method that truncates the caller's `UtilityFrame` date column in place, then returns the efficiency table and the rows it logs as suspicious.
- `AnalyzeSavings` (analyze_savings.dfy): `calculate_monthly_savings`. The method builds the 2023 and 2024 tables and the sorted list of common months. It then runs the loop as its own method, `AccumulateSavings`. That loop carries the running total and is proved against the `SavingsUpTo` specification. The loop body's per-month arithmetic (cost difference, degree days, normalised saving) is the method `MonthSavings`, proved against `NormalizedSavings`.

Values that may be NaN are `Option<real>`, and every comparison with a missing value is false. This matches the pandas behaviour the code relies on: `NaN > 0` is false, `sum` skips NaN, and `fillna` fills the gaps.

## Model

| member | source | states |
|---|---|---|
| ProcessRawData.CalculateRate | utility_analysis/process_raw_data.py:9-13 | No rate exactly when usage is missing or zero; otherwise rate times usage equals the amount |
| ProcessRawData.FormatThenParse | utility_analysis/process_raw_data.py:22-23 | Every month written as `YYYY-MM` parses back to the first day of that month |
| ProcessRawData.ParseBillMonth | utility_analysis/process_raw_data.py:22-23 | A bill month is read only from `YYYY-MM` text, and then gives day 1 of a month |
| ProcessRawData.ParseThenFormat | utility_analysis/process_raw_data.py:22-23 | Every text that parses is exactly its month written back as `YYYY-MM` |
| ProcessRawData.ProcessElectricData | utility_analysis/process_raw_data.py:15-32 | Fails exactly when some bill month cannot be read; otherwise gives one cost row and one rate row per bill, in order, dated the bill's month, with rate `calculate_rate(amount, kwh_used)` |
| ProcessRawData.ElectricDatesAreBillMonths | utility_analysis/process_raw_data.py:22-23 | Each electric row is dated day 1 of exactly the month its bill names |
| ProcessRawData.ProcessOilData | utility_analysis/process_raw_data.py:34-63 | One cost row and one rate row per grouped month, each being that month's summed amount, gallons and rate |
| ProcessRawData.OilRateRow | utility_analysis/process_raw_data.py:52-57 | A month's rate is missing exactly when its summed gallons are 0; otherwise rate times gallons equals the summed amount |
| ProcessRawData.OilMonths | utility_analysis/process_raw_data.py:47 | The groups are exactly the months with a delivery, strictly ascending |
| ProcessRawData.OilCostsConserved | utility_analysis/process_raw_data.py:47-50 | The monthly oil costs add up to the total of all deliveries |
| ProcessRawData.OilDatesUnique | utility_analysis/process_raw_data.py:59-63 | Oil cost dates are distinct and all fall on day 1 |
| ProcessRawData.CombineUtilityData | utility_analysis/process_raw_data.py:65-98 | No table exactly when both inputs are empty, since the date range has no bounds |
| ProcessRawData.CoveringMonths | utility_analysis/process_raw_data.py:70-75 | The range is non-empty, runs from the earliest bill's month to the latest bill's month, and steps one month at a time |
| ProcessRawData.CombinedTableShape | utility_analysis/process_raw_data.py:69-98 | One row per month from the earliest to the latest bill, consecutive and dated day 1; each cost is the source's amount for that date, or 0 when there is none |
| ProcessRawData.EveryBillIsCovered | utility_analysis/process_raw_data.py:69-96 | Every bill dated day 1 appears in the combined table with its amount |
| Calendar.MonthRangeExact | utility_analysis/process_raw_data.py:71-75 | The month-start range holds exactly the months between its bounds, each the successor of the one before |
| Calendar.Truncate | scripts/calculate_efficiency.py:24-25 | Truncation keeps the month, gives day 1, and leaves a first-of-month date unchanged |
| Calendar.MonthEnd | scripts/fetch_weather.py:50 | A bin label is in its month and falls on the month's last day |
| FetchWeather.WeatherDataFetcher.WithDefaultBase | scripts/fetch_weather.py:12-21 | A fetcher built without a base temperature uses 18 °C |
| FetchWeather.WeatherDataFetcher.constructor | scripts/fetch_weather.py:12-21 | The fetcher keeps the location and base temperature it is given |
| FetchWeather.HeatingDegrees | scripts/fetch_weather.py:38-40 | HDD is non-negative, 0 for a missing mean, and otherwise the larger of 0 and base minus mean |
| FetchWeather.CoolingDegrees | scripts/fetch_weather.py:42-44 | CDD is non-negative, 0 for a missing mean, and otherwise the larger of 0 and mean minus base |
| FetchWeather.DegreeDaysSplit | scripts/fetch_weather.py:38-44 | HDD and CDD are never both positive; HDD − CDD equals base − mean |
| FetchWeather.WeatherDataFetcher.CalculateDegreeDays | scripts/fetch_weather.py:36-46 | Writes one HDD and one CDD per day into the caller's frame, keeps its readings, and returns that same frame |
| FetchWeather.MonthlyRow | scripts/fetch_weather.py:50-58 | A month's row is labelled with its month end. tavg is the mean of the month's present readings, and missing exactly when there are none. tmin and tmax are missing exactly when no day has that reading; otherwise they are readings of the month and bound all of them. prcp, snow, HDD and CDD are the month's totals |
| FetchWeather.InMonthCounts | scripts/fetch_weather.py:50 | A month's bin holds each day of that month as many times as the table does, and no other day |
| FetchWeather.MonthlyBins | scripts/fetch_weather.py:50 | No bins exactly for an empty table; otherwise the first bin is the earliest day's month and the last the latest day's month |
| FetchWeather.ProcessMonthly | scripts/fetch_weather.py:48-60 | One aggregated row per monthly bin, in bin order |
| FetchWeather.MonthlyBinsExact | scripts/fetch_weather.py:50 | The bins are consecutive months without repetition |
| FetchWeather.EveryDayBinned | scripts/fetch_weather.py:50 | Every day's month is a bin |
| FetchWeather.MonthlyTableShape | scripts/fetch_weather.py:50-58 | Rows are labelled with month ends, consecutive, with distinct labels |
| FetchWeather.DegreeDayTotalsConserved | scripts/fetch_weather.py:56-57 | The monthly HDD and CDD sums add up to the daily sums |
| FetchWeather.PrecipitationTotalsConserved | scripts/fetch_weather.py:54-55 | The monthly prcp and snow sums add up to the daily sums, a missing reading counting 0 |
| FetchWeather.MonthlyDegreeDaysNonNegative | scripts/fetch_weather.py:36-57 | Degree days derived from a base temperature never give a negative month |
| FetchWeather.MonthlyTemperaturesOrdered | scripts/fetch_weather.py:51-53 | If every day has tmin ≤ tavg ≤ tmax, the month's min tmin ≤ mean tavg ≤ max tmax |
| Aggregates.MinPresent | scripts/fetch_weather.py:52 | Missing exactly when all values are missing; otherwise a present value at most every present value |
| Aggregates.MaxPresent | scripts/fetch_weather.py:53 | Missing exactly when all values are missing; otherwise a present value at least every present value |
| Aggregates.MeanPresent | scripts/fetch_weather.py:51 | Missing exactly when all values are missing; otherwise the mean times the number of present values is their sum |
| Aggregates.MeanBetweenMinAndMax | scripts/fetch_weather.py:51-53 | A present mean lies between the min and the max of the present values |
| Aggregates.GroupTotalsConserved | utility_analysis/process_raw_data.py:47-50 | Summing per month over months that cover every row, without repeats, gives the grand total |
| Frames.LeftJoin | scripts/calculate_efficiency.py:32 | A left merge has at least one output row per left row |
| Frames.LeftJoinRows | utility_analysis/process_raw_data.py:85-93 | Every output row of a left merge pairs a left row with a right row of the same key, or with nothing only when no right row has that key |
| Frames.LeftJoinUnique | scripts/calculate_efficiency.py:32 | With unique right keys, the left merge keeps the left shape: row i is left row i with its matching right row, if any |
| Frames.LeftJoinKeepsLeftRows | scripts/calculate_efficiency.py:32 | A left merge never drops a left row |
| CalculateEfficiency.GuardedRatio | scripts/calculate_efficiency.py:36-41 | Above 5 degree days, ratio times degree days equals the cost; otherwise, and for a missing value, 0 after `fillna` |
| CalculateEfficiency.AddPresent | scripts/calculate_efficiency.py:53 | The total is missing exactly when either part is; otherwise total − CDD equals HDD |
| CalculateEfficiency.EfficiencyRowOf | scripts/calculate_efficiency.py:32-66 | Keeps the utility columns; takes tavg, tmin, tmax, prcp, snow, HDD and CDD from the joined weather row, all missing without one; sets flags iff HDD/CDD > 0; computes total degree days and the three guarded ratios, cooling on electricity only |
| CalculateEfficiency.EfficiencyTable | scripts/calculate_efficiency.py:24-66 | At least one row per utility row. Each row carries a utility row's costs, dated the first of its month. Its weather columns are all those of a weather row of its month, or all missing exactly when the weather has none. Its flags, total degree days and three guarded ratios follow from its own values |
| CalculateEfficiency.TruncateUtility | scripts/calculate_efficiency.py:24 | Same rows, each dated the first of its month |
| CalculateEfficiency.TruncateWeather | scripts/calculate_efficiency.py:17-25 | Same rows, each weather label moved to the first of its month |
| CalculateEfficiency.Suspicious | scripts/calculate_efficiency.py:69-72 | The logged rows are exactly the rows whose cost per HDD exceeds 10 |
| CalculateEfficiency.SuspiciousCounts | scripts/calculate_efficiency.py:69-72 | Each such row is logged as many times as it occurs in the table, and no other row is logged |
| CalculateEfficiency.CalculateEfficiencyMetrics | scripts/calculate_efficiency.py:8-74 | Truncates the caller's date column in place and keeps its costs; returns the efficiency table of the original rows and the suspicious rows, without removing any |
| CalculateEfficiency.RatiosNeedEnoughDegreeDays | scripts/calculate_efficiency.py:36-59 | A non-zero ratio implies its degree days are present and above 5 |
| CalculateEfficiency.NoWeatherNoRatios | scripts/calculate_efficiency.py:32-66 | A month without weather has no degree days, no flags, and all ratios 0 |
| CalculateEfficiency.FewDegreeDaysNoRatios | scripts/calculate_efficiency.py:36-59 | With non-negative degree days totalling at most 5, all three ratios are 0 |
| CalculateEfficiency.CoolingRatioIgnoresOil | scripts/calculate_efficiency.py:45-50 | The cost per CDD does not depend on the oil cost |
| CalculateEfficiency.LeftJoinKeepsUtilityRows | scripts/calculate_efficiency.py:24-66 | With one weather row per month: one output row per utility row, in order, each exactly the efficiency row of the truncated utility row and the weather row of its month, if any; so costs are kept and HDD/CDD are present iff weather exists for that month, and then equal its values |
| CalculateEfficiency.UtilityMonthJoined | scripts/calculate_efficiency.py:24-32 | With one weather row per month, a utility date finds weather exactly when some weather row is of its month, and then takes that row's HDD and CDD |
| CalculateEfficiency.MonthlyWeatherJoinsOnce | scripts/calculate_efficiency.py:25-32 | Weather from `process_monthly` has one row per month after truncation |
| AnalyzeSavings.InYearMembers | scripts/analyze_savings.py:13-14 | A year's rows are exactly the table's rows dated in that year |
| AnalyzeSavings.CommonMonths | scripts/analyze_savings.py:17 | Every compared month has a row in 2023 and a row in 2024 |
| AnalyzeSavings.CommonMonthsExact | scripts/analyze_savings.py:17 | The compared months are exactly the months present in both years, strictly ascending |
| AnalyzeSavings.FirstRowOfMonth | scripts/analyze_savings.py:23-24 | The selected row belongs to the year's rows and to the month |
| AnalyzeSavings.FirstRowIsEarliest | scripts/analyze_savings.py:23-24 | The selected row is the first row of that month in table order |
| AnalyzeSavings.DegreeDays | scripts/analyze_savings.py:32-33 | Degree days are missing exactly when HDD or CDD is; otherwise their sum |
| AnalyzeSavings.NormalizedSavings | scripts/analyze_savings.py:36-39 | Without positive degree days in both years, the normalised saving is the raw saving |
| AnalyzeSavings.NormalizedSavingsScalesBaseYear | scripts/analyze_savings.py:36-37 | With positive degree days, normalised × dd2023 = cost2023 × dd2024 − cost2024 × dd2023 |
| AnalyzeSavings.SameWeatherNoAdjustment | scripts/analyze_savings.py:36-37 | Equal positive degree days in both years make the normalised saving the raw one |
| AnalyzeSavings.NoWeatherNoAdjustment | scripts/analyze_savings.py:36-39 | A row without positive degree days in both years has normalised saving equal to raw saving |
| AnalyzeSavings.SavingsRowOf | scripts/analyze_savings.py:23-50 | A month's row records the month, the running total it is given, the cost difference of the month's first 2023 and 2024 rows, their degree days, and the normalised saving of those costs and degree days |
| AnalyzeSavings.MonthSavings | scripts/analyze_savings.py:26-39 | One month's computation gives the raw saving, both years' degree days, and the normalised saving as specified |
| AnalyzeSavings.SavingsTable | scripts/analyze_savings.py:10-52 | One row per compared month |
| AnalyzeSavings.AccumulateSavings | scripts/analyze_savings.py:19-50 | The loop builds exactly the specified rows of the first k months, with the running total equal to the sum of their raw savings |
| AnalyzeSavings.CalculateMonthlySavings | scripts/analyze_savings.py:10-52 | Returns exactly the savings table of the input |
| AnalyzeSavings.RunningTotalIsPrefixSum | scripts/analyze_savings.py:20-47 | Each row's running total is the sum of the raw (not normalised) savings up to that row; the last equals the column total |
| AnalyzeSavings.SavingsTableRunningTotal | scripts/analyze_savings.py:20-47 | The same prefix-sum property for the table of any input |
| AnalyzeSavings.SavingsRowsCompareTheirMonth | scripts/analyze_savings.py:17-39 | Each row compares the first 2023 row and the first 2024 row of its month: raw saving is their cost difference, degree days are theirs, the normalised saving is computed from them, and months strictly increase |

## Left out

- Plotting, summary statistics, `main` functions, configuration loading, CSV reading and writing, and `save_rate_data` are not modelled. These are file I/O and presentation. The tables are passed in and returned as values.
- `fetch_data` is not modelled: it calls a weather service over the network. The source raises `ValueError` when the fetch returns no rows (scripts/fetch_weather.py:31-32), so `main` never passes an empty table to `process_monthly`. The model still defines that case: an empty daily table gives no bins (`MonthlyBins`).
- The PDF and language-model bill extraction scripts are not modelled. They are outside the analysis core.
- Logging is not modelled, except that the rows `calculate_efficiency_metrics` warns about are returned as the `suspicious` out-parameter.
- Real numbers are exact. IEEE floating-point rounding, infinities, and division by a tiny non-zero value are not modelled.
- Only the NaN values the code handles explicitly are modelled: missing kWh, gallons, weather readings, and HDD/CDD after a failed join. Bill amounts and costs are always present.
- pandas date parsing is modelled only for the canonical `YYYY-MM` text of years 0 to 9999. `to_datetime` also accepts other spellings, and rejects years outside the `Timestamp` range. Neither is modelled.
- The per-delivery `rate` column that `process_oil_data` computes is not modelled: it is dropped before the function returns.
- combine_utility_data on two empty tables: the code calls `date_range` with missing bounds, which raises. The model follows the code and returns no table (`CombineUtilityData`), not an empty one.
- CalculateEfficiency.EfficiencyTable: its own contract gives only a lower bound on the row count, not which utility row each output row comes from in order. The exact shape holds when the weather has one row per month (`LeftJoinKeepsUtilityRows`), which `process_monthly` guarantees (`MonthlyWeatherJoinsOnce`). With duplicate weather months the merge repeats utility rows, as pandas does.
