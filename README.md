# Complaint forecasting core, modelled in Dafny

This project models the forecasting core of a city complaint-analytics
dashboard and proves properties of that model.

The core works on monthly complaint data:

- **Batch precompute.** It buckets cases into months. It counts them per
  neighbourhood and month, and it derives a severity figure per month: the
  mean capped resolution time, for the city and per neighbourhood,
  department, division and category.
- **Volume forecasts.** The engine resolves a selection (neighbourhood ×
  item × level) to a slice of the monthly volume table. It makes the slice
  one contiguous monthly series and forecasts it. The statistical model is a
  parameter.
- **Trend and reliability.** The engine adds a rolling trend and a
  percentage change. It scores the recent fit by MAPE (mean absolute
  percentage error) and labels the forecast "Reliable", "Possibly
  Unreliable" or "Unreliable".
- **Severity forecasts.** The engine does the same for severity. It resolves
  severity tables, trims incomplete recent months by a closure-rate check,
  and pads the future frame flat to the horizon.
- **Forecast page.** Its callbacks normalise the neighbourhood selection,
  fill the item dropdown, fetch one forecast per selection, choose the drawn
  window and line style, and choose the alert colour.
- **Homepage loaders.** Two loaders build a forecast once and publish it
  through a ready flag. A reader asks them for the current month's
  figure.

## Modules

- `common.dfy` (`Common`): Option, Result, error kinds, sums, means, grouped counts, min/max.
- `text.dfy` (`Text`): `_norm_str`, `str.title`, `str.lower`, sorting of strings, and the number formatting of `str`, `:.0f` and `:,.0f`.
- `calendar.dfy` (`Calendar`): timestamps, months as indices (12·year + month − 1), month ends and `%Y-%m` labels.
- `tables.dfy` (`Tables`): rows with label attributes, row filtering and the `_CLEAN` companion columns.
- `series.dfy` (`Series`): monthly observations, sorting by month, the centred rolling mean, `pct_change`, interpolation with back and forward fill.
- `scoring.dfy` (`Scoring`): `classify_reliability`, `compute_recent_mape`, `month_closure_rate`.
- `forecast.dfy` (`Forecasting`): the configuration and `compute_forecast`.
- `volume.dfy` (`VolumeForecast`): `get_forecast`.
- `severity.dfy` (`SeverityForecast`): `get_severity_forecast`.
- `precompute.dfy` (`Precompute`): `prepare_base`, `compute_monthly_volume`, `compute_valid_citywide`, `compute_severity`.
- `page.dfy` (`ForecastPage`): `update_items_dropdown` and `update_forecasts`.
- `cell.dfy`, `master_loader.dfy`, `home_loader.dfy` (`ForecastCell`, `MasterForecastLoader`, `HomeForecastLoader`): the two homepage loaders.

## How the source is represented

- **Dates.** Every `ds` in the core is a month-end label, so dates are month
  indices. `DateOffset(years=k)` on a month end becomes "12·k months
  earlier". Creation and closure dates are full timestamps (year, month,
  day, second of day), because the closure-rate window compares against
  midnight.
- **Prophet.** The model is a function parameter `Fitter`. It maps the
  history either to None (the fit raised) or to a band (yhat, lower, upper)
  for every month. `make_future_dataframe` is modelled: the history's months
  plus the next `h` month ends.
- **Exceptions.** They become `Result` errors:
  - `KeyError` on a missing column becomes `MissingColumn(name)`;
  - a failing fit becomes `FitFailed`;
  - `reindex` on a repeated month becomes `DuplicateMonths`;
  - `.dt` on a column that holds no datetimes (`AttributeError`) becomes
    `NotDatetime`;
  - `pd.concat` of no frames (`ValueError`) becomes `NothingToConcat`.
- **pct_change.** Its values are `Finite(p)` | `Infinite(positive)`. A change
  from a zero value to a non-zero one is infinite in pandas, and
  `fillna(0)` does not remove it. 0/0 is NaN, which becomes 0.
- **Quantile, median and clock.** The 95% quantile and the per-type median
  of the precompute are parameters. So is the current month of the severity
  forecast and the clock reading of the homepage readers.
- **Page engine.** The page calls an `Engine` for each (neighbourhood, item)
  selection. The engine returns frames, returns no frames (the `ts is None or
  forecast is None` branch), or raises. `ForecastPage.VolumeEngine` and
  `ForecastPage.SeverityEngine` are `get_forecast` and `get_severity_forecast`
  with their configurations. The page properties hold for any engine.
- **Frames with untyped columns.** A forecast records whether its `ds` column
  holds datetimes (`dated`). Only the two empty frames an engine returns for
  an empty slice do not: `pd.DataFrame(columns=[...])` has object columns.
- **State.** The loader modules' global `forecast_df` / `forecast_ready`
  pair is a class with those two fields. Its methods update them in place.
  The loops of the source (the padding loop, the page's nested loops, the
  dropdown's set accumulation, the precompute steps) are methods with loop
  invariants. Each method is proved equal to a specification function, and
  the properties of the source are proved as lemmas about those functions.

Design points where the code, and so the model, behaves differently from
what its names, docstrings and comments suggest:

- Too short a history: `compute_forecast` returns the history itself as the
  "future" frame (app/utils/forecast_engine.py:174), not an empty one.
- An empty slice returns two empty frames with untyped columns and
  "Unreliable" (app/utils/forecast_engine.py:276-279, 339-342, 371-374). The
  page's "Not enough data" branch needs a `None` frame, which neither engine
  function ever returns (`ForecastPage.EnginesNeverNotEnough`). Instead,
  `.dt.strftime` at app/pages/forecast.py:241 raises on the untyped `ds`
  column, so a selection with an empty slice makes the callback fail
  (`ForecastPage.EmptySliceFails`). The master loader's summary raises the
  same way at app/utils/forecast_loader.py:36
  (`MasterForecastLoader.BuildThenSummary`). Before the volume engine returns
  those frames, its debug line reads the table's DEPARTMENT column
  (app/utils/forecast_engine.py:270-271); on a table without one the call
  fails with KeyError, the page fails with that error and the master build
  leaves the cell loading (`VolumeForecast.GetForecast`). A severity series that the trim
  empties still gives datetime frames, which do not raise.
- A percentage change from a zero month is infinite, not 0%. Only 0/0
  becomes 0 (`Series.PctChanges`).
- `compute_monthly_volume` writes no `LEVEL` column (precompute/forecast.py:17-34).
  `get_forecast` filters on `LEVEL` first (app/utils/forecast_engine.py:256),
  so on that table it raises `KeyError`. The model states this as
  `MissingColumn("LEVEL")` (`VolumeForecast.Slice`). The volume page then
  always fails with that error (`ForecastPage.VolumeWithoutLevelFails`), and
  the master loader's build leaves the cell not ready
  (`MasterForecastLoader.MasterCell.Build`).
- The top-level severity model (`SeverityForecast.TrimBoundOf`,
  `SeverityForecast.SeverityFuture`, `SeverityForecast.FromSeries`,
  `SeverityForecast.SeverityForecast`, `SeverityForecast.GetSeverityForecast`)
  and the page's view (`ForecastPage.ForecastView`,
  `ForecastPage.UpdateForecasts`) use the corrected forms of Findings 1, 2
  and 3, the page's alert colour included: every case of the month counts
  toward the closure rate, the padding grows the window to the horizon, and
  the alert takes the colour of the forecasts' labels. The source as written
  is modelled beside them (`Scoring.ClosureRateMissesLastDay`,
  `SeverityForecast.FutureAsWritten`, `ForecastPage.AlertColourAsWritten`).
- The severity trim is computed on the source rows' months. The trim keeps
  months strictly before the chosen bound, so one or two months go, as the
  comment at app/utils/forecast_engine.py:388 says, but only when the slice
  has two rows or more (app/utils/forecast_engine.py:389).

## Model

| member | source | states |
|---|---|---|
| Text.NormStr | app/utils/forecast_engine.py:30-36 | the result has only single plain spaces between words and nothing to strip at either end, and it keeps exactly the non-space characters of the input, in order |
| Text.NormStrIdempotent | app/utils/forecast_engine.py:30-36 | normalising twice gives the same as normalising once |
| Text.NormStrFixesNormal | app/utils/forecast_engine.py:30-36 | a string already in normal form is returned unchanged |
| Text.Clean | app/utils/forecast_engine.py:43-45 | the `_CLEAN` form of a label is in normal form, has as many non-space characters as the label, is title-cased (each letter that starts a run of letters upper-case, each letter after a letter lower-case), and agrees with the normalised label up to the case of its letters |
| Text.TitleFromLetters | app/utils/forecast_engine.py:45 | `str.title` upper-cases each letter that starts a run of letters and lower-cases every other letter |
| Text.TitleCasedForm | app/utils/forecast_engine.py:45 | the title form is title-cased and differs from its input only in the case of its letters |
| Text.CleanIdempotent | app/utils/forecast_engine.py:258-265 | cleaning a cleaned label changes nothing, so matching a cleaned selection against a `_CLEAN` column is stable |
| Text.TitleKeepsNormal | app/utils/forecast_engine.py:45 | title-casing a normalised label keeps it normalised |
| Text.SortStrings | app/pages/forecast.py:151 | the result is strictly ascending and holds exactly the input's strings |
| Text.RoundHalfEven | app/utils/forecast_loader.py:43 | the integer is within one half of the value, a tie goes to the even neighbour, and a non-negative value rounds to a non-negative integer |
| Text.GroupThousandsDigits | app/utils/forecast_loader.py:43 | the thousands separators are only inserted: removing the commas gives back the digits |
| Text.NatToStringRoundTrip | app/forecast_loader.py:60 | reading the decimal text of a natural number gives the number back |
| Calendar.MonthOfWindow | precompute/forecast.py:12 | a timestamp lies in month m exactly when it is at or after the first midnight of m and before the first midnight of m + 1 |
| Calendar.MonthEnd | app/utils/forecast_engine.py:124-130 | the month-end label of m is a valid timestamp of month m, at midnight, on the month's last day |
| Calendar.MonthStart | app/utils/forecast_engine.py:129 | `month_end.replace(day=1)` is midnight on day 1 of the same month |
| Calendar.YearMonthStrRoundTrip | precompute/forecast.py:34 | the `%Y-%m` label of a month reads back to that month, so different months get different labels |
| Tables.Where | app/utils/forecast_engine.py:256-265 | a boolean filter keeps only rows that pass, each from the input, and every row that passes |
| Tables.WithClean | app/utils/forecast_engine.py:45 | adding one companion adds exactly that column and sets it on every row from the row's label |
| Tables.AddCleanColumns | app/utils/forecast_engine.py:43-45 | every label column present gets its cleaned companion and nothing else changes; rows, months and values are kept |
| Tables.CleanColumnNames | app/utils/forecast_engine.py:80-82 | each companion column is named after its label column with `_CLEAN` appended |
| Series.SortByDs | app/utils/forecast_engine.py:164 | sorting by month gives a permutation of the series in month order |
| Series.SortByDsStrict | app/utils/forecast_engine.py:164 | sorting a series whose months are distinct makes the months strictly increasing |
| Series.SortByDsSorted | app/utils/forecast_engine.py:288 | sorting a series already in strictly increasing month order changes nothing |
| Series.WindowContains | app/utils/forecast_engine.py:111-112 | the centred window of a position contains it, lies within the series and has at most `window` elements |
| Series.RollingTrend | app/utils/forecast_engine.py:111-112 | the rolling mean has one value per input value |
| Series.RollingTrendWithin | app/utils/forecast_engine.py:111-112 | each rolling value lies within the bounds of the values in its window |
| Series.RollingTrendConstant | app/utils/forecast_engine.py:111-112 | a constant series is its own rolling trend |
| Series.PctChanges | app/utils/forecast_engine.py:195-197 | the first change is 0; after a non-zero value, applying the change to it gives the next value; after a zero, the change is 0 exactly when the next value is 0, and otherwise infinite with the sign of the next value |
| Series.PctStepInverse | app/utils/forecast_engine.py:195-197 | a change from a non-zero value is finite and applying it gives the later value back |
| Series.PctChangesConstant | app/utils/forecast_engine.py:173 | a constant series changes by 0% everywhere |
| Series.Interpolate | app/utils/forecast_engine.py:386 | the filled series has the input's length and keeps every present value |
| Series.InterpolateWithin | app/utils/forecast_engine.py:386 | every filled value lies within the range of the present values |
| Scoring.Classify | app/utils/forecast_engine.py:115-122 | no MAPE is "Unreliable"; otherwise "Reliable" exactly when the MAPE is at most 0.6·max, "Possibly Unreliable" exactly when it is above that but at most max, and "Unreliable" exactly when it is above max |
| Scoring.ClassifyMonotone | app/utils/forecast_engine.py:115-122 | a stricter threshold never gives a better label |
| Scoring.MaxDs | app/utils/forecast_engine.py:146 | the latest month is an upper bound of the frame's months and is one of them |
| Scoring.Apes | app/utils/forecast_engine.py:147-154 | the errors are non-negative, at most one per row, and there are none exactly when no row is recent, valued on both sides and positive |
| Scoring.RecentMape | app/utils/forecast_engine.py:142-155 | no MAPE exactly when the frame is empty, lacks `y` or `yhat`, or has no qualifying recent row; a MAPE is non-negative |
| Scoring.RecentMapeAtMost | app/utils/forecast_engine.py:154 | if every qualifying row is off by at most a fraction b, the MAPE is at most 100·b |
| Scoring.RecentMapeZeroIff | app/utils/forecast_engine.py:154 | the MAPE is 0 exactly when every qualifying row is predicted exactly |
| Scoring.RateAmong | app/utils/forecast_engine.py:134-140 | no rate exactly when no case is selected; otherwise the rate is in [0, 1] and is 1 exactly when every selected case is closed |
| Scoring.ClosureRateAsWritten | app/utils/forecast_engine.py:124-140 | as written: no rate exactly when no case falls between midnight on day 1 and midnight on the last day; otherwise a rate in [0, 1] |
| Scoring.ClosureRate | app/utils/forecast_engine.py:124-128 | over the whole month: no rate exactly when no case was created in it; otherwise in [0, 1], and 1 exactly when every case of the month is closed |
| Scoring.AsWrittenWindow | app/utils/forecast_engine.py:129-132 | the written window is the month minus every instant after midnight on its last day |
| Scoring.ClosureRateMissesLastDay | app/utils/forecast_engine.py:129-132 | an open case created at 14:00 on 30 September 2025 gives no rate as written, where the whole month gives 0 |
| Forecasting.ConfigsValid | app/utils/forecast_engine.py:6-19 | both configurations ask for at least one month of history, a window of at least one and a horizon of at least one |
| Forecasting.Degenerate | app/utils/forecast_engine.py:167-177 | the short-circuit frame has one row per month, carries the month and value with yhat, lower and upper equal to the value, and its first change is 0 |
| Forecasting.Assemble | app/utils/forecast_engine.py:190-197 | each merged month keeps its actual value and its band, with the rolling trend and change of the actual-or-predicted series; the first change is 0 |
| Forecasting.MergedFrame | app/utils/forecast_engine.py:184-197 | the outer merge has the history's months with their values, then the `h` months after the last one without values, every month with its predicted band |
| Forecasting.Fitted | app/utils/forecast_engine.py:179-214 | the fitted forecast's label is the classification of its MAPE, and the MAPE is non-negative |
| Forecasting.ComputeForecast | app/utils/forecast_engine.py:158-214 | it fails exactly when the sorted history is long enough and varied and the fit fails; the label is always the classification of the MAPE |
| Forecasting.ShortCircuit | app/utils/forecast_engine.py:166-177 | too short or constant a history never consults the model: both frames are the history with predictions equal to the actuals, "Unreliable", no MAPE |
| Forecasting.SortedYsEqual | app/utils/forecast_engine.py:164-167 | sorting keeps a constant series constant, so the `nunique` test does not depend on row order |
| Forecasting.MergedStrict | app/utils/forecast_engine.py:184-188 | the merged months strictly increase |
| Forecasting.FittedSplitsAtHistory | app/utils/forecast_engine.py:209-212 | splitting at the last actual month cuts the merged frame right after the history |
| Forecasting.FittedMape | app/utils/forecast_engine.py:199-207 | the guard on valid rows never changes the MAPE: without a valid row no row qualifies for the recent window either |
| Forecasting.FittedHistory | app/utils/forecast_engine.py:210-211 | the history frame is exactly the sorted history with its values and predicted band |
| Forecasting.FittedFuture | app/utils/forecast_engine.py:212 | the future frame is exactly the `h` months after the last actual month, without values, with their band |
| Forecasting.SufficientFits | app/utils/forecast_engine.py:179-214 | with enough varied history and a successful fit, the result is the fitted forecast of the series sorted by month |
| Forecasting.HistoryIsSeries | app/utils/forecast_engine.py:158-214 | whichever branch runs, a series in month order comes back as the history frame with the same months and values |
| VolumeForecast.LevelIndex | app/utils/forecast_engine.py:230-234 | the item column is DEPARTMENT or DIVISION exactly for those levels, case-insensitively, and CATEGORY for every other level |
| VolumeForecast.LevelKeyCases | app/utils/forecast_engine.py:238-252 | for the three known levels, the four LEVEL keys tell the four kinds of selection apart, in both directions |
| VolumeForecast.Slice | app/utils/forecast_engine.py:256-265 | a missing LEVEL, neighbourhood or item column fails with its name, in that order; otherwise the slice has exactly the table's rows of the level key, neighbourhood and item |
| VolumeForecast.VolumeSeries | app/utils/forecast_engine.py:282-298 | one observation per month from the slice's first to its last month, each carrying the month's summed Count |
| VolumeForecast.VolumeSeriesContiguous | app/utils/forecast_engine.py:292-298 | the series' months strictly increase, so none repeats and sorting leaves it alone |
| VolumeForecast.VolumeSeriesConserves | app/utils/forecast_engine.py:282-298 | a month without rows counts 0, and the monthly counts add up to the slice's total Count |
| VolumeForecast.GetForecast | app/utils/forecast_engine.py:218-302 | a slice error is returned as is; an empty slice fails with `MissingColumn("DEPARTMENT")` when the table has no DEPARTMENT column (the debug read at lines 270-271), and otherwise gives two empty frames with untyped columns, "Unreliable" and no MAPE; the label is the classification of the MAPE; the frames hold datetimes exactly when the slice is not empty |
| VolumeForecast.VolumeHistory | app/utils/forecast_engine.py:282-302 | whenever there is history, the history frame has one row per month from the slice's first to its last, each with that month's summed Count |
| VolumeForecast.SliceHistory | app/utils/forecast_engine.py:282-302 | the forecast of a non-empty slice's monthly series, when it succeeds, has a history running month by month from the slice's first month to its last, each row carrying that month's summed Count |
| SeverityForecast.ItemRows | app/utils/forecast_engine.py:355-365 | the filtered rows are exactly the table's rows that pass the filters whose columns the table has |
| SeverityForecast.SeveritySlice | app/utils/forecast_engine.py:327-365 | no rows exactly when the level key names no table; all items read the citywide table whatever the neighbourhood; otherwise the filtered rows of the level's table |
| SeverityForecast.ValueInRows | app/utils/forecast_engine.py:377-382 | a month has a value exactly when some row has that month, and then the value is that row's Severity |
| SeverityForecast.ValueInRow | app/utils/forecast_engine.py:377-382 | with one row per month, a row's month carries that row's value |
| SeverityForecast.Gaps | app/utils/forecast_engine.py:379-385 | the reindexed column has one entry per month of the span, each the Severity of that month if a row has it |
| SeverityForecast.SeveritySeries | app/utils/forecast_engine.py:376-386 | the series runs over every month from the slice's first to its last |
| SeverityForecast.SeveritySeriesKeeps | app/utils/forecast_engine.py:380-386 | a month with a row keeps that row's Severity after filling |
| SeverityForecast.SeveritySeriesWithin | app/utils/forecast_engine.py:386 | every filled value lies within the range of the slice's values |
| SeverityForecast.SeveritySeriesStrict | app/utils/forecast_engine.py:379-385 | the series' months strictly increase |
| SeverityForecast.SecondLast | app/utils/forecast_engine.py:390-392 | the second-latest month is one of the months and, when an earlier month exists, lies below the latest and above every other |
| SeverityForecast.TwoMonthsHaveSecond | app/utils/forecast_engine.py:389-392 | two rows of distinct months always have a month below the latest |
| SeverityForecast.TrimIsPrefix | app/utils/forecast_engine.py:409-411 | keeping the months before a bound keeps a prefix of the series |
| SeverityForecast.TrimRule | app/utils/forecast_engine.py:406-411 | the bound is the latest month exactly when the second-latest is at least 90% closed, otherwise the second-latest; both lie within the series |
| SeverityForecast.TrimmedSeries | app/utils/forecast_engine.py:388-411 | after the trim, the series holds every month from the first up to the bound, and months with a row keep its value |
| SeverityForecast.FutureWindow | app/utils/forecast_engine.py:463-464 | the window has at most `horizon` rows, each from the merged frame and none before the current month |
| SeverityForecast.Padded | app/utils/forecast_engine.py:466-486 | exactly `horizon` rows: the window, then flat months from the start month on |
| SeverityForecast.SeverityFuture | app/utils/forecast_engine.py:462-486 | with the corrected padding, the future frame always has exactly `horizon` months |
| SeverityForecast.PadFuture | app/utils/forecast_engine.py:466-486 | the padding loop, appending one month per iteration, builds exactly the padded frame |
| SeverityForecast.WindowOrdered | app/utils/forecast_engine.py:463-476 | the window of an ordered frame is ordered, and padding starts the month after its last row |
| SeverityForecast.WindowAt | app/utils/forecast_engine.py:463-464 | the window is a run of consecutive rows of the merged frame |
| SeverityForecast.PaddedOrdered | app/utils/forecast_engine.py:471-486 | flat months appended after an ordered window that ends before the start month keep the frame ordered |
| SeverityForecast.SeverityFutureOrdered | app/utils/forecast_engine.py:462-486 | the future frame is ordered by month and starts no earlier than the current month; padded months follow each other month by month, without a value and with change 0 |
| SeverityForecast.PadOverwrites | app/utils/forecast_engine.py:478-479 | as written, when the window's labels already hold `len(future_df)`, every padded month overwrites the same row and the frame does not grow |
| SeverityForecast.PaddingLosesMonths | app/utils/forecast_engine.py:478-486 | six months of history, horizon 12, current month eight months after the first: the frame as written keeps 10 rows where 12 are due |
| SeverityForecast.ExampleWindow | app/utils/forecast_engine.py:463-464 | in that case (a merged frame of eighteen consecutive months, the current month eight after the first) the window is the frame's last ten rows, labelled 8 to 17 |
| SeverityForecast.MergedRowsStrict | app/utils/forecast_engine.py:447-452 | the merged frame of a series in month order is in month order |
| SeverityForecast.FromSeries | app/utils/forecast_engine.py:427-492 | it fails exactly when the series is long enough and the fit fails; the label is the classification of the MAPE; with the corrected padding, a fitted future has exactly the horizon's months; the frames hold datetimes |
| SeverityForecast.ShortSeries | app/utils/forecast_engine.py:427-434 | too short a series never consults the model: both frames are the series with predictions equal to the values, "Unreliable", no MAPE |
| SeverityForecast.FromSeriesHistory | app/utils/forecast_engine.py:458-460 | whichever branch runs, a series in month order comes back as the history frame |
| SeverityForecast.FromSeriesFuture | app/utils/forecast_engine.py:462-486 | with the corrected padding, a fitted future has exactly the horizon's months, in order, none before the current month; padded months carry no value and change 0 |
| SeverityForecast.SeverityForecast | app/utils/forecast_engine.py:305-492 | with the corrected closure rate and padding: an unknown level key, and a known key whose selection has no rows, give two empty frames; a repeated month in a non-empty selection fails with `DuplicateMonths`; the only failures are a repeated month and a failed fit; the label is the classification of the MAPE; the frames hold datetimes exactly when the selection has rows |
| SeverityForecast.AllItemsIgnoresNeighbourhood | app/utils/forecast_engine.py:351-354 | choosing all items gives the same forecast for every neighbourhood |
| SeverityForecast.SeverityHistory | app/utils/forecast_engine.py:376-460 | with two source months or more, the history frame holds every month from the first up to the trim bound, each month with a row carrying its Severity |
| SeverityForecast.SeverityForecastOfRows | app/utils/forecast_engine.py:376-492 | a selection with rows of distinct months is the forecast of its trimmed series |
| SeverityForecast.TrimmedHistory | app/utils/forecast_engine.py:388-460 | the forecast of a trimmed series has as history frame every month from the first up to the bound, with the rows' values |
| SeverityForecast.GetSeverityForecast | app/utils/forecast_engine.py:305-492 | the step-by-step procedure (filters, trim, padding loop), with the corrected closure rate and padding, computes exactly the specification `SeverityForecast` |
| SeverityForecast.SelectSeverity | app/utils/forecast_engine.py:327-365 | filtering one condition at a time gives exactly the slice's rows |
| SeverityForecast.SelectCases | app/utils/forecast_engine.py:394-404 | filtering the case table one condition at a time gives exactly the cases whose closure decides the trim |
| SeverityForecast.Trim | app/utils/forecast_engine.py:376-411 | the built and trimmed series is exactly the trimmed specification series |
| SeverityForecast.SeriesForecast | app/utils/forecast_engine.py:427-492 | the fit-and-pad procedure gives exactly the forecast of the series |
| Precompute.PrepareBase | precompute/forecast.py:10-13 | one row per case, the case unchanged, with a month exactly when the case has a creation date |
| Precompute.PrepareBaseMonth | precompute/forecast.py:12 | a case lands in month m exactly when it was created from the first midnight of m and before the first midnight of m + 1 |
| Precompute.NeighKeys | precompute/forecast.py:21 | the neighbourhood groups are sorted, include every row's neighbourhood (a null one as "CITYWIDE"), and are none exactly for an empty base |
| Precompute.MonthsOf | precompute/forecast.py:24-26 | a group's months strictly ascend and include the month of every dated row of the group |
| Precompute.MonthWitness | precompute/forecast.py:24-26 | every listed month is the month of some dated row of the group |
| Precompute.VolumeRows | precompute/forecast.py:22-28 | one output row per (neighbourhood, month) key, with that neighbourhood, month, count and `%Y-%m` label |
| Precompute.MonthlyVolume | precompute/forecast.py:17-34 | `pd.concat` fails exactly on an empty base, with `NothingToConcat`; otherwise the frame is the groups' counts, concatenated in group order |
| Precompute.ComputeMonthlyVolume | precompute/forecast.py:17-34 | the loop over groups, appending each group's counts, builds exactly the specification `MonthlyVolume`, its failure included |
| Precompute.MonthlyVolumeRows | precompute/forecast.py:17-34 | every count is positive and is the number of rows of its neighbourhood and month; no key repeats; a row without a neighbourhood counts under "CITYWIDE" |
| Precompute.PairsDistinct | precompute/forecast.py:21-31 | no (neighbourhood, month) key appears twice |
| Precompute.PairsCover | precompute/forecast.py:21-31 | every dated row's key is listed |
| Precompute.PairPositive | precompute/forecast.py:22-26 | every listed key has at least one row |
| Precompute.MonthlyVolumeConserves | precompute/forecast.py:17-34 | the counts add up to the number of dated rows |
| Precompute.CitywideRows | precompute/forecast.py:42-48 | one row per listed month, with its row count and `%Y-%m` label |
| Precompute.ValidCitywideRows | precompute/forecast.py:41-48 | the months ascend strictly, every dated row's month is listed, and every count is positive |
| Precompute.ValidCitywideConserves | precompute/forecast.py:41-48 | the counts add up to the number of dated rows |
| Precompute.Clip | precompute/forecast.py:65 | a missing value stays missing; a present one is at most the cap, kept exactly when it is at most the cap, else the cap |
| Precompute.Capped | precompute/forecast.py:63-65 | each row's working value is its clipped resolution time |
| Precompute.CapResolution | precompute/forecast.py:63-65 | the row-by-row assignment gives exactly the capped rows, all within the cap |
| Precompute.Latest | precompute/forecast.py:68 | no latest month exactly when no row has a month; otherwise the latest month bounds every row's month and is one of them |
| Precompute.TrimDropsLatestTwo | precompute/forecast.py:67-70 | the trim keeps exactly the rows of months before the two latest ones |
| Precompute.MedianAtMost | precompute/forecast.py:73 | a median of capped values is at most the cap |
| Precompute.FilledRow | precompute/forecast.py:74-78 | a present value is kept; a missing one takes its case type's median |
| Precompute.Impute | precompute/forecast.py:72-78 | imputation keeps one row per row, and row i is row i with a missing RESOLUTION filled from its CASE TYPE's median (`FilledRow`) |
| Precompute.ImputeResolution | precompute/forecast.py:72-78 | the row-by-row assignment gives exactly the imputed rows |
| Precompute.ImputeAtMost | precompute/forecast.py:72-78 | imputation keeps every value within the cap |
| Precompute.DropMissing | precompute/forecast.py:81 | the kept rows are exactly the input's rows with a value |
| Precompute.CleanedRows | precompute/forecast.py:61-81 | after the four steps every row has a month before the two latest ones and a value at most the cap |
| Precompute.GroupMeanAtMost | precompute/forecast.py:86-90 | the mean of values at most the cap is at most the cap |
| Precompute.GroupMeanWithin | precompute/forecast.py:86-98 | a group's mean RESOLUTION lies between any lower and upper bound of the group's values |
| Precompute.SevMonths | precompute/forecast.py:86-90 | the months with a valued row strictly ascend |
| Precompute.SevMonthCover | precompute/forecast.py:86-90 | every valued row's month is listed |
| Precompute.SeverityCity | precompute/forecast.py:86-90 | one row per listed month, without labels |
| Precompute.SeverityCityWithin | precompute/forecast.py:86-90 | a month's citywide severity is the mean of that month's values: it lies between any lower and upper bound of them, so between their least and greatest, and a month whose values are all v has severity v |
| Precompute.CellLabels | precompute/forecast.py:94-98 | a month's labels are strictly ascending |
| Precompute.MonthCells | precompute/forecast.py:94-98 | one row per label of the month, carrying that month and that label |
| Precompute.MonthCellsWithin | precompute/forecast.py:94-98 | a cell's severity is the mean of the cell's values: it lies between any lower and upper bound of them, so between their least and greatest, and a cell whose values are all v has severity v |
| Precompute.CellRowsOrdered | precompute/forecast.py:94-122 | the rows of a labelled table ascend by month and, within a month, strictly by label |
| Precompute.SeverityOrdered | precompute/forecast.py:86-122 | the citywide table ascends strictly by month and each labelled table by month, then strictly by label |
| Precompute.ComputeSeverity | precompute/forecast.py:55-123 | the step-by-step procedure computes exactly the aggregation of the cleaned rows |
| Precompute.SeverityCityAtMost | precompute/forecast.py:86-90 | every citywide Severity is at most the cap |
| Precompute.SeverityAtMostCap | precompute/forecast.py:55-123 | every Severity of every table is at most the cap |
| ForecastPage.Normalise | app/pages/forecast.py:168-171 | an empty selection becomes ["CITYWIDE"], a single string a one-element list, a list is kept; the result is never empty |
| ForecastPage.NormaliseIdempotent | app/pages/forecast.py:141-144 | normalising a normalised selection changes nothing |
| ForecastPage.LevelColumn | app/pages/forecast.py:139-140 | the column is DEPARTMENT or DIVISION exactly for those levels, case-insensitively, and CATEGORY otherwise |
| ForecastPage.ItemsOf | app/pages/forecast.py:147-149 | an item is listed for a neighbourhood exactly when some case in its scope carries it |
| ForecastPage.ItemSeqMembers | app/pages/forecast.py:146-149 | an item is offered exactly when some case of one of the selected neighbourhoods carries it |
| ForecastPage.Choices | app/pages/forecast.py:151 | one option per item, captioned and valued by the item |
| ForecastPage.SortedItems | app/pages/forecast.py:151 | the result is strictly ascending and holds exactly the set's items |
| ForecastPage.UpdateItemsDropdown | app/pages/forecast.py:138-153 | "All Items" comes first, then each offered item once, in sorted order; the value is reset to "ALL" |
| ForecastPage.Tail | app/pages/forecast.py:200-201 | the last n rows, or all of them when there are fewer |
| ForecastPage.LastActual | app/pages/forecast.py:198 | none exactly for an empty history; otherwise the history's latest month |
| ForecastPage.PastHistory | app/pages/forecast.py:198-199 | exactly the forecast rows past the last actual month; none for an empty history |
| ForecastPage.DrawnWindow | app/pages/forecast.py:198-201 | the rows past the last actual month, or the last twelve forecast rows when there are none |
| ForecastPage.DrawnWindowWhole | app/pages/forecast.py:198-201 | when every forecast row lies past the history, the whole forecast is drawn |
| ForecastPage.DrawnWindowBounds | app/pages/forecast.py:198-201 | the window is never longer than the forecast and is empty only for an empty forecast |
| ForecastPage.StyleFor | app/pages/forecast.py:203-208 | width 3 always; dashed exactly for "Possibly Unreliable"; dotted, and coloured, exactly for "Unreliable" |
| ForecastPage.StylesDistinct | app/pages/forecast.py:203-208 | the three labels are drawn in three different styles |
| ForecastPage.AlertColour | app/pages/forecast.py:315-320 | danger exactly when some label is unreliable, warning exactly when none is but some is possibly unreliable, info exactly when all are reliable |
| ForecastPage.Worst | app/pages/forecast.py:315-320 | the rank of the worst label is an upper bound of all ranks and is attained |
| ForecastPage.AlertColourIsWorst | app/pages/forecast.py:315-320 | the colour is that of the worst label |
| ForecastPage.JoinLinesNonEmpty | app/pages/forecast.py:312-313 | joining messages whose first is not empty gives a non-empty text |
| ForecastPage.SelectedItems | app/pages/forecast.py:173 | the expression gives `[selected_item]` for every value, "ALL" included |
| ForecastPage.AnswerOf | app/pages/forecast.py:183 | an engine result becomes frames exactly when it succeeds, and its error otherwise |
| ForecastPage.PairsMembers | app/pages/forecast.py:181-182 | the nested loops visit as many selections as the number of neighbourhoods times the number of items: every neighbourhood with every item, and nothing else |
| ForecastPage.PairsOneItem | app/pages/forecast.py:181-182 | with one item, the selections are the neighbourhoods in order |
| ForecastPage.Messages | app/pages/forecast.py:196 | one message per selection, in order |
| ForecastPage.RowStop | app/pages/forecast.py:182-188 | the inner loop reaches every item, or those up to and including the first without frames |
| ForecastPage.RowStopFrom | app/pages/forecast.py:182-188 | before the first item without frames the inner loop goes on |
| ForecastPage.FirstRaise | app/pages/forecast.py:183-241 | no error exactly when no selection raises; otherwise the error of the first selection that raises |
| ForecastPage.FirstRaiseAppend | app/pages/forecast.py:181-241 | the first raise of a concatenation is that of its first part, if it has one |
| ForecastPage.ReachedAll | app/pages/forecast.py:181-188 | when no selection lacks frames, the loops reach every selection |
| ForecastPage.ReachedOneItem | app/pages/forecast.py:181-188 | with one item, the loops reach every selection |
| ForecastPage.Visit | app/pages/forecast.py:183-259 | one pass of the inner loop fails at an item that raises, leaves the row at an item without frames, and otherwise appends the item's message, panel and forecast |
| ForecastPage.FetchRow | app/pages/forecast.py:182-259 | one neighbourhood's inner loop fails with the first raise among the items it reaches; otherwise the flag is set exactly when a selection so far lacked frames, and until then the panels, messages and forecasts are those of the selections so far |
| ForecastPage.UpdateForecasts | app/pages/forecast.py:167-320 | the callback's outcome, an error or a view, is exactly what the specification `ForecastView` gives for the normalised selection, with the corrected alert colour of Finding 3 |
| ForecastPage.ViewFails | app/pages/forecast.py:181-241 | the callback fails exactly when a selection the loops reach raises; when no selection lacks frames, exactly when some neighbourhood and item raise |
| ForecastPage.ViewFailsOneItem | app/pages/forecast.py:167-241 | with the page's one item, the callback fails exactly when some neighbourhood raises, with the error of the first |
| ForecastPage.ViewNotEnough | app/pages/forecast.py:181-267 | when the callback returns, figure and table are dropped exactly when some selected neighbourhood and item get no frames, and then the view is the fixed not-enough-data view |
| ForecastPage.ViewShown | app/pages/forecast.py:181-320 | when all selections get frames with datetimes, the callback returns one panel per selection in neighbourhood-major order with its history, window and style; the colour is the corrected one, that of the labels (the source's colon rule agrees with it when no name holds ':', `ForecastPage.AlertColourAsWrittenAgrees`), the text the joined messages |
| ForecastPage.ViewOpen | app/pages/forecast.py:312-313 | for a non-empty selection, a returned view has its alert open |
| ForecastPage.AlertAlwaysOpen | app/pages/forecast.py:167-173 | when the page's callback returns, its alert is open, since neither of its selections is ever empty |
| ForecastPage.EnginesNeverNotEnough | app/pages/forecast.py:185-188 | neither engine function returns None frames, so a returned view always has panels |
| ForecastPage.EmptySliceFails | app/pages/forecast.py:240-241 | a neighbourhood answered with the untyped empty frames makes the callback fail |
| ForecastPage.VolumeEmptySliceFails | app/pages/forecast.py:183-241 | a neighbourhood with an empty volume slice makes the volume page fail, at the DEPARTMENT debug read or on the untyped frames |
| ForecastPage.SeverityEmptySliceFails | app/pages/forecast.py:183-241 | a neighbourhood without a severity table or rows makes the severity page fail |
| ForecastPage.VolumeWithoutLevelFails | app/pages/forecast.py:183 | on a volume table without a `LEVEL` column, the volume page always fails with `MissingColumn("LEVEL")` |
| ForecastPage.UnscoredMessage | app/pages/forecast.py:191-196 | the message of an unreliable forecast without a MAPE reads "neigh/item: Unreliable (MAPE: N/A)" |
| ForecastPage.SecondField | app/pages/forecast.py:315 | the second ':'-separated field holds no ':' |
| ForecastPage.AlertColourAsWritten | app/pages/forecast.py:315-320 | as written: danger exactly when some message's stripped second field starts with "Unreliable", and warning exactly when none does but some starts with "Possibly Unreliable" |
| ForecastPage.MessageField | app/pages/forecast.py:196 | for names without ':', the field the page reads is the label text followed by " (MAPE" |
| ForecastPage.AlertColourAsWrittenAgrees | app/pages/forecast.py:315-320 | when no neighbourhood or item name holds ':', the rule as written gives the colour of the labels |
| ForecastPage.MisreadField | app/pages/forecast.py:315 | for neighbourhood "A:B" and item "X", an unscored unreliable forecast's message has "B/X" as its second field |
| ForecastPage.ColourMisreadsColon | app/pages/forecast.py:315-320 | an unscored unreliable forecast for neighbourhood "A:B" gets an info alert as written, where its label calls for the view's danger colour |
| ForecastPage.ShortSliceUnscored | app/utils/forecast_engine.py:166-177 | a volume slice of fewer than twelve months is answered with frames holding datetimes, "Unreliable" and no MAPE, so the misread is reachable |
| ForecastCell.Points | app/utils/forecast_loader.py:17 | the stored frame keeps each row's month and yhat, in order |
| ForecastCell.FirstIn | app/utils/forecast_loader.py:35-43 | no value exactly when no row has the month; otherwise the yhat of the first row with that month |
| ForecastCell.FirstInAppend | app/utils/forecast_loader.py:35-43 | the first row at the month decides, whatever follows it |
| ForecastCell.GroupedIsNoMessage | app/utils/forecast_loader.py:42-43 | a formatted value is never one of the two fixed messages |
| MasterForecastLoader.CitywideForecast | app/utils/forecast_loader.py:16 | the citywide forecast's label is the classification of its MAPE; a failing slice makes it fail; an empty slice fails with `MissingColumn("DEPARTMENT")` on a table without that column and otherwise gives the untyped empty frames, and only then do the frames hold no datetimes |
| MasterForecastLoader.MasterCell.constructor | app/utils/forecast_loader.py:5-6 | the cell starts not ready and empty |
| MasterForecastLoader.MasterCell.Build | app/utils/forecast_loader.py:8-22 | on success the cell is ready and holds the future frame's (ds, yhat) rows, with or without datetimes as the forecast has them; on failure it is not ready and empty; a ready cell always holds a frame |
| MasterForecastLoader.MasterCell.Summary | app/utils/forecast_loader.py:29-43 | on a valid cell: "Forecasts loading..." exactly when not ready; `NotDatetime` exactly when the ready frame holds no datetimes; the no-row message exactly when no row has the current month; otherwise the first such row's value, formatted with separators |
| MasterForecastLoader.BuildThenSummary | app/utils/forecast_loader.py:8-43 | after one build, a failed build reads as loading, an empty citywide slice reads as loading on a table without a DEPARTMENT column and makes the summary raise `NotDatetime` on a table with one, and otherwise a successful build gives the current month's value or the no-row message |
| HomeForecastLoader.Expected | app/forecast_loader.py:58-60 | the expected-total text is never one of the two fixed messages |
| HomeForecastLoader.HomeCell.constructor | app/forecast_loader.py:7-8 | the cell starts not ready and empty |
| HomeForecastLoader.HomeCell.RunForecasts | app/forecast_loader.py:22-32 | a made forecast is stored and the cell is ready; a failed one leaves it not ready and empty |
| HomeForecastLoader.HomeCell.Summary | app/forecast_loader.py:38-60 | on a valid cell: loading exactly when not ready; the no-row message exactly when no row has the current month; otherwise the expected-total text of the first such row |
| HomeForecastLoader.RunThenSummary | app/forecast_loader.py:22-60 | after one run, a failed forecast reads as loading and a made one gives the current month's text or the no-row message |

## Left out

- ForecastPage.UpdateForecasts: the view's alert colour is the colour of the forecasts' labels (`AlertColour`), the corrected form of Finding 3, not the colon rule of app/pages/forecast.py:315-320. The two differ only when a neighbourhood or item name contains ':' (`ForecastPage.ColourMisreadsColon`); `ForecastPage.ViewShown` states the corrected colour too.
- ForecastPage.ViewShown: states the corrected colour of Finding 3, that of the labels, for the panels it describes; the colon rule as written is `ForecastPage.AlertColourAsWritten`.
- Prophet's fitting and prediction: the model is a parameter. Its band and failure are taken as given, and so is `make_forecast` of app/forecast_loader.py:11-20, whose outcome is a parameter of `HomeForecastLoader.HomeCell.RunForecasts`.
- Reading and writing parquet and CSV files, the module-level table loading, `print` and the debug output: I/O.
- The background threads and locks of both loaders: concurrency. Build, run and summary are modelled as sequential steps.
- The wall clock `pd.Timestamp.now()` / `dt.datetime.now()` / `pd.Timestamp.today()`: it is a parameter.
- The 95% quantile and the per-case-type median of `compute_severity`: numeric library routines. They are parameters, and the median is only assumed to lie within its values.
- Floating point: values are exact reals. NaN is modelled only where the source produces it (the 0/0 change, missing values as None).
- `_ensure_month_end`: a date-type conversion, which is the identity on month indices.
- The figure traces, table formatting (rounding, `strftime`, sorting, renaming), layout, colours and subtitle of the forecast page: presentation. A panel records the history, the drawn window and the line style of a selection.
- The choice between `get_forecast` and `get_severity_forecast` on the page (line 179): the page properties are stated for any engine, and `VolumeEngine` and `SeverityEngine` instantiate them.
- Exceptions of the page past line 241 (the table's rounding and casts, the figure): presentation, and none is raised on frames with datetimes.
- Calendar years below 0 for `%Y-%m` labels: `Precompute` requires non-negative months, which every real date meets.
- HomeForecastLoader.HomeCell.Summary: requires a clock reading whose month lies in 1..12, which every real datetime meets.
- Precompute.NeighKeys: the pandas sort order of neighbourhood keys is modelled as code-point order of strings.
- Text.Clean: `str.title` and `str.lower` are Unicode-aware; the model's case maps (`Text.Lower`, `Text.Upper`, `Text.Title`) change only ASCII letters, and every other character counts as a non-letter, so the title-cased property is stated for ASCII letters.
- TitleKeepsNormal: stated for the ASCII case map of `Text.Title`; a Unicode case map that changed a letter into whitespace or several characters is not modelled.

## Findings

| source | as written | input that shows it | evidently intended | confidence | as-written member | corrected member |
|---|---|---|---|---|---|---|
| app/utils/forecast_engine.py:129-132 | the closure-rate window ends at `month_end`, midnight on the last day, so cases created later that day are left out | one open case created at 14:00 on 30 September 2025, month September 2025: no rate instead of 0.0 | every case created in the month, as the docstring says | not executed | Scoring.ClosureRateMissesLastDay | Scoring.ClosureRate |
| app/utils/forecast_engine.py:478-486 | padded months are stored under the label `len(future_df)`, which the filtered window can already hold, so padding overwrites one row instead of growing the frame | six months of history, horizon 12, current month eight months after the first: 10 rows instead of 12 (needs a horizon above the history length, so not at the default configuration) | the window extended to exactly `horizon` consecutive months | not executed | SeverityForecast.PaddingLosesMonths | SeverityForecast.SeverityFutureOrdered |
| app/pages/forecast.py:315-320 | the label is read as the second ':'-separated field of each message, which a ':' in the neighbourhood or item name shifts | neighbourhood "A:B", item "X", a volume slice of fewer than twelve months ("Unreliable", no MAPE): info instead of danger | the colour of the forecasts' labels | not executed | ForecastPage.ColourMisreadsColon | ForecastPage.AlertColourAsWrittenAgrees |
