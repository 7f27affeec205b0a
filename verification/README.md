# Market monitor, SectorIndex and pywa — a Dafny model

This project models the logic core of a set of personal Python scripts. It
proves properties of that model in Dafny. The scripts come in three families.

- **Market monitors** (`MarketMonitor*`, `LiveMarket*`). They fetch daily closes
  for a few indices and merge them on their dates. They smooth each series with
  a simple moving average (SMA) and mark the points where the smoothed series
  turns. They also label the correlation between two markets.
- **SectorIndex**. It fetches sector ETF bars with retries and keeps them in a
  pickle cache with an age limit. It forward-fills missing closes and derives
  RSI, alpha and relative performance against SPY. It classifies each sector
  into a trend state, marks confirmed direction reversals, and ranks the
  sectors on a dashboard.
- **pywa**. It wraps a Python script's output as an installable web page. The
  modelled parts are:
  - how a run's output is captured and classified as HTML or text;
  - how it is escaped or cut down to its body;
  - where the meta block and the theme class are injected;
  - how the theme overlay and the CLI > JSON > DEFAULTS layers combine;
  - how the app name and short name are derived;
  - which file is picked;
  - which Pyodide packages are installed;
  - the analyzer-driven pages and navigation of the v0p2 and v0p3 revisions.

Every revision that behaves differently has its own member, named after the
revision (`IsHtmlV1p2`, `AppTypeV0p3`, …). Prices are `real`. A NaN or missing
value is `Option<real>.None`. A Python dict of strings is a
`map<string, Option<string>>`, where `None` stands for Python's `None`.
Strings are `seq<char>` with ASCII case mapping.

Files, one module each:
- `wrappers`: Option.
- `text`: the str operations.
- `turns`: peak and trough alternation.
- `sma_reversal` and `threshold_reversal`: the two reversal detectors of the
  market monitors.
- `moving_average`.
- `date_sets`, `series_merge` and `alignment`: how dated series are combined.
- `monitor_fetch`.
- `correlation`.
- `sector_cache`, `sector_fetch`, `indicators`, `trend`, `direction_scan` and
  `dashboard`: SectorIndex.
- `theme_config`, `app_naming`, `html_detect`, `content_wrap`, `html_inject`,
  `file_picker`, `packages` and `analyzer`: pywa.

`resolve_theme` is the same function in every pywa revision. For example,
pywa/pywa_v2p1.py:64-75 and zz_Legacy/pywa_v0p3.py:135-149 match
pywa/pywa_pre.py:154-180, so `ThemeConfig.ResolveTheme` stands for all of them.
Only the preset table differs between revisions, and it is a parameter.

## Model

| member | source | states |
|---|---|---|
| SmaReversal.ValidData | zz_Legacy/MarketMonitorLivev4.py:132 | the rows that survive `dropna` are exactly those with both a raw close and an SMA, never more than the input |
| SmaReversal.FindSmaReversals | zz_Legacy/MarketMonitorLivev4.py:131-168 | no valid row gives no reversal; fewer reversals than valid rows; peaks and troughs strictly alternate; every reversal is dated and priced at an input row that has both values; on date-ordered input the reversal dates strictly increase |
| SmaReversal.RunFrom | zz_Legacy/MarketMonitorLivev4.py:141-166 | folding the loop from the first valid row equals folding it from the state reached at any later row |
| SmaReversal.FoundAtEnd | zz_Legacy/MarketMonitorLivev4.py:131-168 | the reversals returned are the list the loop holds once every valid row has been processed |
| SmaReversal.StartBegins | zz_Legacy/MarketMonitorLivev4.py:144-166 | the row Start names is where the current trend began: row 0 or a row that changed the trend, with the trend unchanged after it |
| SmaReversal.AnchoredStep | zz_Legacy/MarketMonitorLivev4.py:144-166 | given the index of the stored extreme, one row keeps the anchor the first row with the highest SMA (rising) or lowest SMA (falling) since the trend began; a row that changes the trend becomes the anchor; while flat the anchor stays the first valid row |
| SmaReversal.AnchoredAt | zz_Legacy/MarketMonitorLivev4.py:137-166 | at every row the stored extreme (`last_sma_val`, `last_date`) is the first row with the highest SMA while rising, the lowest while falling, since the trend began, and the first valid row while flat |
| SmaReversal.StepAppends | zz_Legacy/MarketMonitorLivev4.py:144-166 | one row appends at most one reversal and keeps the earlier ones |
| SmaReversal.Grows | zz_Legacy/MarketMonitorLivev4.py:141-166 | the list at a later row extends the list at an earlier row |
| SmaReversal.EmittedAt | zz_Legacy/MarketMonitorLivev4.py:141-166 | every reversal of the list was appended by one particular row |
| SmaReversal.RowEmits | zz_Legacy/MarketMonitorLivev4.py:152-166 | while rising, a row whose SMA does not rise above the anchor but is strictly below anchor*(1-t) appends exactly one peak dated and priced at the anchor row; while falling, symmetrically a trough for a row strictly above anchor*(1+t); any other row appends nothing |
| SmaReversal.ConfirmedAt | zz_Legacy/MarketMonitorLivev4.py:137-166 | the row that appends a reversal confirms it against the extreme the trend had reached before it: dated and priced at that first highest (lowest) SMA row, with this row's SMA strictly beyond the threshold |
| SmaReversal.EmittedConfirmed | zz_Legacy/MarketMonitorLivev4.py:137-168 | every reversal in the list reached after all rows was appended by some later row that confirms it against its trend's extreme |
| SmaReversal.ReversalAtExtreme | zz_Legacy/MarketMonitorLivev4.py:131-168 | every peak (trough) returned is dated and priced at the first valid row with the highest (lowest) SMA since its trend began, and a later valid row's SMA is strictly more than t below (above) it |
| SmaReversal.StepGood | zz_Legacy/MarketMonitorLivev4.py:144-166 | one loop iteration keeps the machine's invariant: flat means nothing emitted yet, the last emitted kind is the opposite of what the current trend would emit next, kinds alternate, anchor and reversals come from valid rows |
| SmaReversal.RunGood | zz_Legacy/MarketMonitorLivev4.py:141-166 | the whole loop keeps that invariant |
| SmaReversal.RunCount | zz_Legacy/MarketMonitorLivev4.py:141-166 | the loop only appends: earlier reversals are a prefix of the result and each row adds at most one |
| SmaReversal.RunDates | zz_Legacy/MarketMonitorLivev4.py:141-166 | on increasing dates each reversal is strictly earlier than the current anchor and the reversals stay in increasing date order |
| SmaReversal.ValidDataIncreasing | zz_Legacy/MarketMonitorLivev4.py:132 | dropping incomplete rows keeps date order |
| SmaReversal.NonDecreasingQuiet | zz_Legacy/MarketMonitorLivev4.py:144-166 | a positive SMA that never falls yields no reversal |
| SmaReversal.NonIncreasingQuiet | zz_Legacy/MarketMonitorLivev4.py:144-166 | a positive SMA that never rises yields no reversal |
| SmaReversal.PeakExample | zz_Legacy/MarketMonitorLivev4.py:23 | at the 0.1% threshold: a 0.1% rise leaves the flat state (non-strict), a retreat of more than 0.1% from the anchor confirms a peak, reported at the anchor's date with that date's raw close; a row without a close is skipped |
| Turns.OneKindAtMostOnce | zz_Legacy/MarketMonitorLivev4.py:153-164 | an alternating turn list holding one kind only has at most one entry |
| ThresholdReversal.FindSignificantReversals | zz_Legacy/MarketMonitorv6.py:34-49 | fewer than two values give nothing; each signal is a confirming bar 1 <= i < n, indices strictly increase, troughs and peaks alternate, and every trough (peak) is at least the threshold above (below) some earlier value |
| ThresholdReversal.StepEmits | zz_Legacy/MarketMonitorv6.py:38-47 | a bar emits a trough for itself exactly when the trend is not rising and its move from the running extreme is at least t; otherwise a peak exactly when the trend is not falling and the move is at most -t; either resets the extreme to the price and flips the trend; a bar that emits nothing keeps the trend and only moves the extreme up (rising) or down (falling) to the price |
| ThresholdReversal.StepGood | zz_Legacy/MarketMonitorv6.py:38-47 | one bar keeps the scan's invariant: alternation, increasing confirming indices, running extreme taken from an earlier bar, every signal confirmed |
| ThresholdReversal.RunGood | zz_Legacy/MarketMonitorv6.py:38-47 | the whole loop keeps that invariant |
| ThresholdReversal.StateAt | zz_Legacy/MarketMonitorv6.py:37-47 | the scan's running extreme after any prefix of bars is never zero (it is always one of the non-zero input values) |
| ThresholdReversal.RunFrom | zz_Legacy/MarketMonitorv6.py:38-47 | running the loop from the start equals running it from the state reached at any bar |
| ThresholdReversal.FoundAtEnd | zz_Legacy/MarketMonitorv6.py:34-49 | the signals returned are the history once every bar has been seen |
| ThresholdReversal.RangeMax | zz_Legacy/MarketMonitorv6.py:46-47 | the highest value of a range of bars is one of them and no bar in the range exceeds it |
| ThresholdReversal.RangeMin | zz_Legacy/MarketMonitorv6.py:46-47 | the lowest value of a range of bars is one of them and no bar in the range is below it |
| ThresholdReversal.Extreme | zz_Legacy/MarketMonitorv6.py:37-47 | the running extreme is the value of an earlier bar |
| ThresholdReversal.TracksStep | zz_Legacy/MarketMonitorv6.py:38-47 | one bar keeps the state in step with its history: no signal yet means flat with the first value as extreme, a last trough means rising with the highest value since that trough's bar, a last peak means falling with the lowest since that peak's bar |
| ThresholdReversal.TracksAt | zz_Legacy/MarketMonitorv6.py:37-47 | before every bar the trend and `last_extreme_val` are the ones the signals so far determine |
| ThresholdReversal.Grows | zz_Legacy/MarketMonitorv6.py:38-47 | the scan only appends, and everything appended from bar i on is for bar i or later |
| ThresholdReversal.EmitsExactly | zz_Legacy/MarketMonitorv6.py:38-47 | bar i appends a signal exactly when its move from the running extreme triggers, and the signal is for bar i of the kind that move confirms |
| ThresholdReversal.Located | zz_Legacy/MarketMonitorv6.py:34-49 | the signals before bar i in the result are the history before bar i, and bar i is reported exactly when it appended a signal |
| ThresholdReversal.ReportedExactly | zz_Legacy/MarketMonitorv6.py:34-49 | bar i is reported exactly when its move from the running extreme (the first value before any signal, the highest value since the last trough, the lowest since the last peak) reaches t either way (no signal yet), downwards (after a trough) or upwards (after a peak); the reported signal is for bar i, a trough for an upward move and a peak for a downward one |
| ThresholdReversal.NonDecreasingOneTrough | zz_Legacy/MarketMonitorv6.py:38-47 | a positive series that never falls reports at most one signal, a trough |
| ThresholdReversal.ConfirmingBarExample | zz_Legacy/MarketMonitorv6.py:15 | at 2%, the peak of 100, 103, 104, 101, 98 is reported at the confirming bar 3, not at the extreme 2 |
| MovingAverage.TrailingSma | zz_Legacy/MarketMonitorv6.py:31-32 | the min-period mean keeps the input length, starts at the first value and stays within any bounds the data stays within |
| MovingAverage.MeanWithin | zz_Legacy/MarketMonitorv6.py:32 | a mean lies between any lower and upper bound of its window |
| MovingAverage.WindowFromTotals | zz_Legacy/MarketMonitorv7.py:68-69 | a difference of two running totals is the sum of the window between them |
| MovingAverage.FullWindowSma | zz_Legacy/MarketMonitorv7.py:65-70 | fewer than w values give nothing; otherwise n - w + 1 values, value k being the mean of the full window starting at k |
| MovingAverage.PaddedSma | zz_Legacy/MarketMonitorv7.py:129-132 | the padded series has the input's length, is missing exactly at the first w - 1 positions, and agrees with the min-period mean elsewhere |
| MovingAverage.SmaWindow | zz_Legacy/MarketMonitorv6.py:60 | the window is 20 exactly for periods under 1000 days and 10 otherwise |
| MovingAverage.ConstantSeries | zz_Legacy/MarketMonitorv6.py:31-32 | a constant series is its own moving average |
| DateSets.Insert | zz_Legacy/MarketMonitorv1.py:48 | inserting into an increasing date list keeps it increasing and adds exactly the new date |
| DateSets.SortUnique | zz_Legacy/MarketMonitorv1.py:48 | `sorted(set(...))` is increasing and holds exactly the listed dates |
| DateSets.TakeLast | zz_Legacy/MarketMonitorv1.py:50 | `[-n:]` keeps the last n entries, the whole list when n is 0 or too large, and is a suffix of the input |
| DateSets.Intersect3 | zz_Legacy/MarketMonitorv1.py:48 | the three-way intersection is increasing and holds exactly the dates present in all three series |
| DateSets.CommonDates | zz_Legacy/MarketMonitorv4.py:66-67 | the common dates are increasing, present in all three series, at most n of them, all of them unless n were kept, and every dropped common date is older than every kept one |
| DateSets.TrimOldest | zz_Legacy/MarketMonitorv4.py:67 | trimming an increasing list keeps it increasing and only drops its oldest entries |
| SeriesMerge.InsertFacts | zz_Legacy/MarketMonitorLivev4.py:195-196 | putting an observation into a sorted series adds its timestamp, gives it the new value, and leaves every other timestamp's value alone |
| SeriesMerge.Absorb | zz_Legacy/MarketMonitorLivev4.py:195-196 | folding observations into a sorted series keeps it sorted and covers the timestamps of both |
| SeriesMerge.AbsorbKeepsLast | zz_Legacy/MarketMonitorLivev4.py:196 | after the fold, each timestamp carries the last value given for it, or its old value if none was given |
| SeriesMerge.KeepLastMerge | zz_Legacy/MarketMonitorLivev4.py:195-196 | concat, keep-last on duplicated timestamps, sort: the result is sorted with one row per timestamp, covers exactly both inputs' timestamps, and each row holds the last value given for its timestamp |
| SeriesMerge.SecondWins | zz_Legacy/MarketMonitorLivev4.py:195-196 | at a timestamp the daily series has, the daily value wins; elsewhere the weekly value stays |
| SeriesMerge.MergeSymbol | zz_Legacy/MarketMonitorLivev4.py:191-197 | a symbol is skipped exactly when both series are empty; otherwise its merged series is sorted, non-empty and covers both series' timestamps |
| SeriesMerge.AtOrAfter | zz_Legacy/MarketMonitorLivev4.py:204-205 | the cutoff keeps exactly the rows dated at or after it |
| SeriesMerge.AtOrAfterSorted | zz_Legacy/MarketMonitorLivev4.py:205 | the cutoff keeps a sorted series sorted |
| Alignment.OuterJoin | zz_Legacy/MarketMonitorLivev4.py:203 | `concat(axis=1)` has one row per timestamp of any column, in increasing order, each with one cell per column holding that column's value there or NaN |
| Alignment.DropIncomplete | zz_Legacy/MarketMonitorv8.py:167 | `dropna()` keeps exactly the rows with a value in every column |
| Alignment.DropIncompleteIncreasing | zz_Legacy/MarketMonitorv8.py:167 | `dropna()` keeps the rows' date order |
| Alignment.RowsAtOrAfter | zz_Legacy/MarketMonitorLivev4.py:204-205 | the cutoff keeps exactly the frame rows dated at or after it |
| Alignment.KeptDates | zz_Legacy/MarketMonitorLivev4.py:191-197 | the columns kept after skipping empty symbols cover exactly the timestamps of all the symbols' series |
| Alignment.LivePeriod | zz_Legacy/MarketMonitorLivev4.py:180-209 | the live period is absent exactly when no symbol has an observation at or after the cutoff; otherwise its rows are exactly those timestamps at or after the cutoff where some symbol has a value |
| Alignment.InnerDates | zz_Legacy/MarketMonitorv8.py:167 | after `dropna()` the rows are exactly the timestamps present in every column |
| Alignment.AlignedPeriod | zz_Legacy/MarketMonitorv8.py:158-175 | a symbol without data aborts the period; otherwise the rows are exactly the timestamps at or after the cutoff present in every series, all cells filled, and the period is absent when there is none |
| MonitorFetch.DropNa | zz_Legacy/MarketMonitorLivev4.py:106 | `.dropna()` keeps exactly the quotes that have a close, never more than the input |
| MonitorFetch.V4Loop | zz_Legacy/MarketMonitorLivev4.py:84-125 | at most five requests; every reply before the last one sent was one that retries (429, another HTTP error, an exception, an unreadable body); the last one is final (400/401/403, a missing Close column, a good body) unless all five were used; the series is what that last reply delivers |
| MonitorFetch.FetchLiveV4 | zz_Legacy/MarketMonitorLivev4.py:46-125 | a readable cached CSV with a Close column answers without any request; otherwise at least one and at most five requests are sent and the result is what the last one delivers |
| MonitorFetch.V3Loop | zz_Legacy/MarketMonitorLivev3.py:61-109 | at most four requests; only a 429 leads to another one, so every reply before the last is a 429 and the fetch stops at the first other reply; the series is what that reply delivers |
| MonitorFetch.FetchOnce | zz_Legacy/MarketMonitorLivev5.py:62-95 | a non-empty series comes only from a good response with close data, and then holds exactly its non-missing closes |
| MonitorFetch.HistoricalCloses | zz_Legacy/MarketMonitorv1.py:26-39 | an unreadable reply gives an empty dict; otherwise a date is a key exactly when some quote of that date has a close, and it maps to the last such close |
| MonitorFetch.ToDict | zz_Legacy/MarketMonitorv1.py:37 | the dict comprehension holds exactly the observed dates, each with its last value |
| Correlation.Mirror | zz_Legacy/MarketMonitorLivev4.py:224-225 | the mirrored status sits at the opposite position of the negative-to-positive scale |
| Correlation.LiveV4Status | zz_Legacy/MarketMonitorLivev4.py:224-225 | NaN is Decoupled; the status is negative exactly below -0.2, positive exactly above 0.2, and strong exactly beyond 0.5 in magnitude |
| Correlation.LiveV4Annotation | zz_Legacy/MarketMonitorLivev4.py:224-228 | the text is "N/A" exactly for NaN, and the annotation is bold exactly when the status is a strong one |
| Correlation.LiveV4Ordered | zz_Legacy/MarketMonitorLivev4.py:224-225 | a larger correlation never gets a lower status, and the opposite correlation gets the mirrored status |
| Correlation.ThreeWayStatus | zz_Legacy/MarketMonitorLive.py:169 | only three statuses; Inversion exactly below -0.2, Positive exactly above 0.2 |
| Correlation.LiveBoxColour | zz_Legacy/MarketMonitorLive.py:238 | the box is coloured exactly beyond 0.7 in magnitude, dark green only for a Positive status and dark red only for an Inversion |
| Correlation.LiveAnnotation | zz_Legacy/MarketMonitorLive.py:169-173 | "N/A" exactly for NaN; bold exactly when the box is coloured, and then never Decoupled |
| Correlation.ThreeWayOrdered | zz_Legacy/MarketMonitorLive.py:169 | the three-way status is monotone in the correlation and mirrored by its negation |
| Correlation.LiveMarketRelation | zz_Legacy/LiveMarketv4.py:263 | Decoupled exactly strictly inside (-0.3, 0.3); Inverse exactly at or below -0.3; a NaN correlation falls through to Direct |
| Correlation.V8Colour | zz_Legacy/MarketMonitorv8.py:244-245 | green, red and black correspond one to one to Positive, Inversion and Decoupled |
| Correlation.V7Box | zz_Legacy/MarketMonitorv7.py:184-197 | a failed correlation gives a plain black Decoupled box; red exactly for Inversion, green exactly for Positive; a bold box is never Decoupled |
| Correlation.V6Box | zz_Legacy/MarketMonitorv6.py:87-98 | red exactly for the negative statuses, green exactly for the positive ones, black exactly for Decoupled, which holds exactly within [-0.2, 0.2]; bold exactly for the strong statuses |
| Correlation.V6Ordered | zz_Legacy/MarketMonitorv6.py:93-98 | the v6 status is monotone in the correlation and mirrored by its negation |
| Correlation.V4TextColour | zz_Legacy/MarketMonitorv4.py:103-106 | the correlation text is red exactly when the correlation is negative |
| Correlation.RollingCorrelation | zz_Legacy/MarketMonitorv7.py:204-213 | one entry per bar, NaN for the first 30, then the correlation of the 30 bars before bar i, bar i excluded |
| SectorCache.MinDay | python/SectorIndexv12.py:69 | `df.index.min()` is a bar's date and no bar is earlier |
| SectorCache.MaxDay | python/SectorIndexv12.py:75 | `df.index.max()` is a bar's date and no bar is later |
| SectorCache.Load | python/SectorIndexv12.py:51-85 | a hit exactly when the entry is a readable record that passes the age (168 h), size (at least 200 bars, not empty, not None), five-year (4.7 years and 1100 bars) and staleness (last bar at most 7 days old) tests; a hit is the stored frame unchanged; a missing file or any exception is a miss |
| SectorCache.LoadWithTime | zz_Legacy/SectorIndexv4.py:44-66 | the `(df, fetch_time)` pair is both present or both missing, its frame is the plain load's, and its time is the stored fetch time |
| SectorCache.Save | python/SectorIndexv12.py:88-93 | an empty frame writes nothing; otherwise one whole record holding the frame and the current time |
| SectorCache.SaveThenLoad | python/SectorIndexv12.py:51-93 | a save followed by a load at the same moment returns the same frame exactly when its size, span, staleness and close tests pass, and never anything else |
| SectorCache.ShortAgeHitIsWeekHit | zz_Legacy/SectorIndexv6.py:17-80 | the 4-hour policy of SectorIndexv6 and v7_pre only differs from the one-week policy of v9 and v12 in the age limit, so its hits are hits there too |
| SectorCache.ExpiredIsMiss | python/SectorIndexv12.py:60-63 | a record older than the age limit is a miss whatever it holds |
| SectorFetch.ChooseClose | python/SectorIndexv12.py:130-137 | the Close column is the quote close or the adjusted series, the latter only when it has one value per timestamp, and always then when it is non-empty; without an adjusted series it is the quote close |
| SectorFetch.FillFrom | python/SectorIndexv12.py:138 | a forward fill keeps the length and every present value, and a gap takes the value before it |
| SectorFetch.FFill | python/SectorIndexv12.py:138 | `ffill()`: same length, present values kept, each gap takes the previous filled value, a leading gap stays missing |
| SectorFetch.FilledGapsLead | python/SectorIndexv12.py:138 | after a forward fill, the missing values form a prefix |
| SectorFetch.FirstPresent | python/SectorIndexv12.py:138 | the position of the first present value, every earlier one missing |
| SectorFetch.FilledBars | python/SectorIndexv12.py:132-138 | `ffill().dropna(how='all')` drops exactly the bars before the first close, keeps the rest with their dates, gives each a close, and keeps every close that was present |
| SectorFetch.Attempt | python/SectorIndexv12.py:108-145 | an attempt that raises or finds no chart result yields nothing; a frame has at least the revision's minimum bars, a close on every bar, and no more bars than timestamps; the revisions that first build the frame from the quote close (SectorIndexv2 to v4) yield a frame only when that close has one value per timestamp |
| SectorFetch.QuoteCloseLengthMatters | zz_Legacy/SectorIndexv4.py:113-125 | a reply whose quote close is one value short of the timestamps fails the attempt in SectorIndexv2 and v4, which build the frame from the quote close first, while SectorIndexv12 takes the adjusted close that fits |
| SectorFetch.Outcomes | python/SectorIndexv12.py:107 | one possible frame per allowed attempt |
| SectorFetch.OutcomeAt | python/SectorIndexv12.py:107-145 | the entry for attempt j is the frame the j-th reply builds, so the outcomes keep the order of the attempts |
| SectorFetch.Tries | python/SectorIndexv12.py:107-146 | the loop stops at the first attempt that yields a frame, all earlier ones having failed; it makes all attempts only when all fail; it sleeps after each failure, except after the final one in the revisions that skip that sleep |
| SectorFetch.GetStockData | python/SectorIndexv12.py:96-150 | a usable cache entry is returned without any request unless a refresh is forced; at most five attempts; a fetched frame is the first successful attempt's and is saved to the cache; after all attempts fail the frame is empty and the cache untouched |
| SectorFetch.FetchIsFirstSuccess | python/SectorIndexv12.py:107-150 | a fetched frame is what the last request's reply builds and no earlier reply builds one; a failed fetch had no reply that builds a frame |
| SectorFetch.NoSleepAfterLast | zz_Legacy/SectorIndexv3.py:157-165 | a failed fetch of SectorIndexv3 sleeps 4 times for 5 attempts, and SectorIndexv2's 2 times for 3 |
| SectorFetch.FetchedFrameShape | zz_Legacy/SectorIndexv4.py:88 | a fetched frame has a close on every bar and at least the revision's minimum bar count (200 in SectorIndexv4) |
| Indicators.Rsi | python/SectorIndexv12.py:161-166 | undefined averages and a zero average loss give 50; otherwise the RSI lies in [0, 100], is exactly 50 when gain equals loss and above 50 exactly when gain exceeds loss |
| Indicators.RsiFacts | python/SectorIndexv12.py:164-165 | for a non-negative gain and a positive loss, `100 - 100 / (1 + gain / loss)` lies in [0, 100] and compares with 50 as gain compares with loss |
| Indicators.RsiColumn | python/SectorIndexv12.py:161-166 | one RSI value per bar, never missing |
| Indicators.Change | python/SectorIndexv12.py:158 | a change is defined exactly when both values are and the base is non-zero, and it is zero exactly when the two values are equal |
| Indicators.PctChange | python/SectorIndexv12.py:170 | `pct_change(k) * 100` keeps the length and is missing for the first k bars |
| Indicators.RelativeMetrics | python/SectorIndexv12.py:167-181 | without a usable benchmark (missing, empty, or all closes missing after alignment) Alpha and the relative performance are 0 on every bar; with one, the relative performance is missing for the first `period` bars and from then on is the change over `period` bars of close divided by benchmark close, times 100; Alpha on each bar is the bar's percentage return minus the benchmark's (missing on the first bar or where either is undefined), with the gaps filled by 0 in v12 |
| Indicators.AlphaIsDaily | python/SectorIndexv12.py:172-175 | the Alpha column built from the two pct_change columns is, bar by bar, the bar's return minus the benchmark's return, with gaps filled by 0 when the revision fills them |
| Indicators.RelativeMetricsV1 | zz_Legacy/SectorIndexv1.py:81-96 | SectorIndexv1 falls back to zeros only when no benchmark is passed; an all-missing benchmark leaves every Alpha and relative-performance value missing; otherwise it agrees with the later revisions at 20 bars |
| Indicators.SelfRelativeIsZero | python/SectorIndexv12.py:170-173 | a sector measured against itself has zero Alpha and zero relative performance wherever they are defined |
| Indicators.CalculateV12 | python/SectorIndexv12.py:154-181 | every column has one value per bar, every RSI value lies in [0, 100] and is the RSI of that bar's average gain and loss, the three SMA columns are the 20-, 50- and 200-bar trailing means, Alpha is never missing, and the relative columns are those of a 63-bar period with Alpha gaps filled |
| Trend.Classify | python/SectorIndexv12.py:184-196 | an empty frame is Neutral; Neutral exactly on a tie of close and SMA, a missing relative performance or a zero one; Leading and Weakening need the close above the SMA, Improving and Lagging below it; Leading and Improving need a positive relative performance, Weakening and Lagging a negative one |
| Trend.Reflection | python/SectorIndexv12.py:192-196 | reflecting the close around its SMA and negating the relative performance gives the diagonally opposite quadrant |
| DirectionScan.Direction | python/SectorIndexv12.py:239-240 | the direction is 1, 0 or -1; positive exactly when the SMA rose from the bar before, negative exactly when it fell; the first bar has direction 0 |
| DirectionScan.MinOf | python/SectorIndexv12.py:253 | the trailing minimum is one of the window's closes and no close is lower |
| DirectionScan.MaxOf | python/SectorIndexv12.py:264 | the trailing maximum is one of the window's closes and no close is higher |
| DirectionScan.MarkerAt | python/SectorIndexv12.py:244-272 | only a non-first bar whose direction differs from the previous bar's is marked; a Bull needs a rising SMA, a Bear a falling one; a change to direction 0 is never marked |
| DirectionScan.GainGate | python/SectorIndexv12.py:254-266 | for a positive base, a move of at least +10% means a close of at least 1.1 times the base, and one of at most -10% a close of at most 0.9 times it |
| DirectionScan.BullGate | python/SectorIndexv12.py:244-261 | a bar is a Bull exactly when it is a candidate with a rising SMA and a close at least 10% above the lowest close of the trailing 30 bars, itself included |
| DirectionScan.BearGate | python/SectorIndexv12.py:244-272 | a bar is a Bear exactly when it is a candidate with a falling SMA and a close at least 10% below the highest close of the trailing 30 bars, itself included |
| DirectionScan.CollectFacts | python/SectorIndexv12.py:243-272 | the collected markers are exactly the marked bars, each once, with their signals, in increasing bar order |
| DirectionScan.ScanReversals | python/SectorIndexv12.py:243-272 | the scan lists exactly the bars that yield a marker, never the first, in date order, each with its signal |
| DirectionScan.Marks | python/SectorIndexv12.py:244-245 | one marker slot per bar, and the first bar never has a marker |
| DirectionScan.TwoBullsInARow | python/SectorIndexv12.py:239-261 | the markers need not alternate: an SMA that rises, pauses and rises again gives two Bull markers with no Bear between them |
| DirectionScan.Band | zz_Legacy/SectorIndexv7_pre.py:234-246 | Bull exactly for a deviation above +1.5%, Bear exactly for one below -1.5% |
| DirectionScan.DeviationMarkers | zz_Legacy/SectorIndexv7_pre.py:232-246 | the markers are exactly the bars whose close deviates from the SMA by more than 1.5%, in bar order, labelled Bull exactly when the deviation is positive |
| Dashboard.MinBars | python/SectorIndexv12.py:230 | the skip threshold is 100 bars (v4 to v12), 20 (v2, v3), and none only in v1 |
| Dashboard.RankOf | zz_Legacy/SectorIndexv2.py:211 | the sort rank is the last row's field, negated for the descending revisions; only v2 ranks a missing field, as -9999 |
| Dashboard.Insert | python/SectorIndexv12.py:297 | inserting into the sorted prefix adds exactly one item |
| Dashboard.InsertSorted | python/SectorIndexv12.py:297 | inserting into a rank-sorted list keeps it sorted and adds nothing else |
| Dashboard.InsertPermutes | python/SectorIndexv12.py:297 | inserting adds exactly the new item |
| Dashboard.InsertStable | python/SectorIndexv12.py:297 | the inserted item goes after every earlier item of the same rank |
| Dashboard.SortSorted | python/SectorIndexv12.py:297 | `list.sort` orders by rank |
| Dashboard.SortPermutes | python/SectorIndexv12.py:297 | `list.sort` keeps every item, as often as it occurs |
| Dashboard.SortStable | python/SectorIndexv12.py:297 | `list.sort` keeps items of equal rank in their input order |
| Dashboard.WithRank | python/SectorIndexv12.py:297 | the items of one rank, in order, each taken from the list |
| Dashboard.Candidates | python/SectorIndexv12.py:229-231 | at most one candidate per configured sector |
| Dashboard.CandidatesAreShown | python/SectorIndexv12.py:229-231 | a sector becomes a candidate exactly when its series is non-empty with enough bars |
| Dashboard.ShowSectors | python/SectorIndexv12.py:229-297 | the dashboard order is sorted by rank and is a permutation of the sectors that pass the skip rule |
| Dashboard.ShowSectorsStable | zz_Legacy/SectorIndexv6.py:258 | sectors of equal rank keep their configured order, also with `reverse=True` |
| ThemeConfig.ThemeName | pywa/pywa_pre.py:164 | the theme name defaults to "light" and is lower case |
| ThemeConfig.ResolveTheme | pywa/pywa_pre.py:154-180 | "custom" or an unknown theme leaves the configuration as it is; otherwise every preset key and every non-None entry is present, a non-None entry wins over the preset, a None entry is replaced by the preset value, no value is None, and "theme" holds the lower-cased name |
| ThemeConfig.ResolveIdempotent | pywa/pywa_pre.py:154-180 | resolving an already resolved configuration changes nothing |
| ThemeConfig.ArgToKeyInjective | pywa/pywa_pre.py:1593-1602 | no configuration key is the target of two CLI arguments |
| ThemeConfig.ApplyFlags | pywa/pywa_pre.py:1612-1615 | the CLI layer adds exactly the keys of truthy arguments |
| ThemeConfig.ApplyFlagsValues | pywa/pywa_pre.py:1612-1615 | a key set by a truthy argument takes that argument's value; a key no truthy argument sets keeps its value |
| ThemeConfig.OverJson | pywa/pywa_pre.py:1606-1609 | the JSON layer adds exactly its non-None keys, whose values win over the defaults; the other defaults stay |
| ThemeConfig.Layered | pywa/pywa_pre.py:1603-1616 | the merged keys are the defaults', the non-None JSON keys and the truthy flags' keys; a truthy flag wins, then a non-None JSON entry, then the default |
| ThemeConfig.MergeConfig | pywa/pywa_pre.py:1585-1616 | merge_config with pywa_pre's DEFAULTS and argument table: CLI flags that are truthy win, then non-None JSON entries, then DEFAULTS |
| ThemeConfig.MergedThemeReadable | pywa/pywa_pre.py:141-152 | the merged theme is never None, so resolve_theme can always lower-case it |
| AppNaming.StemName | pywa/pywa_v1p2.py:752 | the derived name has the stem's length and no '_' left, nor any '-' where dashes are spaced out too |
| AppNaming.StemNameIsTitled | pywa/pywa_v1p2.py:752 | the derived name is already title case |
| AppNaming.DefaultNameV2p1 | pywa/pywa_v2p1.py:573 | a given --name is taken as it is; otherwise the name has the stem's length, is title case, has no '_', and keeps every '-' (v2p1 spaces out only '_') |
| AppNaming.Initials | pywa/pywa_v1p2.py:756 | the first letters of at most the first three words, in order |
| AppNaming.ShortNamePre | pywa/pywa_pre.py:1057-1063 | a name without words fails; several words give the upper-cased initials of the first three; one word gives a non-empty prefix of at most six characters |
| AppNaming.ShortNameInitials | pywa/pywa_v1p2.py:754-756 | the short name holds the first letters of the first words, at most three and at most the cut |
| AppNaming.CutNeverBites | zz_Legacy/pywa_v0p4.py:796 | the 8- and 12-character cuts never shorten three initials |
| AppNaming.FillIfEmpty | pywa/pywa_pre.py:1048-1054 | an app attribute fills its key exactly when the attribute is truthy and the key is still falsy; otherwise nothing changes |
| AppNaming.NameStepsAsWritten | pywa/pywa_pre.py:1041-1054 | with a non-empty stem, a falsy name becomes the title-cased stem before any app attribute is read |
| AppNaming.TitleIgnored | pywa/pywa_pre.py:1041-1054 | as written, the app title "Todo" loses to the stem of app.py |
| AppNaming.NameSteps | pywa/pywa_pre.py:1041-1054 | the stated priority: a configured name wins, then the app title, then the stem; keys the attributes do not map to are untouched |
| AppNaming.ShortNameStepPre | pywa/pywa_pre.py:1057-1063 | a set short name is kept; otherwise one is derived, which fails exactly when the name has no words; a success always has a truthy short name |
| HtmlDetect.Prefix | pywa/pywa_v1p2.py:178 | `text[:n]` is a prefix of at most n characters, the whole text when it is short enough |
| HtmlDetect.Score | pywa/pywa_v1p2.py:189-195 | the score counts at most one per pattern and is positive exactly when some pattern occurs |
| HtmlDetect.IsHtmlV1p2AsWritten | pywa/pywa_v1p2.py:172-195 | as written, the doctype test never fires, so v1p2 accepts exactly the texts of at least 50 characters with "<html" in the lower-cased first 500 or at least 5 of the 18 indicators |
| HtmlDetect.IsHtmlV1p2 | pywa/pywa_v1p2.py:172-195 | with the doctype test as meant, a text of at least 50 characters is HTML exactly when its upper-cased first 500 characters hold "<!DOCTYPE HTML", or its lower-cased ones "<html", or it has at least 5 indicators |
| HtmlDetect.V1p2FixOnlyAdds | pywa/pywa_v1p2.py:178 | the corrected test accepts everything the written one does |
| HtmlDetect.V1p2MissesDoctype | pywa/pywa_v1p2.py:178 | a 50-character doctype line with no other markup is text to v1p2 as written and HTML to the corrected test |
| HtmlDetect.IsHtmlV1p3AsWritten | pywa/pywa_v1p3.py:146-164 | as written, v1p3 accepts exactly the texts of at least 50 characters with "<html" in the lower-cased first 500 or at least 2 of its 5 tags |
| HtmlDetect.IsHtmlV1p3 | pywa/pywa_v1p3.py:146-164 | with the doctype test as meant, the doctype joins "<html" and the two-tag score as a reason to accept |
| HtmlDetect.V1p3MissesDoctype | pywa/pywa_v1p3.py:152 | the same doctype line is text to v1p3 as written and HTML to the corrected test |
| HtmlDetect.IsHtmlV1p4 | pywa/pywa_v1p4.py:172-182 | a text is HTML exactly when it has at least 100 characters and one of the five lower-case patterns occurs in it case-insensitively; "<!DOCTYPE" never matches the lower-cased text |
| HtmlDetect.IsHtmlV1p0 | pywa/pywa_v1p0.py:141-154 | the empty text is never HTML |
| HtmlDetect.V1p0CaseInsensitive | pywa/pywa_v1p0.py:150-154 | upper-casing a text never changes v1p0's verdict |
| HtmlDetect.IsHtmlV0p4 | zz_Legacy/pywa_v0p4.py:643-659 | a text is HTML exactly when one of the six patterns without capitals occurs in the lower-cased text; "<!DOCTYPE" and "Plotly.newPlot" never match |
| HtmlDetect.LowerCasedRulesIgnoreCase | pywa/pywa_v1p4.py:177-182 | upper-casing a text never changes the verdict of v1p4 or v0p4 |
| HtmlInject.InjectHead | pywa/pywa_pre.py:753-756 | the block lands right after the first "<head>", the page otherwise unchanged; a page without "<head>" gets a head element holding the block in front of it |
| HtmlInject.InjectHeadKeepsPage | pywa/pywa_pre.py:753-756 | either way the result is the original page with one inserted piece that contains the block |
| HtmlInject.BodyClassPre | pywa/pywa_pre.py:736-759 | for any theme name, the body class is "pywa-theme-" and the theme name followed by " pywa-auto-dark" exactly for the light, nature, ocean and sunset presets; for any other theme, trailing whitespace of the name is dropped by the strip, and a name without it is kept whole |
| HtmlInject.InjectBodyPre | pywa/pywa_pre.py:760-763 | a bare "<body>" gets the class attribute inserted before its '>'; otherwise the first "<body " gets it in front of its attributes when a '>' closes it; otherwise the page is unchanged |
| HtmlInject.BodyTagMarked | pywa/pywa_pre.py:760-761 | after the insertion the page contains the body tag carrying the attribute |
| HtmlInject.OptimizePre | pywa/pywa_pre.py:697-765 | for any page, block and theme: when the headed page has a bare body tag, the result contains the body tag with the theme's class |
| HtmlInject.HtmlTagEnd | zz_Legacy/pywa_v0p4.py:411-412 | the end of the first html tag is just past the first '>' after "<html", with no '>' before it |
| HtmlInject.InjectHeadV0p4AsWritten | zz_Legacy/pywa_v0p4.py:409-414 | as written: a "<head>" gets the block as in pywa_pre; else "<html" is replaced by "<html>" and the head element, leaving the tag's remainder behind; else the page is wrapped in a whole document |
| HtmlInject.AsWrittenStrayBracket | zz_Legacy/pywa_v0p4.py:411-412 | every page whose first html tag is a plain "<html>" and that has no head gets a stray '>' right after "</head>" |
| HtmlInject.StrayBracketExample | zz_Legacy/pywa_v0p4.py:411-412 | the page `<html><body>x</body></html>` comes out containing "</head>>" |
| HtmlInject.InjectHeadV0p4 | zz_Legacy/pywa_v0p4.py:409-414 | corrected: the head element is inserted right after the closing '>' of the first html tag, the page otherwise unchanged |
| HtmlInject.StrayBracketFixed | zz_Legacy/pywa_v0p4.py:411-412 | on the same page the corrected step inserts the head element right after "<html>" |
| HtmlInject.InjectHeadV0p4KeepsPage | zz_Legacy/pywa_v0p4.py:409-412 | with a head or a closed html tag, the corrected result is the page with one inserted piece that contains the block |
| HtmlInject.FindBodyWs | zz_Legacy/pywa_v0p4.py:423 | the match of `<body\s+` found is a "<body" followed by whitespace, and no earlier position holds one |
| HtmlInject.InjectBodyV0p4 | zz_Legacy/pywa_v0p4.py:417-423 | a bare "<body>" gets ` class="pywa-theme-…"` before its '>'; otherwise, when "<body " occurs, the fallback ClassAtSpace applies; otherwise nothing changes |
| HtmlInject.ClassAtSpace | zz_Legacy/pywa_v0p4.py:422-423 | the one regex substitution of "<body" plus whitespace: the first "<body" followed by whitespace exists, and its whole whitespace run (at least one character) is replaced by the class and one space, the rest of the page kept |
| HtmlInject.OptimizeV0p4AsWritten | zz_Legacy/pywa_v0p4.py:372-425 | when the headed page has a bare body tag, the result contains the body tag with the theme's class |
| HtmlInject.OptimizeV0p4 | zz_Legacy/pywa_v0p4.py:372-425 | the same with the corrected head step |
| ContentWrap.EscapeChar | pywa/pywa_v1p2.py:452 | one character escapes to a non-empty text; every character other than the five special ones is kept as it is |
| ContentWrap.Escape | pywa/pywa_v1p2.py:452 | escaped text is never shorter than the input and holds no '<', '>', '"' or '\'' |
| ContentWrap.UnescapeStep | pywa/pywa_v1p2.py:452 | reading back one escaped character gives that character and leaves the rest to read |
| ContentWrap.EscapeRoundTrip | pywa/pywa_v1p2.py:452 | escaping loses nothing: unescaping the escaped text gives back the text |
| ContentWrap.BodyInner | pywa/pywa_v1p2.py:439 | a body match is only found in content whose lower-cased text contains "<body" |
| ContentWrap.BodyInnerStopsAtFirstClose | pywa/pywa_v1p2.py:439 | the match is lazy: the extracted part never contains "</body>" in any case |
| ContentWrap.BodyOfDocument | pywa/pywa_v1p2.py:438-441 | for a page that is a bare body element, the extracted part is exactly the element's content |
| ContentWrap.OrNoOutput | pywa/pywa_v1p2.py:452 | the text shown for an output is never empty |
| ContentWrap.TextBlock | pywa/pywa_v1p2.py:451-453 | non-HTML output appears in the revision's pre element, escaped in v1p2, v1p3 and v1p4 and raw in v1p0, with "No output" for empty output |
| ContentWrap.MainContent | pywa/pywa_v1p2.py:436-453 | empty or non-HTML output gets the text block; HTML output with no "<body" or no matching body, and any HTML output in v1p0, is kept unchanged; otherwise the matched body's content is kept, stripped in v1p2 and v1p3 and raw in v1p4 |
| ContentWrap.EscapedTextHasNoTags | pywa/pywa_v1p3.py:374-376 | the escaped output inside the pre element can never open a tag |
| ContentWrap.TextBlockKeepsText | pywa/pywa_v1p4.py:389-391 | unescaping the pre element's content gives back the captured output |
| ContentWrap.JoinOutput | zz_Legacy/pywa_v0p4.py:628-630 | the joined output begins with stdout, ends with stderr and is longer than both together by one newline exactly when both are non-empty |
| ContentWrap.JoinSplits | zz_Legacy/pywa_v0p4.py:628-630 | when both streams are non-empty, both can be read back from the joined output around the newline that separates them |
| ContentWrap.RunAndCapture | zz_Legacy/pywa_v0p4.py:618-640 | a finished run gives the joined output, its exit code and v0p4's HTML verdict on it; a timeout gives the 30-second message, and a failure "Error: " and its message, each not HTML and with code 1 |
| FilePicker.Filter | pywa/pywa_pre.py:1520-1528 | the kept files are at most as many as listed, each one listed and not rejected |
| FilePicker.FilterExact | pywa/pywa_pre.py:1520-1528 | a file is kept exactly when it was listed and is not rejected |
| FilePicker.FilterKeepsOrder | pywa/pywa_pre.py:1520-1528 | filtering keeps the walk's order: filtering a listing in two pieces gives the same files as filtering it whole |
| FilePicker.CandidatesAsWritten | pywa/pywa_pre.py:1520-1528 | as written, no candidate has a skipped file name or any path part, ancestors of the search directory included, naming a skipped directory |
| FilePicker.Decide | pywa/pywa_pre.py:1530-1543 | no candidate is an error, exactly one is taken, two to nine get the numbered menu and ten or more the typed prompt |
| FilePicker.EnvAncestorHidesApp | pywa/pywa_pre.py:1524-1525 | as written, the only app file of a project under /home/u/env/app is not found |
| FilePicker.Candidates | pywa/pywa_pre.py:1520-1528 | corrected: no candidate has a skipped file name or a part below the search directory naming a skipped directory |
| FilePicker.EnvAncestorFixed | pywa/pywa_pre.py:1524-1525 | with the corrected rule that same file is found and taken |
| FilePicker.CorrectionOnlyAdds | pywa/pywa_pre.py:1524-1525 | every file the rule as written keeps is also kept by the corrected rule |
| Analyzer.HasGui | zz_Legacy/pywa_v0p2.py:62-64 | has_gui holds exactly when some function name, lower-cased, contains gui, ui, window, app or main |
| Analyzer.AppTypeV0p2 | zz_Legacy/pywa_v0p2.py:100-111 | the type is one of the five names; class-based exactly when there are classes, multi-function exactly when there are none and more than three functions, simple exactly when no earlier rule and no GUI name applies |
| Analyzer.AppTypeV0p3 | zz_Legacy/pywa_v0p3.py:777-785 | the type is one of the four names; object-oriented exactly when there are classes, multi-function exactly when there are none and more than five functions, simple exactly when no rule applies |
| Analyzer.AppTypesAgree | zz_Legacy/pywa_v0p3.py:777-785 | the revisions agree on class-based apps; v0p3's multi-function apps are multi-function in v0p2; v0p2's interactive apps are interactive in v0p3 |
| Analyzer.FirstNamed | zz_Legacy/pywa_v0p3.py:789-791 | the position found is the first whose lower-cased name is an entry-point name; none is found only when no name is one |
| Analyzer.MainFunction | zz_Legacy/pywa_v0p2.py:113-121 | no function gives None; otherwise the first function with an entry-point name, or the first function when none has one |
| Analyzer.MainFunctionsAgree | zz_Legacy/pywa_v0p3.py:787-792 | without a function named "gui" in any case, v0p2 and v0p3 pick the same entry point |
| Analyzer.NatToString | zz_Legacy/pywa_v0p3.py:799 | a printed count is a non-empty run of decimal digits |
| Analyzer.NatToStringRoundTrip | zz_Legacy/pywa_v0p3.py:799 | the printed count reads back as the count |
| Analyzer.FirstLine | zz_Legacy/pywa_v0p3.py:797 | the first line of the docstring is a prefix of it holding no newline |
| Analyzer.DescriptionParts | zz_Legacy/pywa_v0p3.py:794-803 | there is one part for a non-empty docstring and one for each non-zero count, no more |
| Analyzer.DescriptionV0p3 | zz_Legacy/pywa_v0p3.py:794-804 | with nothing to say the description is "Python application" |
| Analyzer.DescribesFunctionCount | zz_Legacy/pywa_v0p3.py:794-804 | a file with only functions is described as its function count and " functions", and the count reads back from the text |
| Analyzer.CodePreview | zz_Legacy/pywa_v0p2.py:279-286 | a source of at most 30 lines is shown whole; a longer one is shown as a prefix of it that ends at a line break, followed by the truncation line |
| Analyzer.InteractivePage | zz_Legacy/pywa_v0p3.py:910-911 | the interactive page exists exactly when the script uses input() |
| Analyzer.NavMatchesPagesV0p2 | zz_Legacy/pywa_v0p2.py:288-345 | the navigation targets are the page ids in the same order, from home to about, with functions exactly when there are functions and interactive exactly when input() is used |
| Analyzer.NavMatchesPagesV0p3 | zz_Legacy/pywa_v0p3.py:1023-1068 | the same for v0p3, whose pages end with source and about |
| Packages.WordRun | pywa/pywa_v2p2.py:105 | `(\w+)` takes the whole leading run of word characters: all of them are word characters and the next one is not |
| Packages.LineImport | pywa/pywa_v2p2.py:105 | a name captured from an import line is a non-empty run of word characters |
| Packages.ImportLineNames | pywa/pywa_v2p2.py:105 | a line "import w" captures exactly w, whatever non-word text follows it |
| Packages.DetectPackages | pywa/pywa_v2p2.py:81-119 | every detected package is a key of package_map, each at most once |
| Packages.ImportDetected | pywa/pywa_v2p2.py:105-111 | a line "import X", where X is a package or one of its aliases, brings that package in |
| Packages.SplitLinesHasLine | pywa/pywa_v2p2.py:105 | with re.MULTILINE, a line between two newlines is seen as a line of its own |
| Packages.AliasInsideWord | pywa/pywa_v2p2.py:113-117 | alias use is a bare substring search, so "go." inside "algo." adds plotly |
| Packages.SubseqMembers | pywa/pywa_v2p1.py:391-401 | a list taken in the fixed order holds only words of that order |
| Packages.SubseqDistinct | pywa/pywa_v2p1.py:391-401 | a list taken in the order of a list without repeats has none either |
| Packages.KeepOccurring | pywa/pywa_v2p1.py:391-401 | a word is kept exactly when it is listed and occurs in the code, and the kept words follow the list's order |
| Packages.PackageList | pywa/pywa_v2p1.py:391-401 | each of numpy, pandas, plotly, scipy and requests is listed exactly when it is a substring of the code, in that order, once |
| Packages.WrappedCode | pywa/pywa_v2p1.py:360-388 | the wrapped code is exactly as long as the prelude, the script and the epilogue together |
| Packages.WrappedKeepsScript | pywa/pywa_v2p1.py:360-388 | the wrapped code is the fixed prelude, then the script verbatim, then the fixed epilogue |
| Packages.WrappedImportsRequests | pywa/pywa_v2p1.py:367 | the wrapped code always imports requests |
| Packages.PackagesAsWritten | pywa/pywa_v2p1.py:390-401 | as written, the list is scanned on the script alone: a word is listed exactly when the script contains it |
| Packages.RequestsNotInstalled | pywa/pywa_v2p1.py:365-401 | the script "print(1)" gets no packages, although the code run for it imports requests |
| Packages.Packages | pywa/pywa_v2p1.py:390-401 | corrected, scanning the code that is run: requests is always listed, every listed word the script contains is listed, in the fixed order, once |
| Text.LowerChar | pywa/pywa_v1p2.py:438 | lower-casing one character leaves no capital, keeps letters letters and whitespace whitespace, and changes nothing but capitals |
| Text.UpperChar | pywa/pywa_pre.py:1061 | upper-casing one character leaves no small letter, keeps letters letters and whitespace whitespace, and changes nothing but small letters |
| Text.Lower | pywa/pywa_v1p2.py:438 | `str.lower()` keeps the length and lower-cases each character in place |
| Text.Upper | pywa/pywa_pre.py:1061 | `str.upper()` keeps the length and upper-cases each character in place |
| Text.LowerIdempotent | pywa/pywa_pre.py:164 | lower-casing twice is lower-casing once |
| Text.ReplaceChar | pywa/pywa_v1p2.py:752 | `str.replace` of one character keeps the length, puts the new character wherever the old one was and changes nothing else |
| Text.FindFrom | pywa/pywa_v1p2.py:439 | the position found from a start holds the needle and no earlier position from that start does; none is found only when the needle does not occur there |
| Text.Find | pywa/pywa_pre.py:753-754 | a position is found exactly when the needle occurs, and it is the first occurrence |
| Text.ReplaceFirst | pywa/pywa_pre.py:754 | `s.replace(t, u, 1)` leaves a text without t unchanged and otherwise puts u in place of an occurrence of t, keeping the text before and after it |
| Text.ReplaceFirstAtFind | pywa/pywa_pre.py:754 | the occurrence replaced is the first one: the position Find reports holds t, no earlier position does, and u takes its place there |
| Text.UpperMissesLowerNeedle | pywa/pywa_v1p2.py:178 | a needle holding a small letter never occurs in an upper-cased text |
| Text.LowerMissesUpperNeedle | pywa/pywa_v1p4.py:177-182 | a needle holding a capital never occurs in a lower-cased text |
| Text.AbsentChar | pywa/pywa_v2p1.py:391-401 | a needle holding a character the text lacks does not occur in it |
| Text.ContainsPiece | pywa/pywa_v2p1.py:391-401 | a text contains every piece it is made of |
| Text.WordLength | pywa/pywa_v1p2.py:755 | the leading word is the whole run of non-whitespace characters |
| Text.Words | pywa/pywa_v1p2.py:755 | `str.split()` gives only non-empty words, none holding whitespace |
| Text.WordsKeepText | pywa/pywa_v1p2.py:755 | splitting loses exactly the whitespace: the words glued together are the text's non-whitespace characters |
| Text.Lead | pywa/pywa_v1p2.py:441 | the leading whitespace run is all whitespace and is followed by none |
| Text.Trail | pywa/pywa_v1p2.py:441 | the trailing whitespace run is all whitespace and is preceded by none |
| Text.Strip | pywa/pywa_v1p2.py:441 | `str.strip()` gives a slice of the text with no whitespace at either end, and only whitespace was cut from each side |
| Text.TrimEnd | pywa/pywa_v1p2.py:441 | cutting the trailing whitespace keeps a prefix of the text, cuts only whitespace, and leaves no whitespace at the end |
| Text.TrailAfter | pywa/pywa_v1p2.py:441 | the trailing whitespace of a text after a piece ending in a non-space is the trailing whitespace of the rest alone |
| Text.TrimSpaceAfter | pywa/pywa_pre.py:759 | one more trailing space changes nothing once trailing whitespace is cut |
| Text.StripAfter | pywa/pywa_pre.py:759 | stripping a piece that starts and ends with a non-space followed by a rest keeps the piece and cuts only the rest's trailing whitespace |
| Text.StripTrimmed | pywa/pywa_v1p2.py:441 | a text with no whitespace at either end is its own strip |
| Text.StripOneSpace | pywa/pywa_pre.py:759 | strip removes one trailing space from a trimmed text |
| Text.JoinSplitAt | zz_Legacy/pywa_v0p2.py:283-286 | joining a list equals joining its two halves around one more separator |
| Text.LineLength | zz_Legacy/pywa_v0p3.py:797 | the first line is the whole run of characters before the first newline |
| Text.SplitLines | zz_Legacy/pywa_v0p2.py:281 | `s.split('\n')` gives at least one line and no line holds a newline |
| Text.SplitLinesRoundTrip | zz_Legacy/pywa_v0p2.py:281-286 | joining the lines with newlines gives the text back |
| Text.TitleFrom | pywa/pywa_v1p2.py:752 | title-casing keeps the length, keeps letters letters and whitespace whitespace, and changes nothing but letters |
| Text.Title | pywa/pywa_v1p2.py:752 | `str.title()` keeps the length |
| Text.TitleIdempotent | pywa/pywa_v1p2.py:752 | title-casing a title-cased text changes nothing |

## Left out

- Network, files and time. The model has no Yahoo HTTP calls, crumb scraping, user-agent rotation, sleeps or jitter. Pickle and CSV files, subprocesses, HTTP servers, watch mode and browser launching are left out too. A fetch is given the replies the server would send, and a cache entry is absent, unreadable or a record. The current time is an argument.
- Floating-point library code. The model takes as inputs pandas rolling means where they are not computed, RSI's average gain and loss, `pct_change`, `np.corrcoef` and time interpolation. NaN propagation and IEEE rounding are not modelled. A zero base in `pct_change` (numpy gives inf) is not modelled either.
- ThresholdReversal.FindSignificantReversals: requires every value to be non-zero, because the source divides by the last extreme and numpy's inf or NaN for a zero divisor is not modelled.
- DirectionScan.ScanReversals: requires positive closes, for the same reason: the percentage move divides by the trailing extreme.
- MovingAverage.TrailingSma: requires a window of at least 1; every caller passes 10, 20 or 50.
- SmaReversal.FindSmaReversals: the statement that dates increase assumes date-ordered input rows, which the keep-last merge of the series produces. The other clauses hold for any input.
- SmaReversal.Step: a confirmed reversal is priced at the anchor row's own raw close, while the source looks the price up again by date (`df.loc[last_date, raw_col]`); the two agree because the keep-last merge of the series leaves one row per date, which the model takes as given rather than models.
- Dashboard.ShowSectors: requires a sort key on every shown sector. Python's ordering of NaN keys is not a total order and is not modelled. For v1 it also requires every sector to have a bar, because v1 reads the last row of each series without a length check and crashes on an empty one.
- SectorFetch.GetStockData: a reply missing from the given list counts as a raised exception. The open, high, low and volume columns are not modelled, and `dropna(how='all')` is judged on the close alone.
- SectorFetch.Attempt: in SectorIndexv2 to v4 the DataFrame constructor raises when a column's length differs from the timestamps; only the quote close and the chosen close are checked this way, and the open, high, low and volume columns, which would raise the same way, are not modelled.
- The six-month correlation box of zz_Legacy/MarketMonitorLivev4.py:319 is not modelled. It uses its own 0.5 thresholds. For the rolling correlation of MarketMonitorv6 and v7, `np.corrcoef` is a parameter, so what it gives on a constant window (NaN with a warning) is left to that parameter.
- Plotting, GUI and presentation are left out. This covers Plotly and matplotlib figures, the dashboard HTML and JavaScript templates, SVG sparklines, the theme CSS, manifest and service-worker generation, `make_png` and the Pyodide JavaScript.
- The theme preset contents and the meta/style block are parameters of `ThemeConfig` and `HtmlInject`. Where they land is modelled; their text is not.
- Text helpers map case on ASCII only. Python's `str.isspace()` and regex `\w` are likewise restricted to ASCII.
- The ast walk of PythonAnalyzer.analyze is left out. Its findings are the `Analyzer.Facts` record.
- The directory walk of `pick_py_file` (sorted `rglob`) is an input. The numbered menu and typed prompt are terminal I/O; the model says which of them is shown.
- pywa/pywa_v1p2.py:447-450 is not modelled. These lines append the page's `<script>` elements after the extracted body again.
- pywa/pywa_v1p0.py lists 13 patterns in `_is_html`; the model follows that list.
- HtmlInject.InjectBodyV0p4: the replacement text `re.sub` receives holds the theme name as it is. Backslash escapes in a theme name, which `re.sub` would interpret, are not modelled. pywa_pre passes a function to `re.sub`, so it is not affected.
- Packages.DetectPackages: the ensures states only that every detected package is a key of package_map. The two ways in are stated by separate lemmas: `ImportDetected` for import lines and `AliasInsideWord` for alias use. The order of `list(set)` is unspecified in Python, so the result is a set.
- HtmlDetect.IsHtmlV1p0: the ensures states only that the empty text is never HTML. Case insensitivity is stated by `V1p0CaseInsensitive`.
- Text.Title: the ensures states only that the length is kept. What title-casing does to each character is stated on `TitleFrom`, and `TitleIdempotent` relates it to itself.
- Analyzer.DescriptionV0p3: the ensures covers only the empty description. `DescribesFunctionCount` covers a file with only functions. The general join of parts is not restated.
- Analyzer.DescriptionParts: the v0p2 description texts ("Contains … function(s)") are not modelled; only v0p3's are.
- HtmlInject.OptimizePre: the ensures covers only pages whose headed form has a bare `<body>`. The other cases are stated on `InjectBodyPre`.
- The rest of the repository is left out: the Polyfit model, the Nuitka compiler GUI, the figure-saving and draw-report helpers, AlphabetApp, LiveMarketv1 and LiveMarketv3 (argrelextrema), and the random-data fallback of SectorIndexv1. The broken compile paths of pywa v0p2 and v0p3 are left out too; only their analyzer and page helpers are modelled.

## Findings

| source | as written | input that shows it | evidently intended | confidence | as-written member | corrected member |
|---|---|---|---|---|---|---|
| pywa/pywa_pre.py:1041-1054 | a falsy name is filled from the file stem before the loop that copies `app.title` into it, so that loop never sees a falsy name | name unset, file `app.py`, `app.title = "Todo"`: the name becomes "App" | a configured name wins, then the app's title, then the stem | high (not executed) | AppNaming.NameStepsAsWritten, AppNaming.TitleIgnored | AppNaming.NameSteps |
| pywa/pywa_v1p2.py:178 | "<!DOCTYPE html" (with small letters) is searched for in the upper-cased prefix, so the doctype test never fires | "<!DOCTYPE html>" followed by 35 spaces: 50 characters, judged text | a doctype at the start marks the output as HTML | high (not executed) | HtmlDetect.IsHtmlV1p2AsWritten, HtmlDetect.V1p2MissesDoctype | HtmlDetect.IsHtmlV1p2, HtmlDetect.V1p2FixOnlyAdds |
| pywa/pywa_v1p3.py:152 | the same upper-cased search for "<!DOCTYPE html" | the same 50-character doctype line | the same | high (not executed) | HtmlDetect.IsHtmlV1p3AsWritten, HtmlDetect.V1p3MissesDoctype | HtmlDetect.IsHtmlV1p3 |
| zz_Legacy/pywa_v0p4.py:411-412 | "<html" is replaced by "<html>" and the head element, so the rest of the html tag (its attributes and '>') is left after "</head>" | `<html><body>x</body></html>` becomes `<html>` + head + `></body>…`, holding "</head>>" | the head element goes after the html tag's closing '>' | high (not executed) | HtmlInject.InjectHeadV0p4AsWritten, HtmlInject.AsWrittenStrayBracket, HtmlInject.StrayBracketExample | HtmlInject.InjectHeadV0p4, HtmlInject.StrayBracketFixed, HtmlInject.InjectHeadV0p4KeepsPage |
| pywa/pywa_pre.py:1524-1525 | the skipped-directory test looks at every part of the absolute path, including the search directory's ancestors | searching /home/u/env/app holding main.py: no file is found | only the parts below the search directory are checked | high (not executed) | FilePicker.CandidatesAsWritten, FilePicker.EnvAncestorHidesApp | FilePicker.Candidates, FilePicker.EnvAncestorFixed, FilePicker.CorrectionOnlyAdds |
| pywa/pywa_v2p1.py:390-401 | the package list is scanned on the user's script, but the code run is the wrapped code, whose prelude imports requests (line 367) | the script "print(1)": no package is installed, yet the run imports requests | scan the code that is run, so requests is always installed | medium (not executed) | Packages.PackagesAsWritten, Packages.RequestsNotInstalled | Packages.Packages |
