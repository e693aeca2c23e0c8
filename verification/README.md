# wackerwind forecast archive and station alignment, modelled in Dafny

wackerwind fetches quarter-hourly wind forecasts for two locations on the
Baltic coast ("wac"/"wak" and "fal") from a forecast service and archives
them. It also fetches readings from a weather station and lays them over the
forecast. This project models the three scripts that do that data handling:

- `save_forecast` (saveforecast.py). It covers:
  - resolving the location name;
  - building one model response's table: a time grid with its variables, moved to local time;
  - dropping rows in the past or without a wind speed;
  - distributing the rows over the per-hour bucket files `<location>_<model>_<n>.h5`.

  On a first run, bucket `hours_to_show` has no file. The table is then cut into
  blocks of four rows from its end. Bucket `hours_to_show` gets the last block,
  the next bucket down gets the block before it, and so on. On later runs each
  bucket in turn receives the rows later than its stored maximum, and the loop
  stops at a bucket that already ends at the newest forecast time.
- `get_station_data` (getstationdata.py) exchanges the vendor's swapped
  `wind_avg`/`wind_min` columns. It then adds a trailing rolling mean, minimum
  and maximum over `sliding_window` rows.
- `get_forecast` (getforecast.py) backfills the station table onto the
  forecast grid and left-joins the three smoothed columns. It and
  getstationdata.py both define the same axis-label helper, `generate_labels`.

Modules (one per file):

- `Common`: missing values, results, times and order-preserving filtering.
- `Stats`: sums and extremes over real values.
- `Labels`: `generate_labels`.
- `Location`: the location test.
- `ForecastFrame`: the grid and the forecast table.
- `Station`: `get_station_data`.
- `Alignment`: the reindex and join in `get_forecast`.
- `BucketStore`: the archive of bucket files and `data` tables, with append as its only mutation.
- `SaveForecast`: the two save loops and the save entry point.

Each save loop is a pure plan, computed from the table and from what the loop
reads. A plan records the appends in order, the rows left in `df`, and why
the loop stopped. The plan is then replayed on the archive. The incremental
loop only ever reads the bucket it is about to append to, and no earlier
iteration has touched that bucket (`SaveForecast.ReadsUnwrittenBucket`). So
reading every table's maximum once, before the loop, gives the same plan.

Times are whole seconds, and "now" is a parameter. NaN and NaT are `None`.
Comparisons with NaT are false, as in pandas, so `NaT == NaT` is false too.

## Model

| member | source | states |
|---|---|---|
| Labels.GenerateLabels | getforecast.py:18-27 | one label per instant; label `i` is full exactly when instant `i` is the first or falls on a different day than instant `i-1`; every label carries the instant's time of day, and full labels its day |
| Labels.FullLabelMarksFirstOfDay | getstationdata.py:11-20 | on time-ordered instants a full label marks exactly the first instant of each calendar day |
| Location.Resolve | saveforecast.py:21-28 | succeeds exactly when the lower-cased name starts with "wac", "wak" or "fal"; "fal" gives (54.77019, 9.965711), the others (54.75455, 9.87333); anything else is `LocationNotSupported` |
| Location.ResolveIgnoresCase | getforecast.py:38-45 | the outcome is the same for a name and its lower-cased form |
| Location.ResolveReadsOnlyPrefix | getforecast.py:38-45 | appending anything to a name of three or more characters does not change the outcome |
| ForecastFrame.DateRange | saveforecast.py:83-88 | `date_range(..., inclusive="left")`: point `k` is `start + k*interval`, every point is before `end`, and one more step would reach `end` |
| ForecastFrame.DateRangeExact | saveforecast.py:83-88 | step `k >= 0` is in the grid iff it is before `end`; the length is the ceiling of `(end-start)/interval`, and 0 when `end <= start` |
| ForecastFrame.DateRangeSpacing | getforecast.py:125-130 | consecutive points are exactly one interval apart, so the grid is strictly increasing |
| ForecastFrame.ShiftedDateRange | saveforecast.py:105 | moving every grid point by the UTC offset gives the grid over the moved window |
| ForecastFrame.BuildFrame | saveforecast.py:82-109 | the table exists iff all five columns have the grid's length; row `i` is at `start + i*interval + utcOffset` and carries the `i`-th value of each variable |
| ForecastFrame.BuildFrameIsGrid | saveforecast.py:82-109 | the rows of a built table are strictly increasing in time |
| Station.SwapAvgMinInvolution | getstationdata.py:63-64 | the rename exchanges `wind_avg` and `wind_min`, keeps time and `wind_max`, and undoes itself |
| Stats.Mean | getstationdata.py:68 | the mean times the count of values is their sum, and it lies between their minimum and maximum |
| Station.WindowMean | getstationdata.py:68 | the mean of a full window times `w` is the window's sum, and it lies between the window's extremes |
| Station.RollingMean | getstationdata.py:68 | `rolling(window=w).mean()`: row `i` is present iff the `w` rows ending at `i` exist and are all present; its value times `w` is their sum |
| Station.WindowMinimum | getstationdata.py:69 | the minimum of a full window is one of its values and no value is below it |
| Station.RollingMin | getstationdata.py:69 | `rolling(window=w).min()`: present iff the window is full; then it equals some row of the window and is at most every row of it |
| Station.WindowMaximum | getstationdata.py:70 | the maximum of a full window is one of its values and no value exceeds it |
| Station.RollingMax | getstationdata.py:70 | `rolling(window=w).max()`: present iff the window is full; then it equals some row of the window and is at least every row of it |
| Station.GetStationData | getstationdata.py:62-71 | one row per reading in order, average and minimum exchanged, maximum kept, and the smoothed columns are the rolling aggregates of the corrected columns |
| Station.RollingMeanUnitWindow | getstationdata.py:68 | with a one-row window the rolling mean is the column itself |
| Station.RollingMinUnitWindow | getstationdata.py:69 | with a one-row window the rolling minimum is the column itself |
| Station.RollingMaxUnitWindow | getstationdata.py:70 | with a one-row window the rolling maximum is the column itself |
| Station.UnitWindowIsIdentity | getstationdata.py:23-24 | with the default `sliding_window=1` every smoothed column repeats its corrected column |
| Alignment.FirstAtOrAfter | getforecast.py:166 | the position of the earliest station time at or after `t`, with every earlier position before `t`; none iff every time is before `t` |
| Alignment.BackfillIndexer | getforecast.py:166 | a binary search on a strictly increasing index finds the same position as the front-to-back scan; pandas computes the position by a linear merge, and the search is an equivalent way to compute it |
| Alignment.BackfillRow | getforecast.py:166 | none iff every station row is earlier than `t`; otherwise the earliest row at or after `t` |
| Alignment.Reindex | getforecast.py:164-166 | one backfilled (possibly missing) station row per forecast time |
| Alignment.ReindexBackfill | getforecast.py:164-166 | the reindex computed with one binary search per grid time, an equivalent of pandas' linear merge, equals `Reindex` |
| Alignment.BackfillUsesExactMatch | getforecast.py:166 | on an increasing index a grid time equal to a station time takes that row |
| Alignment.BackfillIsNearestLater | getforecast.py:166 | the row taken is at or after `t` and no later than any station row at or after `t` |
| Alignment.BackfillMonotone | getforecast.py:166 | a later grid time never takes an earlier station row |
| Alignment.JoinSmoothed | getforecast.py:167-169 | the three left joins keep every forecast row, in order, and add the aligned row's smoothed values or missing ones |
| Alignment.AlignStation | getforecast.py:164-169 | succeeds iff the station times strictly increase, or the forecast frame is empty and no station time repeats (pandas answers an empty target before it looks at the order); then row `i` is forecast row `i` carrying the smoothed values of the earliest station row at or after its time |
| Alignment.GetForecast | getforecast.py:38-169 | an unknown location is rejected first, then a bad frame, then a station index pandas cannot fill from (not strictly increasing, unless the grid is empty and no time repeats); it succeeds exactly when none of these occurs, and then row `i` is frame row `i` carrying the smoothed columns of the window-15 station row backfilled to its time |
| BucketStore.Stamp | saveforecast.py:143-146 | every saved row is the forecast row unchanged plus the run's `save_time` |
| BucketStore.Append | saveforecast.py:155-158 | appending an empty frame changes nothing; otherwise the rows follow the bucket's old rows, its file and table exist, and no other bucket changes |
| BucketStore.Touch | saveforecast.py:128-131 | opening a bucket to read creates its file and no table |
| BucketStore.ApplyWritesContents | saveforecast.py:155-158 | after a run each bucket holds its old rows followed by exactly the rows written to it, in write order, stamped |
| BucketStore.ApplyWritesKeys | saveforecast.py:155-158 | a run creates exactly the tables of buckets it gave rows to |
| BucketStore.ApplyWritesFiles | saveforecast.py:155-158 | a run creates exactly the files of buckets it gave rows to |
| BucketStore.ApplyEmptyWrites | saveforecast.py:155-158 | appends without rows leave the archive unchanged |
| BucketStore.MaxTime | saveforecast.py:135 | `max()` over times: missing iff there are none, else one of them and no smaller than any |
| BucketStore.Latest | saveforecast.py:120 | `df["datetime"].max()`: NaT iff `df` is empty, else the time of a row that no row passes |
| BucketStore.LatestIs | saveforecast.py:120 | a row that no row passes gives the maximum |
| BucketStore.MaxTimeConcat | saveforecast.py:135 | the maximum of two parts together is the later of their maxima |
| BucketStore.LatestSavedAfterAppend | saveforecast.py:131-158 | after an append the bucket's stored maximum is the later of its old maximum and the appended rows' maximum |
| SaveForecast.Finish | saveforecast.py:126-190 | replaying a plan appends to each bucket exactly its rows; tables appear only for written buckets, files for those and for a failed read |
| SaveForecast.RowsForCountdown | saveforecast.py:162-164 | with buckets counting down, each visited bucket gets exactly its own iteration's rows and no other bucket gets any |
| SaveForecast.FinishCountdown | saveforecast.py:155-164 | replaying a counting-down plan extends bucket `top-j` by append `j` and leaves every other bucket as it was |
| SaveForecast.Prepare | saveforecast.py:111-117 | a row survives iff it is later than `now` minus two minutes and has a wind speed; nothing is invented |
| SaveForecast.FilterKeepsTimeOrder | saveforecast.py:113-117 | a boolean-mask selection keeps a time-ordered table time-ordered |
| SaveForecast.PrepareKeepsTimeOrder | saveforecast.py:111-117 | both filters together keep a time-ordered table time-ordered |
| SaveForecast.TailStart | saveforecast.py:169 | `tail(4)` takes the last four rows, or all when fewer remain, and at least one of a non-empty table |
| SaveForecast.FirstRunPlan | saveforecast.py:166-190 | the loop ends because `df` ran empty (leaving nothing) or `countdown` hit 0 after exactly `hours_to_show` appends; appends go to `hours_to_show`, `hours_to_show-1`, ... |
| SaveForecast.FirstRunCovers | saveforecast.py:166-190 | the rows left followed by the rows saved, back to front, are exactly `df` |
| SaveForecast.FirstRunChunks | saveforecast.py:169-186 | append `j` is the `j`-th block of four rows counted from the end of `df` |
| SaveForecast.ChunkBounds | saveforecast.py:169 | every first-run append holds one to four rows |
| SaveForecast.ChunksFull | saveforecast.py:166-190 | only the earliest block can be short, and only when it used up `df` |
| SaveForecast.FirstRunSavesAll | saveforecast.py:166-190 | with at most `4*hours_to_show` rows (or `hours_to_show < 1`) every row is saved exactly once and none is left |
| SaveForecast.FirstRun | saveforecast.py:166-190 | the loop's appends are those of `FirstRunPlan`, blocks of four from the end of `df`; in the archive after it, bucket `hours_to_show-j` has block `j` appended, nothing else changes, and files and tables appear exactly for the written buckets |
| SaveForecast.FirstRunDrawn | saveforecast.py:169 | every first-run append takes its rows from `df` |
| SaveForecast.SplitNewer | saveforecast.py:140-160 | the rows appended are exactly those later than the stored maximum, and the rows kept exactly the others |
| SaveForecast.SplitPartition | saveforecast.py:140-160 | selecting the newer rows and dropping them loses and invents no row |
| SaveForecast.SplitNothingNewer | saveforecast.py:140-160 | when no row is later than the stored maximum the append is empty and `df` is unchanged |
| SaveForecast.Maxima | saveforecast.py:128-135 | the maximum the loop reads for every bucket that has a table |
| SaveForecast.IncrementalPlan | saveforecast.py:126-164 | the incremental loop never ends with an empty `df` as its reason; it stops on a missing table at the bucket it reached, on a bucket ending at `last_forecast_time`, or after bucket 1 with `hours_to_show` appends; every bucket it passed had a table not ending at `last_forecast_time` |
| SaveForecast.IncrementalStep | saveforecast.py:136-164 | a loop that passes its first bucket appends the newer rows there and then runs on with the rest, one bucket lower |
| SaveForecast.IncrementalHalts | saveforecast.py:131-138 | a loop whose first bucket has no table, or already ends at `last_forecast_time`, appends nothing and leaves `df` whole |
| SaveForecast.IncrementalPartition | saveforecast.py:126-164 | what the incremental loop saved and what it left are, as multisets, exactly `df` |
| SaveForecast.IncrementalDrawn | saveforecast.py:140-142 | every incremental append takes its rows from `df` |
| SaveForecast.IncrementalClaims | saveforecast.py:126-164 | a row is in the append to bucket `n` iff it is in `df`, later than bucket `n`'s maximum, and not later than the maximum of any bucket above `n` |
| SaveForecast.IncrementalRest | saveforecast.py:126-164 | a row is left in `df` iff no visited bucket's maximum is earlier than it |
| SaveForecast.ReadsUnwrittenBucket | saveforecast.py:128-158 | the bucket an iteration reads still holds what it held when the loop started, and has a table exactly when it had one then, so the `store["data"]` read succeeds or fails as it would have at the start |
| SaveForecast.Incremental | saveforecast.py:126-164 | the loop's appends are those of `IncrementalPlan` on the stored maxima, the rows newer than each bucket's maximum; in the archive after it, bucket `hours_to_show-j` has append `j`, nothing else changes, no table appears, every bucket written to already had a table, and the files gain the written buckets and the failed read's bucket |
| SaveForecast.SaveModelForecast | saveforecast.py:111-190 | the appends are the incremental plan over the filtered rows and their latest time when bucket `hours_to_show` has a file, the first-run plan otherwise; with bucket `hours_to_show`'s file present the loop never ends by emptying `df`, otherwise it ends that way or by counting down; at most `hours_to_show` appends; the table keys gain exactly the buckets given rows, and the files gain those plus the bucket of a failed read, which decides the next run's `os.path.exists` branch; every table keeps a file |
| SaveForecast.SavedRowsPassFilters | saveforecast.py:111-190 | every appended row is a row of the response that is not in the past and has a wind speed |
| SaveForecast.IncrementalRerun | saveforecast.py:126-164 | on the maxima a first loop left, the same rows make a second loop append nothing, and it fails to read only where the first did |
| SaveForecast.MaximaAfterFinish | saveforecast.py:131-158 | after a loop each visited bucket's maximum is the later of its old one and its appended rows' |
| SaveForecast.FinishQuiet | saveforecast.py:155-158 | a loop that appends nothing and fails only on an existing file leaves the archive unchanged |
| SaveForecast.IncrementalTwice | saveforecast.py:126-164 | the incremental loop run again with the same rows at the same time leaves its archive unchanged |
| SaveForecast.TailHoldsLatest | saveforecast.py:120-169 | on a time-ordered `df` the first block holds `last_forecast_time` |
| SaveForecast.FirstRunEndsAtLatest | saveforecast.py:123-190 | after a first run on a non-empty time-ordered `df`, bucket `hours_to_show` exists and ends at `last_forecast_time` |
| SaveForecast.FirstRunThenIncremental | saveforecast.py:123-190 | a first run followed by an incremental run with the same rows: the second changes nothing (and an empty `df` wrote nothing at all) |
| SaveForecast.SaveTwiceIsSaveOnce | saveforecast.py:111-190 | saving the same time-ordered response twice at the same time leaves a consistent archive as one save did |
| SaveForecast.SaveResponse | saveforecast.py:21-190 | an unknown location fails before anything is saved, then a column-length mismatch; it succeeds exactly when neither occurs, with the appends of `SaveModelForecast` on the built frame; a save appends counting down from `hours_to_show`, adds exactly the tables of the buckets given rows and the files of those and of a failed read, and keeps the archive consistent |
| SaveForecast.SaveResponseTwice | saveforecast.py:21-190 | a response saved twice at the same time leaves a consistent archive as the first save left it |

## Left out

- Network access. The Open-Meteo client, its cache and retries, and the
  station HTTP request are not modelled. The service's answers (grid start,
  end, interval, UTC offset, variable arrays, station records) are parameters.
- HDF5 I/O. Files and `data` tables are the abstract store `BucketStore.Store`.
  The file name's location and model parts are not modelled. A model's files
  are disjoint from every other model's.
- The loop over the three model responses in saveforecast.py:67. Each response
  writes only its own model's files, so one response is modelled at a time.
- A missing `data` table in the incremental loop. Its KeyError ends the loop
  (`MissingBucket`) and the model keeps the file that opening created. In the
  source the exception also aborts the remaining model responses and the
  caller; that propagation is not modelled.
- The `if minutely_15:` test, which skips a response without quarter-hourly
  data, and the unused hourly table in getforecast.py:91-114.
- Plotting, tick positions, CSV export, `print`, argparse and the
  `__main__` blocks.
- `strftime` and `to_datetime` round trips are the identity on whole seconds.
  The `date`/`time` display columns are not modelled.
- Label strings. A label is its calendar day and time of day, not formatted text.
- Lower-casing covers ASCII and the Kelvin sign, the only characters whose
  lower case is a letter of the prefixes "wac", "wak" and "fal". Other Unicode case mappings are not
  modelled.
- ForecastFrame.DateRange and BuildFrame require a positive interval.
  pandas rejects a zero frequency, and a negative one (a grid counting down)
  is not modelled.
- Alignment.GetForecast requires a positive interval, because it builds the frame.
- SaveForecast.SaveResponse requires a positive interval, because it builds the frame.
- SaveForecast.SaveResponseTwice requires a positive interval, because it saves through SaveResponse.
- Station.RollingMean, RollingMin, RollingMax and GetStationData require a
  window of at least 1. pandas also accepts a window of 0, which gives
  all-missing columns; that case is not modelled. The scripts only ever pass
  15 (getforecast.py:162) or the default 1 (getstationdata.py:24).
- Alignment.AlignStation reports a station index that is not strictly
  increasing as an error when there are grid times to fill. pandas also
  accepts a strictly decreasing index for a backfill reindex; that case is not
  modelled. On an empty grid the model, like pandas, accepts any index in
  which no time repeats.
- The comment at getforecast.py:163 speaks of "the last value before" a time,
  but the code backfills, which takes the first value at or after it. The model
  follows the code.
- SaveForecast.SaveTwiceIsSaveOnce and SaveResponseTwice are stated for the
  same clock reading in both runs. With a later `now` the past filter can
  drop rows, and the claim is not made.
- Floating-point arithmetic. Means are exact real arithmetic.
- getsun.py, getwaterlevel.py, showdata.py, droplastn.py and
  historical_forecastsapi.py are not part of this model.
