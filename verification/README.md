# Strava coach analytics — a Dafny model

This project models the computational core of a small cycling-analytics tool.
The tool downloads activities from the Strava API and analyses each ride's
second-by-second streams. It summarises the activity table and prepares
activity data for an LLM "coach". The model covers:

- **Stream metrics** (`HeartRate`, `Power`, `Elevation`, `Distribution`,
  `Streams`): the `analyze_streams` engine.
  - Heart-rate zones are truncated fractions of the maximum heart rate. Time in
    a zone runs from the zone's first sample to its last, with a percentage of
    the final time stamp.
  - Power metrics use only the positive samples: mean and maximum, normalized
    power (30-sample windows), the FTP estimate (95 % of the best 1200-sample
    mean) and the power-duration curve.
  - Elevation gain and loss come from first differences.
  - Cadence, gradient and speed use an integer-edged histogram with numpy's
    closed last bucket.
  - `analyze_streams` puts these sections together.
- **Activity table** (`Activities`): `filter_activity_type` and the
  `summary_stats` aggregation. It also covers the fixed-edge heart-rate bins of
  `plot_heartrate_zones` and the daily training load with its 7-day rolling
  mean, but not the plots.
- **Coach formatting** (`CoachFormat`): the `clean_name` sanitizer and the
  analysis keys copied into an activity record. It also covers the image-list
  cap, the down-sampling stride with its row selection, and the time-series
  column selection.
- **API client** (`Strava`): the `parse_activities` projection. It also covers
  the refresh-token exchange and its rewrite of the `.env` file.

Some conventions hold throughout. Numbers are Dafny `real`: exact rationals,
not IEEE doubles. Stream time stamps and heart rates are `int`. Python's
`int()` on a float truncates toward zero, and `Common.Trunc` models that,
not floor. A dictionary key the source leaves out is `None` in an `Option`.
An exception the source lets escape is `Failure` in a `Result`.

Inputs from the outside world become parameters:

- the current time, as `weekAgo`;
- the token endpoint's decoded answer, and the `.env` file's lines;
- the image files found on disk, and what the HTML-to-image converter returned.

Some properties that one might expect of these computations do not hold of
the code, and the model keeps the code's behaviour:

- The power curve is not monotone in the duration:
  `Power.BestMeanNotMonotone` shows `[10, 0, 10]`, whose best 2-sample mean is
  5 and whose 3-sample mean is 20/3.
- Histogram counts add up to at most the number of samples, not always to it
  (`Distribution.DistributeTotal`). Samples that share one integer part leave
  a single edge and no bucket at all (`Distribution.SingleEdgeIsEmpty`).
- Zone bounds and histogram edges use `int()`, which truncates toward zero.
  This differs from floor for negative gradients (`Common.Trunc`).
- numpy closes the last histogram bucket, so a sample equal to the last edge
  is counted (`Distribution.InBucket`).

## Model

| member | source | states |
|---|---|---|
| Common.Trunc | src/detailed_activity.py:186-190 | Python `int()` of a float truncates toward zero. The result is the floor for non-negative values and the ceiling for negative ones. |
| Common.Positive | src/detailed_activity.py:214 | Filtering `watts > 0` keeps exactly the positive samples. Every positive sample survives, nothing else is added, and an all-positive series is unchanged. |
| Common.PositiveConcat | src/detailed_activity.py:214 | Filtering keeps order and multiplicity: the filter of two consecutive runs is the filter of the first followed by that of the second. |
| Common.PositiveSingle | src/detailed_activity.py:214 | A single sample is kept exactly when it is positive. |
| Common.Mean | src/detailed_activity.py:219 | The mean of a non-empty series lies within any bounds of its samples. |
| Common.Max | src/detailed_activity.py:220 | The maximum is one of the samples and bounds all of them. |
| HeartRate.ZonePartition | src/detailed_activity.py:185-191 | The five zones are contiguous half-open bands with truncated bounds. A heart rate is in some zone iff it lies in [0, trunc(1.1·max)), and then it is in exactly one. |
| HeartRate.MatchIndices | src/detailed_activity.py:196 | Gives exactly the indices of the samples in a band, strictly increasing. Each entry is a valid index of a sample in the band, and every such index is listed. |
| HeartRate.MatchIndicesEnds | src/detailed_activity.py:196-199 | The match list is empty iff no sample is in the band. Its first and last entries are the first and last samples in the band. |
| HeartRate.TimeInBand | src/detailed_activity.py:196-202 | A band's time is the last matching time stamp minus the first (0 for one sample). It is absent iff no sample matches. |
| HeartRate.Percentage | src/detailed_activity.py:206 | The percentage is time·100 / final time stamp, and exactly 0 when the final time stamp is not positive. It lies in [0, 100] when the time is within the elapsed time. |
| HeartRate.ZoneEntry | src/detailed_activity.py:195-207 | A zone's entry is absent iff no sample lies in the zone. Otherwise it holds the zone's time and percentage. |
| HeartRate.ZoneTable | src/detailed_activity.py:194-209 | A zone is a key of the table exactly when some sample lies in it. |
| HeartRate.ZoneTimeBounds | src/detailed_activity.py:199-206 | With a clock that never runs backwards, a zone's time lies in [0, elapsed] and its percentage in [0, 100]. |
| HeartRate.HeartRateZones | src/detailed_activity.py:180-209 | Uses the activity's max_heartrate if it has one, else the stream's largest heart rate. It fails iff there is neither, because the stream is empty. |
| HeartRate.TwoPlateauExample | src/detailed_activity.py:182-206 | 40 s at 100 bpm then 40 s at 150 bpm, with max 160: Z2 and Z5 get 39 s each and the other zones are absent. |
| Power.WindowMeans | src/detailed_activity.py:284-286 | `convolve(.., 'valid')` with a w-sample box gives n − w + 1 window means, the i-th being the mean of samples i..i+w−1. |
| Power.WindowMeansWithin | src/detailed_activity.py:286 | Every window mean lies within the bounds of the samples. |
| Power.MaxWindowMeanSpec | src/detailed_activity.py:336-339 | The best w-window mean is attained by a window, no window beats it, and it lies in [min, max] of the samples. |
| Power.BestWindowMean | src/detailed_activity.py:335-339 | A one-pass sliding-sum scan computes exactly the best window mean. |
| Power.NormalizedPowerFourth | src/detailed_activity.py:275-295 | Normalized power is defined iff at least 30 samples remain. Its value is the mean of the fourth powers of the 30-sample window means. |
| Power.FourthRootUnique | src/detailed_activity.py:293 | There is at most one non-negative fourth root, so the normalized power is well defined. |
| Power.NormalizedPowerOfConstant | src/detailed_activity.py:275-295 | A constant stream of c watts has normalized power exactly c, and no other value. |
| Power.NormalizedPowerWithin | src/detailed_activity.py:275-295 | With samples in [lo, hi] and lo ≥ 0, normalized power lies in [lo, hi]. |
| Power.EstimateFtp | src/detailed_activity.py:297-316 | The FTP estimate is defined iff at least 1200 samples remain. |
| Power.EstimateFtpSpec | src/detailed_activity.py:306-314 | The FTP estimate is 0.95 × a 1200-sample window mean that no other window beats. So it lies between 0.95·min and 0.95·max. |
| Power.PowerCurve | src/detailed_activity.py:318-341 | The curve is empty below 60 samples. Otherwise its keys are exactly the listed durations that fit, each mapped to the best mean over that duration. |
| Power.PowerCurveWithin | src/detailed_activity.py:336-339 | Every point of the curve lies between the smallest and the largest sample. |
| Power.BestMeanNotMonotone | src/detailed_activity.py:330-339 | A longer duration can have a higher best mean, so the curve is not monotone. |
| Power.SummarizePower | src/detailed_activity.py:212-225 | The power section exists iff some sample is positive. Its average is the mean and its max the maximum of the positive samples, with average ≤ max. NP and FTP are taken over the positive samples. |
| Elevation.Diffs | src/detailed_activity.py:246 | `diff().fillna(0)`: the first difference is 0 and each later sample is the previous one plus its difference. |
| Elevation.RisesAndDrops | src/detailed_activity.py:247-248 | The rises are ≥ 0, the drops ≤ 0, and together they are the sum of the differences. |
| Elevation.DiffsTelescope | src/detailed_activity.py:246 | The differences sum to last − first. |
| Elevation.GainMinusLoss | src/detailed_activity.py:247-248 | Gain − loss = altitude[last] − altitude[0]. |
| Elevation.ClimbOnly | src/detailed_activity.py:247-248 | A series that never descends has loss 0 and gain equal to its climb. |
| Distribution.Range | src/detailed_activity.py:349-351 | `range(lo, hi, b)` gives lo + k·b for every k and stays below hi. It is non-empty when lo < hi, and the next step would reach hi. |
| Distribution.Histogram | src/detailed_activity.py:354-360 | There is one bucket per consecutive edge pair and none with fewer than two edges. Each bucket's count is the number of samples in it. |
| Distribution.HoldersOnce | src/detailed_activity.py:354 | With increasing edges a sample falls in at most one bucket: exactly one iff it lies in [first edge, last edge], the last bucket being closed. |
| Distribution.HistogramTotal | src/detailed_activity.py:354-360 | The counts add up to the number of samples between the first and last edge inclusive, hence to at most the sample count. |
| Distribution.Distribute | src/detailed_activity.py:343-362 | The distribution is empty for no samples. Otherwise it is the histogram over edges trunc(min), trunc(min)+b, … below trunc(max)+1. |
| Distribution.DistributeShape | src/detailed_activity.py:349-360 | Buckets are contiguous and b wide. They start at trunc(min) and end at or below trunc(max). |
| Distribution.DistributeTotal | src/detailed_activity.py:343-362 | The counts of a distribution add up to at most the number of samples. |
| Distribution.SingleEdgeIsEmpty | src/detailed_activity.py:349-354 | Two samples of 3.0 give an empty distribution. |
| Streams.SummarizeCadence | src/detailed_activity.py:231-239 | The cadence section exists iff some sample is positive. Its average and max are the mean and maximum of the positive samples, with a 5-rpm distribution. |
| Streams.SummarizeSpeed | src/detailed_activity.py:263-271 | The speed section exists iff the channel is non-empty. Its average and max are the mean and maximum of all samples, with min ≤ average ≤ max and a 1 m/s distribution. |
| Streams.SummarizeElevation | src/detailed_activity.py:242-260 | The elevation section exists iff the channel is non-empty. Gain and loss are the summed rises and drops, ≥ 0, with their difference the net change. Max and min are the channel's extremes. The gradient distribution is present iff a grade column exists. |
| Streams.AnalyzeStreams | src/detailed_activity.py:171-273 | No table gives no analysis. It fails iff an empty heart-rate channel has no maximum to fall back on. Each section is present exactly under its guard and equals its own summary. |
| Activities.OfType | src/analyzer.py:29 | The filtered rows all have the requested type, every row of that type is kept, nothing else is added, and an all-matching table is unchanged. |
| Activities.OfTypeConcat | src/analyzer.py:29 | Filtering distributes over concatenation, so table order is preserved. |
| Activities.OfTypeIdempotent | src/analyzer.py:29 | Filtering twice is filtering once. |
| Activities.FilterActivityType | src/analyzer.py:24-29 | Gives None when nothing was loaded and an error iff the type column is missing. Otherwise it gives the same columns with the filtered rows. |
| Activities.SummaryStats | src/analyzer.py:31-73 | Gives None iff there is no table or it is empty. The count is the row count. The past-week count is the number of rows starting at or after the week boundary, or 0 without a date column. Distance /1000, elevation gain and moving time /3600 are column totals. Heart rates and watts are column means and maxima, speeds the same ×3.6. A missing column gives 0. |
| Activities.CountSince | src/analyzer.py:55-61 | The past-week count is 0 iff no activity starts at or after the boundary, and the row count iff all do. |
| Activities.SummaryTotalsAdd | src/analyzer.py:59-65 | The counts and totals of a table are the sums of those of its two parts. |
| Activities.FixedZone | src/analyzer.py:137-147 | `pd.cut` with right=False: a value is in Z1..Z5 iff it lies in that bin's [lower, upper), and in no zone outside [0, 200). |
| Activities.FixedBinsContiguous | src/analyzer.py:137 | The bins run from 0 to 200 and each upper edge is the next lower edge. |
| Activities.ZoneSecondsAddUp | src/analyzer.py:141-149 | The five zone totals add up to the moving time of the rows with an average HR in [0, 200). |
| Activities.ZoneMinutes | src/analyzer.py:123-149 | There are zone minutes iff there are activities of the type and both the HR and moving-time columns exist. Then all five zones are keys and each holds the zone's summed moving time / 60. It fails iff the type column, or the moving-time column when needed, is missing. |
| Activities.Day | src/analyzer.py:203 | Daily resampling puts a start time in the day whose [start, start + 86400) holds it. |
| Activities.DailyLoad | src/analyzer.py:199-203 | There is one total per day from the first to the last activity day, each being the summed load of that day. |
| Activities.FirstDay | src/analyzer.py:203 | The first day of the resampled series is the day of some activity and no activity is earlier. |
| Activities.LastDay | src/analyzer.py:203 | The last day of the resampled series is the day of some activity and no activity is later. |
| Activities.DailyLoadConserves | src/analyzer.py:199-203 | The daily totals add up to the load of all activities. |
| Activities.Rolling7 | src/analyzer.py:206 | The 7-day mean is undefined for the first six days. Afterwards it is one seventh of the last seven days' sum. |
| Activities.RollingWithin | src/analyzer.py:206 | Each defined 7-day mean lies within the bounds of the daily loads. |
| Activities.TrainingLoad | src/analyzer.py:184-206 | There is a load series iff there are activities of the type and the HR, moving-time and date columns exist. It fails iff the type column, or the date column when needed, is missing. The series starts at the first activity day and holds the daily loads, whose sum is the total load, with their rolling means. |
| CoachFormat.PyPrefix | src/openai_integration.py:216 | Python `s[:k]`: the first k elements, or all but the last −k for negative k. |
| CoachFormat.PyPrefixBound | src/openai_integration.py:216-219 | A slice never exceeds a non-negative bound or the list, and a large bound keeps everything. |
| CoachFormat.FloorDiv | src/openai_integration.py:251 | Python `//` floors for either sign of the divisor. |
| CoachFormat.CleanName | src/openai_integration.py:284 | The output has the same length. Kept characters are unchanged, every other becomes `_`, and every output character is kept. |
| CoachFormat.CleanNameFixed | src/openai_integration.py:337 | A name is unchanged iff it holds only alphanumerics, space, `_` and `-`. |
| CoachFormat.CleanNameIdempotent | src/openai_integration.py:284 | Cleaning twice equals cleaning once. |
| CoachFormat.CopyAnalysis | src/openai_integration.py:162-187 | Zones are copied from heart_rate_zones, else from hr_zones. The other listed sections are copied as they are, and no other key is copied. |
| CoachFormat.DashboardsToConvert | src/openai_integration.py:402 | At most max_count dashboards are handed to the converter, and they are a prefix of the list. |
| CoachFormat.ImagesAsWritten | src/openai_integration.py:196-219 | The code's image list is a prefix of the found images followed by the converted ones. |
| CoachFormat.ImagesAsWrittenExceedsCap | src/openai_integration.py:205-216 | Five found images with an empty conversion and a cap of 3 attach all five. |
| CoachFormat.Images | src/openai_integration.py:196-219 | With the cap on every path the list never exceeds max_images and is a prefix of found + converted. |
| CoachFormat.ImagesAgreeOutsideGap | src/openai_integration.py:205-219 | The capped list equals the code's except when conversion ran and yielded nothing while over the cap. |
| CoachFormat.StrideAsWritten | src/openai_integration.py:250-253 | When max_points is set and exceeded, the stride is the larger of the sample rate and n // max_points. Otherwise it is the sample rate. |
| CoachFormat.SelectRows | src/openai_integration.py:256-257 | A stride s > 1 keeps ceil(n/s) rows, the k-th being row k·s. A stride ≤ 1 keeps the table. |
| CoachFormat.SelectRowsKeepsMultiples | src/openai_integration.py:257 | Row i is kept, at position i/s, iff s divides i. |
| CoachFormat.StrideAsWrittenExceedsMaxPoints | src/openai_integration.py:250-257 | With the defaults (30, 500), 15100 rows keep 504 points. |
| CoachFormat.Stride | src/openai_integration.py:250-253 | With rounded-up division, a positive max_points bounds the rows kept when exceeded. Otherwise the stride is the sample rate. |
| CoachFormat.SampledWithinMaxPoints | src/openai_integration.py:250-257 | With the corrected stride the sampled table never exceeds a positive max_points. |
| CoachFormat.Available | src/openai_integration.py:246-247 | The requested fields the table has, other than time, all appear, and nothing else does. |
| CoachFormat.AvailableConcat | src/openai_integration.py:246-247 | The selection keeps request order: the fields of two consecutive runs of the request are those of the first followed by those of the second. |
| CoachFormat.AvailableSingle | src/openai_integration.py:247 | A single requested field is kept exactly when the table has it and it is not time. |
| CoachFormat.Visible | src/openai_integration.py:261-262 | activity_id and activity_name are dropped and every other column kept. |
| CoachFormat.TimeseriesColumns | src/openai_integration.py:246-267 | The columns are time followed by the visible available fields, in request order, and are distinct. Every requested field the table has appears and no hidden one does. There is no time series iff the table lacks time or a field repeats. |
| CoachFormat.DistinctRequestSucceeds | src/openai_integration.py:246-247 | A request without repeats always yields a time series when the table has time. |
| CoachFormat.DefaultRequestSucceeds | src/openai_integration.py:115-116 | The default fields always yield a time series holding every default field the table has. |
| Strava.ParseRecord | src/strava_api.py:104-131 | A row has exactly the 26 listed keys, each the activity's value or None when absent. |
| Strava.ParseRecordOnlyListed | src/strava_api.py:104-131 | A row depends only on the listed fields. |
| Strava.RecordKeysDistinct | src/strava_api.py:104-131 | The 26 listed keys are distinct. |
| Strava.ParseActivities | src/strava_api.py:96-132 | Gives None iff the input is missing or empty. Otherwise it gives one row per activity in input order, with the fixed keys. |
| Strava.ParseActivitiesConcat | src/strava_api.py:103-132 | Parsing distributes over concatenation of the input. |
| Strava.RewriteEnv | src/strava_api.py:53-58 | The line count is preserved. Refresh-token lines become the new token line, and other lines are unchanged. |
| Strava.RewriteWithoutTokenLine | src/strava_api.py:53-58 | A file without a refresh-token line is unchanged. |
| Strava.RewriteLastWins | src/strava_api.py:53-58 | Two rewrites keep the last token only. |
| Strava.RewriteIdempotent | src/strava_api.py:53-58 | Rewriting with the same token again changes nothing. |
| Strava.GetAccessToken | src/strava_api.py:26-67 | An access token is returned iff a non-empty refresh token is stored and the answer has both refresh_token and access_token. Only an answer with refresh_token changes the stored token and the file. |
| Strava.FileAgreesWithClient | src/strava_api.py:43-58 | After a refresh every token line of the file carries the token the client holds. |

## Left out

- HTTP requests to the activity and token endpoints, the OAuth callback
  server and browser launch: foreign I/O. The token endpoint's answer is a
  parameter.
- File-system walking, JSON and CSV caches, and the HTML-to-image
  subprocesses: I/O against an unseen environment. The found images and the
  conversion result are parameters.
- Base64 encoding of images and the `images` key, which is set only when
  encoding succeeds: file reads.
- All plotly plotting and the dashboard, CLI, scripts and interactive
  prompts: presentation and glue.
- The date-window filters of `format_activity_data` and the `now()`
  computation with time-zone handling in `summary_stats`: clock-dependent.
  `summary_stats` takes the week boundary as the `weekAgo` parameter.
- Time stamps are modelled as seconds. The conversion of date strings to
  datetimes is not modelled.
- IEEE floating point: values are exact reals, so a zone bound such as
  trunc(m·0.7) can differ by one from the float result at exact boundaries.
  `round(.., 2)` display conversions are not modelled.
- Power.NormalizedPowerFourth: carries the fourth power of normalized power
  instead of its fourth root (there is no real root function).
  `Power.IsNormalizedPower` characterises the root as the unique r ≥ 0 with
  r⁴ = this value.
- NaN handling: channels and columns are either absent or fully populated.
  So `isna().all()` holds exactly for an empty channel, and pandas' skipping
  of NaN in mean, max and sum is not modelled.
- HeartRate.HeartRateZones: an activity whose `max_heartrate` key is present
  but null (a `TypeError` in the source) is not modelled. The activity
  maximum is either a number or absent.
- CoachFormat.CleanName: `str.isalnum` is Unicode-aware, but the model keeps
  ASCII letters and digits only.
- Distribution bucket labels (`"lo.0-hi.0"`) and power-curve keys (`"5s"`)
  are formatting. Buckets are modelled as (lo, hi, count) in order and curve
  keys as the duration in seconds.
- The per-activity fields of `format_activity_data` (rounding, unit
  conversions, NaN checks on the summary row) and `fillna` in the time-series
  values: presentation.
- The timeseries column of a table with duplicate CSV headers: pandas renames
  such headers on reading, so the columns are a set.

## Findings

| source | as written | input that shows it | evidently intended | confidence | as-written member | corrected member |
|---|---|---|---|---|---|---|
| src/openai_integration.py:205-216 | When conversion is requested and returns no image, the found images are kept without the `[:max_images]` cut | 5 found images, one dashboard, `convert_html=True`, conversion yields `[]`, `max_images=3`: 5 images attached | at most `max_images` images per activity, as the parameter's documentation and the cut on every other path say | high, not executed | CoachFormat.ImagesAsWritten, CoachFormat.ImagesAsWrittenExceedsCap | CoachFormat.Images |
| src/openai_integration.py:250-257 | The stride `max(sample_rate, n // max_points)` rounds down, so `ceil(n / stride)` rows can exceed `max_points` | defaults `sample_rate=30`, `max_points=500`, 15100 stream rows: stride 30 keeps 504 points | at most `max_points` points per activity, as the parameter is documented | medium, not executed | CoachFormat.StrideAsWritten, CoachFormat.StrideAsWrittenExceedsMaxPoints | CoachFormat.Stride, CoachFormat.SampledWithinMaxPoints |
