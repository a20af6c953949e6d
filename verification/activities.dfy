/** The activity-table analyses of src/analyzer.py: filtering by sport,
    the summary statistics, the fixed heart-rate bins and the training load.
    The table is the one loaded from the activities file; a column the file
    lacks is absent from `columns`, and the values of such a column in the
    rows are never read. Dates are seconds since the epoch, local time. */
module Activities {
  import opened Common
  import opened HeartRate

  datatype Metric =
    | Distance | TotalElevationGain | MovingTime
    | AverageHeartrate | MaxHeartrate
    | AverageSpeed | MaxSpeed
    | AverageWatts | MaxWatts

  datatype Column = TypeColumn | DateColumn | MetricColumn(metric: Metric)

  /** One row of the activities table. */
  datatype Activity = Activity(
    activityType: string,
    startDate: int,
    distance: real,
    totalElevationGain: real,
    movingTime: real,
    averageHeartrate: real,
    maxHeartrate: real,
    averageSpeed: real,
    maxSpeed: real,
    averageWatts: real,
    maxWatts: real)

  datatype Table = Table(columns: set<Column>, rows: seq<Activity>)

  /** A column the code indexes is not in the table (pandas KeyError). */
  datatype AnalyzerError = MissingColumn(column: Column)

  function Value(a: Activity, m: Metric): real
  {
    match m
    case Distance => a.distance
    case TotalElevationGain => a.totalElevationGain
    case MovingTime => a.movingTime
    case AverageHeartrate => a.averageHeartrate
    case MaxHeartrate => a.maxHeartrate
    case AverageSpeed => a.averageSpeed
    case MaxSpeed => a.maxSpeed
    case AverageWatts => a.averageWatts
    case MaxWatts => a.maxWatts
  }

  /** The series df[m]. */
  function ColumnOf(rows: seq<Activity>, m: Metric): (r: seq<real>)
    ensures |r| == |rows|
    ensures forall i :: 0 <= i < |rows| ==> r[i] == Value(rows[i], m)
  {
    seq(|rows|, i requires 0 <= i < |rows| => Value(rows[i], m))
  }

  lemma ColumnOfConcat(a: seq<Activity>, b: seq<Activity>, m: Metric)
    ensures ColumnOf(a + b, m) == ColumnOf(a, m) + ColumnOf(b, m)
  {
  }

  // ---------------------------------------------------------------------
  // filter_activity_type (src/analyzer.py:24-29)

  /** The rows whose type is t, in table order (`df[df['type'] == t]`). */
  function OfType(rows: seq<Activity>, t: string): (r: seq<Activity>)
    ensures |r| <= |rows|
    ensures forall i :: 0 <= i < |r| ==> r[i].activityType == t
    ensures forall i :: 0 <= i < |rows| && rows[i].activityType == t ==> rows[i] in r
    ensures forall a :: a in r ==> a in rows
    ensures (forall i :: 0 <= i < |rows| ==> rows[i].activityType == t) ==> r == rows
  {
    if |rows| == 0 then []
    else
      var rest := OfType(rows[..|rows| - 1], t);
      assert rows == rows[..|rows| - 1] + [rows[|rows| - 1]];
      if rows[|rows| - 1].activityType == t then rest + [rows[|rows| - 1]] else rest
  }

  /** Filtering keeps the table order: the filter of two consecutive runs of
      rows is the filter of the first followed by the filter of the second. */
  lemma {:induction false} OfTypeConcat(a: seq<Activity>, b: seq<Activity>, t: string)
    ensures OfType(a + b, t) == OfType(a, t) + OfType(b, t)
    decreases |b|
  {
    if |b| == 0 {
      assert a + b == a;
    } else {
      var b' := b[..|b| - 1];
      assert (a + b)[..|a + b| - 1] == a + b';
      OfTypeConcat(a, b', t);
    }
  }

  /** Filtering twice by the same type is filtering once. */
  lemma OfTypeIdempotent(rows: seq<Activity>, t: string)
    ensures OfType(OfType(rows, t), t) == OfType(rows, t)
  {
  }

  /** filter_activity_type: None when nothing was loaded, an error when the
      table has no type column. */
  function FilterActivityType(df: Option<Table>, t: string): (r: Result<Option<Table>, AnalyzerError>)
    ensures df.None? ==> r == Success(None)
    ensures r.Failure? <==> df.Some? && TypeColumn !in df.value.columns
    ensures r.Success? && df.Some? ==>
      && r.value.Some?
      && r.value.value.columns == df.value.columns
      && r.value.value.rows == OfType(df.value.rows, t)
  {
    match df
    case None => Success(None)
    case Some(tab) =>
      if TypeColumn !in tab.columns then Failure(MissingColumn(TypeColumn))
      else Success(Some(Table(tab.columns, OfType(tab.rows, t))))
  }

  // ---------------------------------------------------------------------
  // summary_stats (src/analyzer.py:31-73)

  datatype Stats = Stats(
    totalActivities: nat,
    activitiesPastWeek: nat,
    totalDistanceKm: real,
    totalElevationM: real,
    totalMovingTimeH: real,
    avgHeartrate: real,
    maxHeartrate: real,
    avgSpeedKmh: real,
    maxSpeedKmh: real,
    avgWatts: real,
    maxWatts: real)

  /** Number of rows that start at or after `since`. */
  function CountSince(rows: seq<Activity>, since: int): (r: nat)
    ensures r <= |rows|
    ensures r == 0 <==> forall k :: 0 <= k < |rows| ==> rows[k].startDate < since
    ensures r == |rows| <==> forall k :: 0 <= k < |rows| ==> rows[k].startDate >= since
  {
    if |rows| == 0 then 0
    else
      var p := rows[..|rows| - 1];
      assert forall k :: 0 <= k < |p| ==> p[k] == rows[k];
      CountSince(p, since) + (if rows[|rows| - 1].startDate >= since then 1 else 0)
  }

  /** Sum of a column divided by `scale`, or 0 without the column. */
  function TotalOf(tab: Table, m: Metric, scale: real): real
    requires scale > 0.0
  {
    if MetricColumn(m) in tab.columns then Sum(ColumnOf(tab.rows, m)) / scale else 0.0
  }

  /** Mean of a column times `factor`, or 0 without the column. */
  function MeanOf(tab: Table, m: Metric, factor: real): real
    requires |tab.rows| > 0
  {
    if MetricColumn(m) in tab.columns then Mean(ColumnOf(tab.rows, m)) * factor else 0.0
  }

  /** Maximum of a column times `factor`, or 0 without the column. */
  function MaxOf(tab: Table, m: Metric, factor: real): real
    requires |tab.rows| > 0
  {
    if MetricColumn(m) in tab.columns then Max(ColumnOf(tab.rows, m)) * factor else 0.0
  }

  /** `v` is the column's sum expressed in `unit`s, or 0 without the column. */
  ghost predicate TotalIs(tab: Table, m: Metric, unit: real, v: real)
  {
    if MetricColumn(m) in tab.columns then v * unit == Sum(ColumnOf(tab.rows, m)) else v == 0.0
  }

  /** `v` is the column's mean times `factor`, or 0 without the column. */
  ghost predicate MeanIs(tab: Table, m: Metric, factor: real, v: real)
    requires |tab.rows| > 0
  {
    if MetricColumn(m) in tab.columns then v == Mean(ColumnOf(tab.rows, m)) * factor else v == 0.0
  }

  /** `v` is the column's largest value times `factor`, or 0 without the
      column. */
  ghost predicate MaxIs(tab: Table, m: Metric, factor: real, v: real)
    requires |tab.rows| > 0
  {
    if MetricColumn(m) in tab.columns then v == Max(ColumnOf(tab.rows, m)) * factor else v == 0.0
  }

  /** summary_stats over the table df (the loaded table when the caller
      passes none); `weekAgo` is the time seven days before now. Every field
      is its column's statistic in the reported unit, and 0 when the table
      lacks the column. */
  function SummaryStats(df: Option<Table>, weekAgo: int): (r: Option<Stats>)
    ensures r.None? <==> df.None? || |df.value.rows| == 0
    ensures r.Some? ==>
      var tab := df.value;
      var s := r.value;
      && s.totalActivities == |tab.rows|
      && s.activitiesPastWeek == (if DateColumn in tab.columns then CountSince(tab.rows, weekAgo) else 0)
      && s.activitiesPastWeek <= s.totalActivities
      && TotalIs(tab, Distance, 1000.0, s.totalDistanceKm)
      && TotalIs(tab, TotalElevationGain, 1.0, s.totalElevationM)
      && TotalIs(tab, MovingTime, 3600.0, s.totalMovingTimeH)
      && MeanIs(tab, AverageHeartrate, 1.0, s.avgHeartrate)
      && MaxIs(tab, MaxHeartrate, 1.0, s.maxHeartrate)
      && MeanIs(tab, AverageSpeed, 3.6, s.avgSpeedKmh)
      && MaxIs(tab, MaxSpeed, 3.6, s.maxSpeedKmh)
      && MeanIs(tab, AverageWatts, 1.0, s.avgWatts)
      && MaxIs(tab, MaxWatts, 1.0, s.maxWatts)
      && (MetricColumn(AverageHeartrate) in tab.columns ==>
            Min(ColumnOf(tab.rows, AverageHeartrate)) <= s.avgHeartrate
              <= Max(ColumnOf(tab.rows, AverageHeartrate)))
      && (MetricColumn(MaxHeartrate) in tab.columns ==>
            forall i :: 0 <= i < |tab.rows| ==> tab.rows[i].maxHeartrate <= s.maxHeartrate)
  {
    match df
    case None => None
    case Some(tab) =>
      if |tab.rows| == 0 then None
      else
        ScaledColumns(tab);
        HeartRateBounds(tab);
        Some(Stats(
          |tab.rows|,
          if DateColumn in tab.columns then CountSince(tab.rows, weekAgo) else 0,
          TotalOf(tab, Distance, 1000.0),
          TotalOf(tab, TotalElevationGain, 1.0),
          TotalOf(tab, MovingTime, 3600.0),
          MeanOf(tab, AverageHeartrate, 1.0),
          MaxOf(tab, MaxHeartrate, 1.0),
          MeanOf(tab, AverageSpeed, 3.6),
          MaxOf(tab, MaxSpeed, 3.6),
          MeanOf(tab, AverageWatts, 1.0),
          MaxOf(tab, MaxWatts, 1.0)))
  }

  /** The helpers compute the column statistics the contract names. */
  lemma ScaledColumns(tab: Table)
    requires |tab.rows| > 0
    ensures TotalIs(tab, Distance, 1000.0, TotalOf(tab, Distance, 1000.0))
    ensures TotalIs(tab, TotalElevationGain, 1.0, TotalOf(tab, TotalElevationGain, 1.0))
    ensures TotalIs(tab, MovingTime, 3600.0, TotalOf(tab, MovingTime, 3600.0))
    ensures forall m: Metric, f: real :: MeanIs(tab, m, f, MeanOf(tab, m, f))
    ensures forall m: Metric, f: real :: MaxIs(tab, m, f, MaxOf(tab, m, f))
  {
  }

  /** The mean heart rate lies between the smallest and the largest, and the
      maximum bounds every row. */
  lemma HeartRateBounds(tab: Table)
    requires |tab.rows| > 0
    ensures MetricColumn(AverageHeartrate) in tab.columns ==>
      Min(ColumnOf(tab.rows, AverageHeartrate)) <= MeanOf(tab, AverageHeartrate, 1.0)
        <= Max(ColumnOf(tab.rows, AverageHeartrate))
    ensures MetricColumn(MaxHeartrate) in tab.columns ==>
      forall i :: 0 <= i < |tab.rows| ==> tab.rows[i].maxHeartrate <= MaxOf(tab, MaxHeartrate, 1.0)
  {
    var hr := ColumnOf(tab.rows, AverageHeartrate);
    assert Within(hr, Min(hr), Max(hr));
    var mx := ColumnOf(tab.rows, MaxHeartrate);
    forall i | 0 <= i < |tab.rows|
      ensures tab.rows[i].maxHeartrate == mx[i]
    {
    }
  }

  lemma {:induction false} CountSinceConcat(a: seq<Activity>, b: seq<Activity>, since: int)
    ensures CountSince(a + b, since) == CountSince(a, since) + CountSince(b, since)
    decreases |b|
  {
    if |b| == 0 {
      assert a + b == a;
    } else {
      var b' := b[..|b| - 1];
      assert (a + b)[..|a + b| - 1] == a + b';
      CountSinceConcat(a, b', since);
    }
  }

  /** The counts and totals of summary_stats add up over a split of the
      table into two parts with the same columns. */
  lemma SummaryTotalsAdd(cols: set<Column>, a: seq<Activity>, b: seq<Activity>, weekAgo: int)
    requires |a| > 0 && |b| > 0
    ensures
      var sa := SummaryStats(Some(Table(cols, a)), weekAgo).value;
      var sb := SummaryStats(Some(Table(cols, b)), weekAgo).value;
      var s := SummaryStats(Some(Table(cols, a + b)), weekAgo).value;
      && s.totalActivities == sa.totalActivities + sb.totalActivities
      && s.activitiesPastWeek == sa.activitiesPastWeek + sb.activitiesPastWeek
      && s.totalDistanceKm == sa.totalDistanceKm + sb.totalDistanceKm
      && s.totalElevationM == sa.totalElevationM + sb.totalElevationM
      && s.totalMovingTimeH == sa.totalMovingTimeH + sb.totalMovingTimeH
  {
    CountSinceConcat(a, b, weekAgo);
    TotalOfAdd(cols, a, b, Distance);
    TotalOfAdd(cols, a, b, TotalElevationGain);
    TotalOfAdd(cols, a, b, MovingTime);
  }

  lemma TotalOfAdd(cols: set<Column>, a: seq<Activity>, b: seq<Activity>, m: Metric)
    ensures TotalOf(Table(cols, a + b), m, 1.0) == TotalOf(Table(cols, a), m, 1.0) + TotalOf(Table(cols, b), m, 1.0)
  {
    ColumnOfConcat(a, b, m);
    SumConcat(ColumnOf(a, m), ColumnOf(b, m));
  }

  // ---------------------------------------------------------------------
  // Fixed heart-rate bins of plot_heartrate_zones (src/analyzer.py:137-149)

  /** Bin edges 0, 120, 140, 160, 180, 200, each bin closed on the left. */
  function FixedLower(z: Zone): int
  {
    match z
    case Z1 => 0
    case Z2 => 120
    case Z3 => 140
    case Z4 => 160
    case Z5 => 180
  }

  function FixedUpper(z: Zone): int
  {
    match z
    case Z1 => 120
    case Z2 => 140
    case Z3 => 160
    case Z4 => 180
    case Z5 => 200
  }

  /** pd.cut with right=False: the zone whose bin holds v, None outside
      [0, 200). */
  function FixedZone(v: real): (r: Option<Zone>)
    ensures forall z :: r == Some(z) <==> FixedLower(z) as real <= v < FixedUpper(z) as real
    ensures r.None? <==> v < 0.0 || v >= 200.0
  {
    if v < 0.0 then None
    else if v < 120.0 then Some(Z1)
    else if v < 140.0 then Some(Z2)
    else if v < 160.0 then Some(Z3)
    else if v < 180.0 then Some(Z4)
    else if v < 200.0 then Some(Z5)
    else None
  }

  /** The bins are contiguous: each upper edge is the next lower edge. */
  lemma FixedBinsContiguous()
    ensures FixedLower(Z1) == 0 && FixedUpper(Z5) == 200
    ensures FixedUpper(Z1) == FixedLower(Z2) && FixedUpper(Z2) == FixedLower(Z3)
    ensures FixedUpper(Z3) == FixedLower(Z4) && FixedUpper(Z4) == FixedLower(Z5)
  {
  }

  /** Summed moving time (seconds) of the rows binned into z. */
  function ZoneSeconds(rows: seq<Activity>, z: Zone): real
  {
    if |rows| == 0 then 0.0
    else
      var a := rows[|rows| - 1];
      ZoneSeconds(rows[..|rows| - 1], z) + (if FixedZone(a.averageHeartrate) == Some(z) then a.movingTime else 0.0)
  }

  /** Summed moving time of the rows whose average heart rate is in [0, 200). */
  function BinnedSeconds(rows: seq<Activity>): real
  {
    if |rows| == 0 then 0.0
    else
      var a := rows[|rows| - 1];
      BinnedSeconds(rows[..|rows| - 1]) + (if 0.0 <= a.averageHeartrate < 200.0 then a.movingTime else 0.0)
  }

  /** Every binned row lands in exactly one zone: the five zone totals add up
      to the moving time of the rows with an average heart rate in [0, 200). */
  lemma {:induction false} ZoneSecondsAddUp(rows: seq<Activity>)
    ensures ZoneSeconds(rows, Z1) + ZoneSeconds(rows, Z2) + ZoneSeconds(rows, Z3)
      + ZoneSeconds(rows, Z4) + ZoneSeconds(rows, Z5) == BinnedSeconds(rows)
    decreases |rows|
  {
    if |rows| > 0 {
      ZoneSecondsAddUp(rows[..|rows| - 1]);
    }
  }

  /** plot_heartrate_zones, without the plot: minutes per zone of the
      activities of type t. None when there is nothing to bin; an error when
      the table lacks the type or moving-time column. */
  function ZoneMinutes(df: Option<Table>, t: string): (r: Result<Option<map<Zone, real>>, AnalyzerError>)
    ensures (df.None? || |df.value.rows| == 0) ==> r == Success(None)
    ensures (r.Success? && r.value.Some?) <==>
      && df.Some? && TypeColumn in df.value.columns
      && |OfType(df.value.rows, t)| > 0
      && MetricColumn(AverageHeartrate) in df.value.columns
      && MetricColumn(MovingTime) in df.value.columns
    ensures r.Success? && r.value.Some? ==>
      && r.value.value.Keys == AllZones
      && (forall z :: z in AllZones ==>
            r.value.value[z] * 60.0 == ZoneSeconds(OfType(df.value.rows, t), z))
    ensures r.Failure? <==>
      && df.Some? && |df.value.rows| > 0
      && (TypeColumn !in df.value.columns
          || (|OfType(df.value.rows, t)| > 0
              && MetricColumn(AverageHeartrate) in df.value.columns
              && MetricColumn(MovingTime) !in df.value.columns))
  {
    if df.None? || |df.value.rows| == 0 then Success(None)
    else
      match FilterActivityType(df, t)
      case Failure(e) => Failure(e)
      case Success(f) =>
        var tab := f.value;
        if |tab.rows| == 0 || MetricColumn(AverageHeartrate) !in tab.columns then Success(None)
        else if MetricColumn(MovingTime) !in tab.columns then Failure(MissingColumn(MetricColumn(MovingTime)))
        else Success(Some(map z | z in AllZones :: ZoneSeconds(tab.rows, z) / 60.0))
  }

  // ---------------------------------------------------------------------
  // Training load (src/analyzer.py:184-206)

  const SecondsPerDay: int := 86400

  /** moving_time * average_heartrate / 3600. */
  function Load(a: Activity): real
  {
    a.movingTime * a.averageHeartrate / 3600.0
  }

  /** The calendar day of a start time (resample('D') floors to midnight). */
  function Day(t: int): (d: int)
    ensures d * SecondsPerDay <= t < (d + 1) * SecondsPerDay
  {
    t / SecondsPerDay
  }

  function Days(rows: seq<Activity>): (r: seq<int>)
    ensures |r| == |rows|
    ensures forall i :: 0 <= i < |rows| ==> r[i] == Day(rows[i].startDate)
  {
    seq(|rows|, i requires 0 <= i < |rows| => Day(rows[i].startDate))
  }

  /** Sum of the loads of the rows on day d. */
  function DayTotal(rows: seq<Activity>, d: int): real
  {
    if |rows| == 0 then 0.0
    else
      var a := rows[|rows| - 1];
      DayTotal(rows[..|rows| - 1], d) + (if Day(a.startDate) == d then Load(a) else 0.0)
  }

  /** Sum of the loads of the rows on days first .. first+n-1. */
  function LoadBetween(rows: seq<Activity>, first: int, n: nat): real
  {
    if |rows| == 0 then 0.0
    else
      var a := rows[|rows| - 1];
      LoadBetween(rows[..|rows| - 1], first, n)
        + (if first <= Day(a.startDate) < first + n then Load(a) else 0.0)
  }

  function TotalLoad(rows: seq<Activity>): real
  {
    if |rows| == 0 then 0.0 else TotalLoad(rows[..|rows| - 1]) + Load(rows[|rows| - 1])
  }

  /** Daily totals for the n days from `first`, a day without activity
      counting 0. */
  function DaySeries(rows: seq<Activity>, first: int, n: nat): (r: seq<real>)
    ensures |r| == n
    ensures forall k :: 0 <= k < n ==> r[k] == DayTotal(rows, first + k)
  {
    if n == 0 then [] else DaySeries(rows, first, n - 1) + [DayTotal(rows, first + (n - 1))]
  }

  /** Day of the earliest activity. */
  function FirstDay(rows: seq<Activity>): (d: int)
    requires |rows| > 0
    ensures forall i :: 0 <= i < |rows| ==> d <= Day(rows[i].startDate)
    ensures exists i :: 0 <= i < |rows| && Day(rows[i].startDate) == d
  {
    var ds := Days(rows);
    var d := MinInt(ds);
    assert forall i :: 0 <= i < |rows| ==> ds[i] == Day(rows[i].startDate);
    d
  }

  /** Day of the latest activity. */
  function LastDay(rows: seq<Activity>): (d: int)
    requires |rows| > 0
    ensures forall i :: 0 <= i < |rows| ==> Day(rows[i].startDate) <= d
    ensures exists i :: 0 <= i < |rows| && Day(rows[i].startDate) == d
  {
    var ds := Days(rows);
    var d := MaxInt(ds);
    assert forall i :: 0 <= i < |rows| ==> ds[i] == Day(rows[i].startDate);
    d
  }

  lemma FirstDayNotAfterLast(rows: seq<Activity>)
    requires |rows| > 0
    ensures FirstDay(rows) <= LastDay(rows)
  {
    assert FirstDay(rows) <= Day(rows[0].startDate) <= LastDay(rows);
  }

  /** resample('D').sum(): one total per day from the first to the last
      activity day. */
  function DailyLoad(rows: seq<Activity>): (r: seq<real>)
    requires |rows| > 0
    ensures |r| == LastDay(rows) - FirstDay(rows) + 1
    ensures forall k :: 0 <= k < |r| ==> r[k] == DayTotal(rows, FirstDay(rows) + k)
  {
    FirstDayNotAfterLast(rows);
    DaySeries(rows, FirstDay(rows), LastDay(rows) - FirstDay(rows) + 1)
  }

  lemma {:induction false} LoadBetweenStep(rows: seq<Activity>, first: int, n: nat)
    ensures LoadBetween(rows, first, n + 1) == LoadBetween(rows, first, n) + DayTotal(rows, first + n)
    decreases |rows|
  {
    if |rows| > 0 {
      LoadBetweenStep(rows[..|rows| - 1], first, n);
    }
  }

  lemma {:induction false} NothingBetween(rows: seq<Activity>, first: int)
    ensures LoadBetween(rows, first, 0) == 0.0
    decreases |rows|
  {
    if |rows| > 0 {
      NothingBetween(rows[..|rows| - 1], first);
    }
  }

  /** Summing the daily totals is summing the loads of the days covered. */
  lemma {:induction false} DaySeriesSum(rows: seq<Activity>, first: int, n: nat)
    ensures Sum(DaySeries(rows, first, n)) == LoadBetween(rows, first, n)
    decreases n
  {
    if n == 0 {
      NothingBetween(rows, first);
    } else {
      assert DaySeries(rows, first, n)[..n - 1] == DaySeries(rows, first, n - 1);
      DaySeriesSum(rows, first, n - 1);
      LoadBetweenStep(rows, first, n - 1);
    }
  }

  lemma {:induction false} AllBetween(rows: seq<Activity>, first: int, n: nat)
    requires forall i :: 0 <= i < |rows| ==> first <= Day(rows[i].startDate) < first + n
    ensures LoadBetween(rows, first, n) == TotalLoad(rows)
    decreases |rows|
  {
    if |rows| > 0 {
      AllBetween(rows[..|rows| - 1], first, n);
    }
  }

  /** Resampling by day loses no load: the daily totals add up to the load
      of all the activities. */
  lemma DailyLoadConserves(rows: seq<Activity>)
    requires |rows| > 0
    ensures Sum(DailyLoad(rows)) == TotalLoad(rows)
  {
    var lo := FirstDay(rows);
    var n := LastDay(rows) - lo + 1;
    assert DailyLoad(rows) == DaySeries(rows, lo, n);
    DaySeriesSum(rows, lo, n);
    AllBetween(rows, lo, n);
  }

  /** rolling(window=7).mean(): undefined for the first six days, then the
      mean of the day and the six before it. */
  function Rolling7(daily: seq<real>): (r: seq<Option<real>>)
    ensures |r| == |daily|
    ensures forall i :: 0 <= i < |r| ==> (r[i].None? <==> i < 6)
    ensures forall i :: 6 <= i < |r| ==> r[i].value * 7.0 == Sum(daily[i - 6..i + 1])
  {
    seq(|daily|, i requires 0 <= i < |daily| => if i < 6 then None else Some(Mean(daily[i - 6..i + 1])))
  }

  /** Each defined 7-day average lies within the bounds of the daily loads. */
  lemma RollingWithin(daily: seq<real>, lo: real, hi: real)
    requires Within(daily, lo, hi)
    ensures forall i :: 6 <= i < |daily| ==> lo <= Rolling7(daily)[i].value <= hi
  {
    forall i | 6 <= i < |daily|
      ensures lo <= Rolling7(daily)[i].value <= hi
    {
      assert Within(daily[i - 6..i + 1], lo, hi);
    }
  }

  /** The computed part of training_load_analysis. */
  datatype LoadSeries = LoadSeries(firstDay: int, daily: seq<real>, rolling: seq<Option<real>>)

  /** training_load_analysis without the plot: the daily loads and their
      7-day averages for the activities of type t. None when there is nothing
      to analyse or the heart-rate or moving-time column is missing; an error
      when the type or start-date column is missing. */
  function TrainingLoad(df: Option<Table>, t: string): (r: Result<Option<LoadSeries>, AnalyzerError>)
    ensures (df.None? || |df.value.rows| == 0) ==> r == Success(None)
    ensures (r.Success? && r.value.Some?) <==>
      && df.Some? && TypeColumn in df.value.columns
      && |OfType(df.value.rows, t)| > 0
      && MetricColumn(AverageHeartrate) in df.value.columns
      && MetricColumn(MovingTime) in df.value.columns
      && DateColumn in df.value.columns
    ensures r.Success? && r.value.Some? ==>
      var rows := OfType(df.value.rows, t);
      && r.value.value.firstDay == FirstDay(rows)
      && r.value.value.daily == DailyLoad(rows)
      && Sum(r.value.value.daily) == TotalLoad(rows)
      && |r.value.value.rolling| == |r.value.value.daily|
      && r.value.value.rolling == Rolling7(r.value.value.daily)
    ensures r.Failure? <==>
      && df.Some? && |df.value.rows| > 0
      && (TypeColumn !in df.value.columns
          || (|OfType(df.value.rows, t)| > 0
              && MetricColumn(AverageHeartrate) in df.value.columns
              && MetricColumn(MovingTime) in df.value.columns
              && DateColumn !in df.value.columns))
  {
    if df.None? || |df.value.rows| == 0 then Success(None)
    else
      match FilterActivityType(df, t)
      case Failure(e) => Failure(e)
      case Success(f) =>
        var tab := f.value;
        if |tab.rows| == 0 then Success(None)
        else if MetricColumn(AverageHeartrate) !in tab.columns || MetricColumn(MovingTime) !in tab.columns then
          Success(None)
        else if DateColumn !in tab.columns then Failure(MissingColumn(DateColumn))
        else
          DailyLoadConserves(tab.rows);
          var daily := DailyLoad(tab.rows);
          Success(Some(LoadSeries(FirstDay(tab.rows), daily, Rolling7(daily))))
  }
}
