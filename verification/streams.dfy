/** analyze_streams (src/detailed_activity.py:171-272): the per-activity
    analysis of a table of second-by-second samples. A channel the table
    lacks is None; a present channel has one sample per time stamp. */
module Streams {
  import opened Common
  import opened HeartRate
  import opened Power
  import opened Distribution
  import opened Elevation

  /** The stream table: time stamps and the optional channels read by the
      analysis. */
  datatype Stream = Stream(
    time: seq<int>,
    heartrate: Option<seq<int>>,
    watts: Option<seq<real>>,
    cadence: Option<seq<real>>,
    altitude: Option<seq<real>>,
    gradeSmooth: Option<seq<real>>,
    velocitySmooth: Option<seq<real>>)

  /** The activity record fields the analysis consults. */
  datatype ActivityContext = ActivityContext(maxHeartrate: Option<real>)

  /** Every present channel is a column of the same table as time. */
  predicate Aligned(df: Stream)
  {
    && (df.heartrate.Some? ==> |df.heartrate.value| == |df.time|)
    && (df.watts.Some? ==> |df.watts.value| == |df.time|)
    && (df.cadence.Some? ==> |df.cadence.value| == |df.time|)
    && (df.altitude.Some? ==> |df.altitude.value| == |df.time|)
    && (df.gradeSmooth.Some? ==> |df.gradeSmooth.value| == |df.time|)
    && (df.velocitySmooth.Some? ==> |df.velocitySmooth.value| == |df.time|)
  }

  /** Average, maximum and distribution of a channel (cadence, speed). */
  datatype ChannelSummary = ChannelSummary(average: real, max: real, distribution: seq<Bucket>)

  datatype ElevationSummary = ElevationSummary(
    gain: real,
    loss: real,
    max: real,
    min: real,
    gradientDistribution: Option<seq<Bucket>>)

  /** The analysis dictionary; a section left out of it is None. */
  datatype Analysis = Analysis(
    heartRateZones: Option<map<Zone, ZoneTime>>,
    power: Option<PowerSummary>,
    powerCurve: Option<map<nat, real>>,
    cadence: Option<ChannelSummary>,
    elevation: Option<ElevationSummary>,
    speed: Option<ChannelSummary>)

  /** Cadence section: the positive samples' mean, maximum and 5-rpm
      distribution; None when no sample is positive. */
  function SummarizeCadence(cadence: seq<real>): (r: Option<ChannelSummary>)
    ensures r.Some? <==> exists k :: 0 <= k < |cadence| && cadence[k] > 0.0
    ensures r.Some? ==>
      && r.value.average == Mean(Positive(cadence))
      && r.value.max == Max(Positive(cadence))
      && 0.0 < r.value.average <= r.value.max
      && (exists k :: 0 <= k < |cadence| && cadence[k] == r.value.max)
      && (forall k :: 0 <= k < |cadence| && cadence[k] > 0.0 ==> cadence[k] <= r.value.max)
      && r.value.distribution == Distribute(Positive(cadence), 5)
  {
    var p := Positive(cadence);
    if |p| == 0 then None
    else
      assert Within(p, Min(p), Max(p));
      assert p[0] in cadence;
      assert Max(p) in cadence;
      Some(ChannelSummary(Mean(p), Max(p), Distribute(p, 5)))
  }

  /** Speed section: every sample's mean, maximum and 1 m/s distribution;
      None for an empty channel. */
  function SummarizeSpeed(speed: seq<real>): (r: Option<ChannelSummary>)
    ensures r.Some? <==> |speed| > 0
    ensures r.Some? ==>
      && r.value.average == Mean(speed)
      && r.value.max == Max(speed)
      && Min(speed) <= r.value.average <= r.value.max
      && (exists k :: 0 <= k < |speed| && speed[k] == r.value.max)
      && (forall k :: 0 <= k < |speed| ==> speed[k] <= r.value.max)
      && r.value.distribution == Distribute(speed, 1)
  {
    if |speed| == 0 then None
    else
      assert Within(speed, Min(speed), Max(speed));
      Some(ChannelSummary(Mean(speed), Max(speed), Distribute(speed, 1)))
  }

  /** Elevation section: gain, loss, extremes, and the 1 % gradient
      distribution when the table has a grade_smooth column. */
  function SummarizeElevation(altitude: seq<real>, grade: Option<seq<real>>): (r: Option<ElevationSummary>)
    ensures r.Some? <==> |altitude| > 0
    ensures r.Some? ==>
      && r.value.gain == Gain(altitude) && r.value.loss == Loss(altitude)
      && r.value.max == Max(altitude) && r.value.min == Min(altitude)
      && r.value.gain >= 0.0 && r.value.loss >= 0.0
      && r.value.gain - r.value.loss == altitude[|altitude| - 1] - altitude[0]
      && r.value.min <= r.value.max
      && (forall k :: 0 <= k < |altitude| ==> r.value.min <= altitude[k] <= r.value.max)
      && (grade.None? <==> r.value.gradientDistribution.None?)
      && (grade.Some? ==> r.value.gradientDistribution == Some(Distribute(grade.value, 1)))
  {
    if |altitude| == 0 then None
    else
      GainMinusLoss(altitude);
      var g := match grade
        case None => None
        case Some(s) => Some(Distribute(s, 1));
      Some(ElevationSummary(Gain(altitude), Loss(altitude), Max(altitude), Min(altitude), g))
  }

  /** Sections that do not depend on the heart-rate zones. */
  function OtherSections(df: Stream, zones: Option<map<Zone, ZoneTime>>): Analysis
  {
    var power := match df.watts
      case None => None
      case Some(w) => SummarizePower(w);
    Analysis(
      zones,
      power,
      if power.Some? then Some(PowerCurve(Positive(df.watts.value))) else None,
      match df.cadence
        case None => None
        case Some(c) => SummarizeCadence(c),
      match df.altitude
        case None => None
        case Some(a) => SummarizeElevation(a, df.gradeSmooth),
      match df.velocitySmooth
        case None => None
        case Some(v) => SummarizeSpeed(v))
  }

  /** analyze_streams: None without a table; fails only when the zones
      need a maximum heart rate that neither the activity nor the (empty)
      heart-rate channel supplies. */
  function AnalyzeStreams(df: Option<Stream>, ctx: ActivityContext): (r: Result<Option<Analysis>, ZoneError>)
    requires df.Some? ==> Aligned(df.value)
    ensures df.None? ==> r == Success(None)
    ensures r.Failure? <==>
      df.Some? && df.value.heartrate == Some([]) && ctx.maxHeartrate.None?
    ensures r.Success? && df.Some? ==> r.value.Some?
    ensures r.Success? && df.Some? ==>
      var a := r.value.value;
      var s := df.value;
      && (a.heartRateZones.Some? <==> s.heartrate.Some?)
      && (s.heartrate.Some? ==>
            Success(a.heartRateZones.value) == HeartRateZones(ctx.maxHeartrate, s.heartrate.value, s.time))
      && SectionsOf(s, a)
  {
    match df
    case None => Success(None)
    case Some(s) =>
      match s.heartrate
      case None =>
        OtherSectionsAgree(s, None);
        Success(Some(OtherSections(s, None)))
      case Some(hr) =>
        match HeartRateZones(ctx.maxHeartrate, hr, s.time)
        case Failure(e) => Failure(e)
        case Success(z) =>
          OtherSectionsAgree(s, Some(z));
          Success(Some(OtherSections(s, Some(z))))
  }

  /** The sections other than the zones: power (with its curve) exactly when
      some watts sample is positive, cadence likewise, elevation and speed
      exactly when their channel is present and the table has rows, each
      summarised from its own channel. */
  ghost predicate SectionsOf(s: Stream, a: Analysis)
    requires Aligned(s)
  {
    && (a.power.Some? <==> s.watts.Some? && exists k :: 0 <= k < |s.watts.value| && s.watts.value[k] > 0.0)
    && (a.power.Some? ==> a.power == SummarizePower(s.watts.value))
    && (a.powerCurve.Some? <==> a.power.Some?)
    && (a.powerCurve.Some? ==> a.powerCurve.value == PowerCurve(Positive(s.watts.value)))
    && (a.cadence.Some? <==> s.cadence.Some? && exists k :: 0 <= k < |s.cadence.value| && s.cadence.value[k] > 0.0)
    && (a.cadence.Some? ==> a.cadence == SummarizeCadence(s.cadence.value))
    && (a.elevation.Some? <==> s.altitude.Some? && |s.time| > 0)
    && (a.elevation.Some? ==> a.elevation == SummarizeElevation(s.altitude.value, s.gradeSmooth))
    && (a.speed.Some? <==> s.velocitySmooth.Some? && |s.time| > 0)
    && (a.speed.Some? ==> a.speed == SummarizeSpeed(s.velocitySmooth.value))
  }

  lemma OtherSectionsAgree(s: Stream, zones: Option<map<Zone, ZoneTime>>)
    requires Aligned(s)
    ensures OtherSections(s, zones).heartRateZones == zones
    ensures SectionsOf(s, OtherSections(s, zones))
  {
  }
}
