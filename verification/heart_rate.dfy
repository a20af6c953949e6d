/** Heart-rate zones of one activity's stream: zone bounds as truncated
    fractions of the maximum heart rate, the first-to-last-sample time spent
    in each zone and its share of the activity (src/detailed_activity.py:180-209). */
module HeartRate {
  import opened Common

  datatype Zone = Z1 | Z2 | Z3 | Z4 | Z5

  const AllZones: set<Zone> := {Z1, Z2, Z3, Z4, Z5}

  /** The zone's lower bound in bpm: Python int() of the fraction times max HR. */
  function Lower(maxHr: real, z: Zone): int
  {
    match z
    case Z1 => 0
    case Z2 => Trunc(maxHr * 0.6)
    case Z3 => Trunc(maxHr * 0.7)
    case Z4 => Trunc(maxHr * 0.8)
    case Z5 => Trunc(maxHr * 0.9)
  }

  /** The zone's exclusive upper bound in bpm. */
  function Upper(maxHr: real, z: Zone): int
  {
    match z
    case Z1 => Trunc(maxHr * 0.6)
    case Z2 => Trunc(maxHr * 0.7)
    case Z3 => Trunc(maxHr * 0.8)
    case Z4 => Trunc(maxHr * 0.9)
    case Z5 => Trunc(maxHr * 1.1)
  }

  /** A heart rate lies in the half-open band [lo, hi). */
  predicate InBand(v: int, lo: int, hi: int)
  {
    lo <= v < hi
  }

  predicate InZone(maxHr: real, z: Zone, v: int)
  {
    InBand(v, Lower(maxHr, z), Upper(maxHr, z))
  }

  /** The zone a heart rate falls in, checking the bounds from the bottom. */
  function ZoneOf(maxHr: real, v: int): Option<Zone>
  {
    if v < 0 then None
    else if v < Trunc(maxHr * 0.6) then Some(Z1)
    else if v < Trunc(maxHr * 0.7) then Some(Z2)
    else if v < Trunc(maxHr * 0.8) then Some(Z3)
    else if v < Trunc(maxHr * 0.9) then Some(Z4)
    else if v < Trunc(maxHr * 1.1) then Some(Z5)
    else None
  }

  /** For a non-negative maximum heart rate the zones are contiguous and
      disjoint: a heart rate lies in some zone exactly when it is in
      [0, trunc(1.1 max)), and then in only one. */
  lemma ZonePartition(maxHr: real, v: int)
    requires maxHr >= 0.0
    ensures forall z :: InZone(maxHr, z, v) <==> ZoneOf(maxHr, v) == Some(z)
    ensures (exists z :: InZone(maxHr, z, v)) <==> 0 <= v < Trunc(maxHr * 1.1)
    ensures forall z1, z2 :: InZone(maxHr, z1, v) && InZone(maxHr, z2, v) ==> z1 == z2
  {
    TruncMonotone(maxHr * 0.6, maxHr * 0.7);
    TruncMonotone(maxHr * 0.7, maxHr * 0.8);
    TruncMonotone(maxHr * 0.8, maxHr * 0.9);
    TruncMonotone(maxHr * 0.9, maxHr * 1.1);
    forall z
      ensures InZone(maxHr, z, v) <==> ZoneOf(maxHr, v) == Some(z)
    {
    }
    if 0 <= v < Trunc(maxHr * 1.1) {
      assert InZone(maxHr, ZoneOf(maxHr, v).value, v);
    }
  }

  /** i is the first sample inside [lo, hi). */
  ghost predicate FirstIn(hr: seq<int>, lo: int, hi: int, i: int)
  {
    0 <= i < |hr| && InBand(hr[i], lo, hi) && forall k :: 0 <= k < i ==> !InBand(hr[k], lo, hi)
  }

  /** j is the last sample inside [lo, hi). */
  ghost predicate LastIn(hr: seq<int>, lo: int, hi: int, j: int)
  {
    0 <= j < |hr| && InBand(hr[j], lo, hi) && forall k :: j < k < |hr| ==> !InBand(hr[k], lo, hi)
  }

  /** Indices of the samples inside [lo, hi), in increasing order. */
  function MatchIndices(hr: seq<int>, lo: int, hi: int): (r: seq<nat>)
    ensures forall k :: 0 <= k < |r| ==> r[k] < |hr| && InBand(hr[r[k]], lo, hi)
    ensures forall a, b :: 0 <= a < b < |r| ==> r[a] < r[b]
    ensures forall k :: 0 <= k < |hr| && InBand(hr[k], lo, hi) ==> k in r
  {
    if |hr| == 0 then []
    else
      var n := |hr|;
      var rest := MatchIndices(hr[..n - 1], lo, hi);
      assert forall k :: 0 <= k < |rest| ==> hr[..n - 1][rest[k]] == hr[rest[k]];
      assert forall k :: 0 <= k < n - 1 ==> hr[..n - 1][k] == hr[k];
      if InBand(hr[n - 1], lo, hi) then rest + [n - 1] else rest
  }

  /** The match list is empty exactly when no sample is in the band; its
      first entry is the first sample in the band and its last entry the
      last one. */
  lemma {:induction false} MatchIndicesEnds(hr: seq<int>, lo: int, hi: int)
    ensures var r := MatchIndices(hr, lo, hi);
      && (|r| == 0 <==> forall k :: 0 <= k < |hr| ==> !InBand(hr[k], lo, hi))
      && (|r| > 0 ==> FirstIn(hr, lo, hi, r[0]) && LastIn(hr, lo, hi, r[|r| - 1]))
    decreases |hr|
  {
    if |hr| > 0 {
      var n := |hr|;
      var front := hr[..n - 1];
      var rest := MatchIndices(front, lo, hi);
      MatchIndicesEnds(front, lo, hi);
      FrontAgrees(hr);
      if InBand(hr[n - 1], lo, hi) {
        if |rest| > 0 {
          FirstInExtends(hr, lo, hi, rest[0]);
        } else {
          FirstInAtEnd(hr, lo, hi);
        }
      } else if |rest| > 0 {
        FirstInExtends(hr, lo, hi, rest[0]);
        LastInExtends(hr, lo, hi, rest[|rest| - 1]);
      }
    }
  }

  lemma FrontAgrees(hr: seq<int>)
    requires |hr| > 0
    ensures forall k :: 0 <= k < |hr| - 1 ==> hr[..|hr| - 1][k] == hr[k]
  {
  }

  /** The first sample in the band stays first when a sample is appended. */
  lemma FirstInExtends(hr: seq<int>, lo: int, hi: int, i: int)
    requires |hr| > 0 && FirstIn(hr[..|hr| - 1], lo, hi, i)
    ensures FirstIn(hr, lo, hi, i)
  {
    assert hr[..|hr| - 1][i] == hr[i];
    forall k | 0 <= k < i ensures !InBand(hr[k], lo, hi) {
      assert hr[..|hr| - 1][k] == hr[k];
    }
  }

  /** The last sample in the band stays last when a sample outside it is
      appended. */
  lemma LastInExtends(hr: seq<int>, lo: int, hi: int, j: int)
    requires |hr| > 0 && LastIn(hr[..|hr| - 1], lo, hi, j) && !InBand(hr[|hr| - 1], lo, hi)
    ensures LastIn(hr, lo, hi, j)
  {
    assert hr[..|hr| - 1][j] == hr[j];
    forall k | j < k < |hr| ensures !InBand(hr[k], lo, hi) {
      if k < |hr| - 1 { assert hr[..|hr| - 1][k] == hr[k]; }
    }
  }

  /** An appended sample in the band is the first one when none before it is. */
  lemma FirstInAtEnd(hr: seq<int>, lo: int, hi: int)
    requires |hr| > 0 && InBand(hr[|hr| - 1], lo, hi)
    requires forall k :: 0 <= k < |hr| - 1 ==> !InBand(hr[k], lo, hi)
    ensures FirstIn(hr, lo, hi, |hr| - 1)
  {
  }

  /** Seconds attributed to the band: the time of the last sample in it minus
      the time of the first, 0 for a single sample, and None (the zone is left
      out) when no sample is in it. Samples between the two that lie in
      another band are not subtracted. */
  function TimeInBand(hr: seq<int>, time: seq<int>, lo: int, hi: int): (r: Option<int>)
    requires |time| == |hr|
    ensures r.None? <==> forall k :: 0 <= k < |hr| ==> !InBand(hr[k], lo, hi)
    ensures r.Some? ==>
      exists i, j :: FirstIn(hr, lo, hi, i) && LastIn(hr, lo, hi, j) && i <= j && r.value == time[j] - time[i]
  {
    var idx := MatchIndices(hr, lo, hi);
    MatchIndicesEnds(hr, lo, hi);
    if |idx| == 0 then None
    else if |idx| == 1 then Some(0)
    else Some(time[idx[|idx| - 1]] - time[idx[0]])
  }

  /** Share of the activity's final timestamp, in percent; 0 when the final
      timestamp is not positive. */
  function Percentage(seconds: int, time: seq<int>): (r: real)
    requires |time| > 0
    ensures time[|time| - 1] <= 0 ==> r == 0.0
    ensures time[|time| - 1] > 0 ==> r * time[|time| - 1] as real == seconds as real * 100.0
    ensures 0 <= seconds <= time[|time| - 1] ==> 0.0 <= r <= 100.0
  {
    var last := time[|time| - 1];
    if last > 0 then
      FractionWithin(seconds, last);
      seconds as real / last as real * 100.0
    else 0.0
  }

  lemma FractionWithin(t: int, last: int)
    requires last > 0
    ensures (t as real / last as real) * last as real == t as real
    ensures 0 <= t <= last ==> 0.0 <= t as real / last as real <= 1.0
  {
  }

  datatype ZoneTime = ZoneTime(timeSeconds: int, percentage: real)

  /** The table entry of one zone, or None when no sample lies in it. */
  function ZoneEntry(hr: seq<int>, time: seq<int>, maxHr: real, z: Zone): (r: Option<ZoneTime>)
    requires |time| == |hr|
    ensures r.None? <==> forall k :: 0 <= k < |hr| ==> !InZone(maxHr, z, hr[k])
    ensures r.Some? ==>
      && TimeInBand(hr, time, Lower(maxHr, z), Upper(maxHr, z)) == Some(r.value.timeSeconds)
      && r.value.percentage == Percentage(r.value.timeSeconds, time)
  {
    match TimeInBand(hr, time, Lower(maxHr, z), Upper(maxHr, z))
    case None => None
    case Some(t) => Some(ZoneTime(t, Percentage(t, time)))
  }

  /** The heart_rate_zones table for a given maximum heart rate: a zone is a
      key exactly when some sample lies in it. */
  function ZoneTable(hr: seq<int>, time: seq<int>, maxHr: real): (r: map<Zone, ZoneTime>)
    requires |time| == |hr|
    ensures forall z :: z in r <==> ZoneEntry(hr, time, maxHr, z).Some?
    ensures forall z :: z in r ==> Some(r[z]) == ZoneEntry(hr, time, maxHr, z)
  {
    EveryZoneListed();
    map z | z in AllZones && ZoneEntry(hr, time, maxHr, z).Some? :: ZoneEntry(hr, time, maxHr, z).value
  }

  lemma EveryZoneListed()
    ensures forall z: Zone :: z in AllZones
  {
    forall z: Zone ensures z in AllZones {
      match z
      case Z1 =>
      case Z2 =>
      case Z3 =>
      case Z4 =>
      case Z5 =>
    }
  }

  /** Time stamps never decrease along the stream. */
  ghost predicate NonDecreasing(time: seq<int>)
  {
    forall i, j :: 0 <= i <= j < |time| ==> time[i] <= time[j]
  }

  /** On a stream whose clock never runs backwards, a zone's time lies in
      [0, elapsed], and its percentage in [0, 100] when the clock starts at or
      after 0. */
  lemma ZoneTimeBounds(hr: seq<int>, time: seq<int>, maxHr: real, z: Zone)
    requires |time| == |hr| && NonDecreasing(time)
    requires z in ZoneTable(hr, time, maxHr)
    ensures 0 <= ZoneTable(hr, time, maxHr)[z].timeSeconds <= time[|time| - 1] - time[0]
    ensures 0 <= time[0] ==> 0.0 <= ZoneTable(hr, time, maxHr)[z].percentage <= 100.0
  {
    var lo, hi := Lower(maxHr, z), Upper(maxHr, z);
    var e := ZoneEntry(hr, time, maxHr, z);
    var i, j :| FirstIn(hr, lo, hi, i) && LastIn(hr, lo, hi, j) && i <= j
      && e.value.timeSeconds == time[j] - time[i];
    assert time[0] <= time[i] <= time[j] <= time[|time| - 1];
  }

  /** The maximum heart rate used for the zones could not be found: the
      activity has none and the heart-rate stream is empty (Python's int() of
      the NaN maximum raises). */
  datatype ZoneError = NoMaxHeartRate

  /** The heart_rate_zones section: the activity's max_heartrate if it has
      one, else the largest heart rate in the stream. */
  function HeartRateZones(activityMaxHr: Option<real>, hr: seq<int>, time: seq<int>)
    : (r: Result<map<Zone, ZoneTime>, ZoneError>)
    requires |time| == |hr|
    ensures r.Failure? <==> activityMaxHr.None? && |hr| == 0
    ensures activityMaxHr.Some? ==> r == Success(ZoneTable(hr, time, activityMaxHr.value))
    ensures activityMaxHr.None? && |hr| > 0 ==>
      exists k :: 0 <= k < |hr| && (forall i :: 0 <= i < |hr| ==> hr[i] <= hr[k])
        && r == Success(ZoneTable(hr, time, hr[k] as real))
  {
    match activityMaxHr
    case Some(m) => Success(ZoneTable(hr, time, m))
    case None =>
      if |hr| == 0 then Failure(NoMaxHeartRate)
      else Success(ZoneTable(hr, time, MaxInt(hr) as real))
  }

  /** 40 samples at 100 bpm then 40 at 150 bpm, one per second from 0, with a
      maximum of 160: zone bounds are 96, 112, 128, 144 and 176, so Z2 and Z5
      each get 39 seconds and the other zones are absent. */
  lemma TwoPlateauExample(hr: seq<int>, time: seq<int>)
    requires |hr| == 80 && |time| == 80
    requires forall k :: 0 <= k < 40 ==> hr[k] == 100
    requires forall k :: 40 <= k < 80 ==> hr[k] == 150
    requires forall k :: 0 <= k < 80 ==> time[k] == k
    ensures ZoneTable(hr, time, 160.0).Keys == {Z2, Z5}
    ensures ZoneTable(hr, time, 160.0)[Z2].timeSeconds == 39
    ensures ZoneTable(hr, time, 160.0)[Z5].timeSeconds == 39
  {
    PlateauKeys(hr, time);
    PlateauBands(hr);
    PlateauTime(hr, time, 96, 112, 0, 39);
    PlateauTime(hr, time, 144, 176, 40, 79);
    assert time[0] == 0 && time[39] == 39 && time[40] == 40 && time[79] == 79;
    BoundsAt160();
    ZoneTimeFromBand(hr, time, 160.0, Z2, 39);
    ZoneTimeFromBand(hr, time, 160.0, Z5, 39);
  }

  /** The samples in [96, 112) are the first plateau and those in
      [144, 176) the second. */
  lemma PlateauBands(hr: seq<int>)
    requires |hr| == 80
    requires forall k :: 0 <= k < 40 ==> hr[k] == 100
    requires forall k :: 40 <= k < 80 ==> hr[k] == 150
    ensures forall k :: 0 <= k < |hr| ==> (InBand(hr[k], 96, 112) <==> 0 <= k <= 39)
    ensures forall k :: 0 <= k < |hr| ==> (InBand(hr[k], 144, 176) <==> 40 <= k <= 79)
  {
    forall k | 0 <= k < |hr|
      ensures InBand(hr[k], 96, 112) <==> 0 <= k <= 39
      ensures InBand(hr[k], 144, 176) <==> 40 <= k <= 79
    {
      if k < 40 { assert hr[k] == 100; } else { assert hr[k] == 150; }
    }
  }

  /** A zone whose band has time t is a key of the table with that time. */
  lemma ZoneTimeFromBand(hr: seq<int>, time: seq<int>, maxHr: real, z: Zone, t: int)
    requires |time| == |hr|
    requires TimeInBand(hr, time, Lower(maxHr, z), Upper(maxHr, z)) == Some(t)
    ensures z in ZoneTable(hr, time, maxHr) && ZoneTable(hr, time, maxHr)[z].timeSeconds == t
  {
  }

  lemma PlateauKeys(hr: seq<int>, time: seq<int>)
    requires |hr| == 80 && |time| == 80
    requires forall k :: 0 <= k < 40 ==> hr[k] == 100
    requires forall k :: 40 <= k < 80 ==> hr[k] == 150
    ensures ZoneTable(hr, time, 160.0).Keys == {Z2, Z5}
  {
    var m := 160.0;
    BoundsAt160();
    PlateausOutside(hr, 0, 96);
    AbsentZone(hr, time, m, Z1);
    PlateausOutside(hr, 112, 128);
    AbsentZone(hr, time, m, Z3);
    PlateausOutside(hr, 128, 144);
    AbsentZone(hr, time, m, Z4);
    PresentZone(hr, time, m, Z2, 0);
    PresentZone(hr, time, m, Z5, 40);
    KeysOfTwo(ZoneTable(hr, time, m));
  }

  lemma KeysOfTwo<V>(table: map<Zone, V>)
    requires Z2 in table && Z5 in table
    requires Z1 !in table && Z3 !in table && Z4 !in table
    ensures table.Keys == {Z2, Z5}
  {
    forall z
      ensures z in table <==> z in {Z2, Z5}
    {
      match z
      case Z1 =>
      case Z2 =>
      case Z3 =>
      case Z4 =>
      case Z5 =>
    }
  }

  /** No sample of the two plateaus lies in a band containing neither 100
      nor 150. */
  lemma PlateausOutside(hr: seq<int>, lo: int, hi: int)
    requires |hr| == 80
    requires forall k :: 0 <= k < 40 ==> hr[k] == 100
    requires forall k :: 40 <= k < 80 ==> hr[k] == 150
    requires !InBand(100, lo, hi) && !InBand(150, lo, hi)
    ensures forall k :: 0 <= k < |hr| ==> hr[k] < lo || hi <= hr[k]
  {
    forall k | 0 <= k < |hr|
      ensures hr[k] < lo || hi <= hr[k]
    {
      if k < 40 { assert hr[k] == 100; } else { assert hr[k] == 150; }
    }
  }

  /** A zone some sample falls in is a key of the table. */
  lemma PresentZone(hr: seq<int>, time: seq<int>, maxHr: real, z: Zone, k: int)
    requires |time| == |hr| && 0 <= k < |hr|
    requires InZone(maxHr, z, hr[k])
    ensures z in ZoneTable(hr, time, maxHr)
  {
  }

  lemma BoundsAt160()
    ensures Lower(160.0, Z1) == 0 && Upper(160.0, Z1) == 96
    ensures Lower(160.0, Z2) == 96 && Upper(160.0, Z2) == 112
    ensures Lower(160.0, Z3) == 112 && Upper(160.0, Z3) == 128
    ensures Lower(160.0, Z4) == 128 && Upper(160.0, Z4) == 144
    ensures Lower(160.0, Z5) == 144 && Upper(160.0, Z5) == 176
  {
  }

  /** A zone no sample falls in is not a key of the table. */
  lemma AbsentZone(hr: seq<int>, time: seq<int>, maxHr: real, z: Zone)
    requires |time| == |hr|
    requires forall k :: 0 <= k < |hr| ==> hr[k] < Lower(maxHr, z) || Upper(maxHr, z) <= hr[k]
    ensures z !in ZoneTable(hr, time, maxHr)
  {
    assert forall k :: 0 <= k < |hr| ==> !InZone(maxHr, z, hr[k]);
  }

  /** When the samples in [lo, hi) are exactly those in [a, b], the band's
      time is time[b] - time[a]. */
  lemma PlateauTime(hr: seq<int>, time: seq<int>, lo: int, hi: int, a: int, b: int)
    requires |time| == |hr| && 0 <= a <= b < |hr|
    requires forall k :: 0 <= k < |hr| ==> (InBand(hr[k], lo, hi) <==> a <= k <= b)
    ensures TimeInBand(hr, time, lo, hi) == Some(time[b] - time[a])
  {
    var r := TimeInBand(hr, time, lo, hi);
    assert InBand(hr[a], lo, hi) && InBand(hr[b], lo, hi);
    var i, j :| FirstIn(hr, lo, hi, i) && LastIn(hr, lo, hi, j) && i <= j && r.value == time[j] - time[i];
    assert i == a && j == b;
  }
}
