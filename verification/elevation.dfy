/** Elevation gain and loss from an altitude channel
    (src/detailed_activity.py:240-252): first differences with the first one
    taken as 0, gain the sum of the rises, loss the magnitude of the sum of
    the drops. */
module Elevation {
  import opened Common

  /** pandas `diff().fillna(0)`: a[i] - a[i-1], and 0 at the first sample. */
  function Diffs(a: seq<real>): (r: seq<real>)
    ensures |r| == |a|
    ensures |a| > 0 ==> r[0] == 0.0
    ensures forall i :: 0 < i < |a| ==> a[i] == a[i - 1] + r[i]
  {
    seq(|a|, i requires 0 <= i < |a| => if i == 0 then 0.0 else a[i] - a[i - 1])
  }

  /** Sum of the strictly positive entries (`d[d > 0].sum()`). */
  function Rises(d: seq<real>): real
  {
    if |d| == 0 then 0.0
    else Rises(d[..|d| - 1]) + (if d[|d| - 1] > 0.0 then d[|d| - 1] else 0.0)
  }

  /** Sum of the strictly negative entries (`d[d < 0].sum()`). */
  function Drops(d: seq<real>): real
  {
    if |d| == 0 then 0.0
    else Drops(d[..|d| - 1]) + (if d[|d| - 1] < 0.0 then d[|d| - 1] else 0.0)
  }

  function Abs(x: real): (r: real)
    ensures r >= 0.0 && (r == x || r == -x)
  {
    if x < 0.0 then -x else x
  }

  /** Rises are never negative, drops never positive, and together they are
      the plain sum. */
  lemma {:induction false} RisesAndDrops(d: seq<real>)
    ensures Rises(d) >= 0.0 && Drops(d) <= 0.0
    ensures Rises(d) + Drops(d) == Sum(d)
    decreases |d|
  {
    if |d| > 0 {
      RisesAndDrops(d[..|d| - 1]);
    }
  }

  /** The first differences of a series telescope to last minus first. */
  lemma {:induction false} DiffsTelescope(a: seq<real>)
    requires |a| > 0
    ensures Sum(Diffs(a)) == a[|a| - 1] - a[0]
    decreases |a|
  {
    if |a| > 1 {
      var a' := a[..|a| - 1];
      assert Diffs(a)[..|a| - 1] == Diffs(a');
      DiffsTelescope(a');
    }
  }

  function Gain(a: seq<real>): (r: real)
    ensures r >= 0.0
  {
    RisesAndDrops(Diffs(a));
    Rises(Diffs(a))
  }

  function Loss(a: seq<real>): (r: real)
    ensures r >= 0.0
  {
    Abs(Drops(Diffs(a)))
  }

  /** Over a ride, gain minus loss is the net change of altitude: what is
      climbed and not descended again is the difference between the finish
      and the start. */
  lemma GainMinusLoss(a: seq<real>)
    requires |a| > 0
    ensures Gain(a) - Loss(a) == a[|a| - 1] - a[0]
  {
    RisesAndDrops(Diffs(a));
    DiffsTelescope(a);
  }

  /** A series that never goes down has no loss, and its gain is the climb
      from the first to the last sample. */
  lemma ClimbOnly(a: seq<real>)
    requires |a| > 0
    requires forall i :: 0 < i < |a| ==> a[i - 1] <= a[i]
    ensures Loss(a) == 0.0 && Gain(a) == a[|a| - 1] - a[0]
  {
    NoDrops(Diffs(a));
    GainMinusLoss(a);
  }

  lemma {:induction false} NoDrops(d: seq<real>)
    requires forall i :: 0 <= i < |d| ==> d[i] >= 0.0
    ensures Drops(d) == 0.0
    decreases |d|
  {
    if |d| > 0 {
      NoDrops(d[..|d| - 1]);
    }
  }
}
