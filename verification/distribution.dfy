/** The integer-edged histogram used for cadence, gradient and speed
    (src/detailed_activity.py:343-362): edges range(trunc(min), trunc(max)+1, b)
    and numpy's histogram counts, in which every bucket is half-open except
    the last, which also holds its right edge. */
module Distribution {
  import opened Common

  /** Python's range(lo, hi, step) for a positive step. */
  function Range(lo: int, hi: int, step: nat): (r: seq<int>)
    requires step >= 1
    ensures forall k :: 0 <= k < |r| ==> r[k] == lo + k * step && r[k] < hi
    ensures lo < hi ==> |r| > 0
    ensures lo + |r| * step >= hi
    decreases hi - lo
  {
    if lo >= hi then [] else [lo] + Range(lo + step, hi, step)
  }

  /** Each edge lies strictly above the ones before it. */
  ghost predicate Increasing(e: seq<int>)
  {
    forall i, j :: 0 <= i < j < |e| ==> e[i] < e[j]
  }

  lemma RangeIncreasing(lo: int, hi: int, step: nat)
    requires step >= 1
    ensures Increasing(Range(lo, hi, step))
  {
    var r := Range(lo, hi, step);
    forall i, j | 0 <= i < j < |r|
      ensures r[i] < r[j]
    {
      MulLess(i, j, step);
    }
  }

  lemma MulLess(i: nat, j: nat, step: nat)
    requires i < j && step >= 1
    ensures i * step < j * step
  {
  }

  /** Sample v falls in bucket i of the edges e: [e[i], e[i+1]), or
      [e[i], e[i+1]] for the last bucket. */
  predicate InBucket(v: real, e: seq<int>, i: nat)
  {
    i + 1 < |e| && e[i] as real <= v &&
    (v < e[i + 1] as real || (i + 2 == |e| && v == e[i + 1] as real))
  }

  /** Number of samples in bucket i. */
  function CountIn(s: seq<real>, e: seq<int>, i: nat): (r: nat)
    ensures r <= |s|
  {
    if |s| == 0 then 0
    else CountIn(s[..|s| - 1], e, i) + (if InBucket(s[|s| - 1], e, i) then 1 else 0)
  }

  /** Number of samples in [lo, hi]. */
  function CountBetween(s: seq<real>, lo: real, hi: real): (r: nat)
    ensures r <= |s|
  {
    if |s| == 0 then 0
    else CountBetween(s[..|s| - 1], lo, hi) + (if lo <= s[|s| - 1] <= hi then 1 else 0)
  }

  /** One histogram bucket: its edges and how many samples it holds. */
  datatype Bucket = Bucket(lo: int, hi: int, count: nat)

  /** numpy's histogram of s over the edges e: one bucket per consecutive
      pair of edges, none when there are fewer than two edges. */
  function Histogram(s: seq<real>, e: seq<int>): (r: seq<Bucket>)
    ensures |e| < 2 ==> r == []
    ensures |e| >= 2 ==> |r| == |e| - 1
    ensures forall i :: 0 <= i < |r| ==>
      r[i].lo == e[i] && r[i].hi == e[i + 1] && r[i].count == CountIn(s, e, i)
  {
    if |e| < 2 then []
    else seq(|e| - 1, i requires 0 <= i < |e| - 1 => Bucket(e[i], e[i + 1], CountIn(s, e, i)))
  }

  /** Sum of the counts of all buckets in b. */
  function TotalCount(b: seq<Bucket>): nat
  {
    if |b| == 0 then 0 else TotalCount(b[..|b| - 1]) + b[|b| - 1].count
  }

  /** How many of the first n buckets hold v. */
  function Holders(v: real, e: seq<int>, n: nat): nat
  {
    if n == 0 then 0 else Holders(v, e, n - 1) + (if InBucket(v, e, n - 1) then 1 else 0)
  }

  /** With increasing edges, the buckets below n hold v at most once: once if
      v is in [e[0], e[n]) (or [e[0], e[n]] when n is the last edge index). */
  lemma {:induction false} HoldersOnce(v: real, e: seq<int>, n: nat)
    requires Increasing(e) && 1 <= n < |e|
    ensures n + 1 < |e| ==> Holders(v, e, n) == if e[0] as real <= v < e[n] as real then 1 else 0
    ensures n + 1 == |e| ==> Holders(v, e, n) == if e[0] as real <= v <= e[n] as real then 1 else 0
  {
    if n > 1 {
      HoldersOnce(v, e, n - 1);
    }
  }

  /** Counting bucket by bucket equals counting sample by sample. */
  lemma {:induction false} TotalCountBySample(s: seq<real>, e: seq<int>, n: nat)
    requires 1 <= n < |e|
    ensures TotalCount(Histogram(s, e)[..n]) == SampleHolders(s, e, n)
    decreases n
  {
    var h := Histogram(s, e);
    assert h[..n][..n - 1] == h[..n - 1];
    assert TotalCount(h[..n]) == TotalCount(h[..n - 1]) + CountIn(s, e, n - 1);
    if n > 1 {
      TotalCountBySample(s, e, n - 1);
    } else {
      NoHolders(s, e);
    }
    CountsAddUp(s, e, n);
  }

  lemma {:induction false} NoHolders(s: seq<real>, e: seq<int>)
    ensures SampleHolders(s, e, 0) == 0
    decreases |s|
  {
    if |s| > 0 {
      NoHolders(s[..|s| - 1], e);
    }
  }

  /** Over all samples, how many (sample, bucket below n) pairs there are. */
  function SampleHolders(s: seq<real>, e: seq<int>, n: nat): nat
  {
    if |s| == 0 then 0 else SampleHolders(s[..|s| - 1], e, n) + Holders(s[|s| - 1], e, n)
  }

  lemma {:induction false} CountsAddUp(s: seq<real>, e: seq<int>, n: nat)
    requires 1 <= n
    ensures SampleHolders(s, e, n) == SampleHolders(s, e, n - 1) + CountIn(s, e, n - 1)
    decreases |s|
  {
    if |s| > 0 {
      CountsAddUp(s[..|s| - 1], e, n);
    }
  }

  lemma {:induction false} SampleHoldersAll(s: seq<real>, e: seq<int>)
    requires Increasing(e) && |e| >= 2
    ensures SampleHolders(s, e, |e| - 1) == CountBetween(s, e[0] as real, e[|e| - 1] as real)
    decreases |s|
  {
    if |s| > 0 {
      SampleHoldersAll(s[..|s| - 1], e);
      HoldersOnce(s[|s| - 1], e, |e| - 1);
    }
  }

  /** The counts of a histogram over increasing edges add up to the number of
      samples between the first and the last edge (both included): every such
      sample is counted once and no other sample is counted. */
  lemma HistogramTotal(s: seq<real>, e: seq<int>)
    requires Increasing(e) && |e| >= 2
    ensures TotalCount(Histogram(s, e)) == CountBetween(s, e[0] as real, e[|e| - 1] as real)
    ensures TotalCount(Histogram(s, e)) <= |s|
  {
    var h := Histogram(s, e);
    assert h[..|e| - 1] == h;
    TotalCountBySample(s, e, |e| - 1);
    SampleHoldersAll(s, e);
  }

  /** calculate_distribution: {} for no samples; otherwise the histogram over
      edges trunc(min), trunc(min)+b, ... strictly below trunc(max)+1. */
  function Distribute(s: seq<real>, b: nat): (r: seq<Bucket>)
    requires b >= 1
    ensures |s| == 0 ==> r == []
    ensures |s| > 0 ==> r == Histogram(s, Range(Trunc(Min(s)), Trunc(Max(s)) + 1, b))
  {
    if |s| == 0 then [] else Histogram(s, Range(Trunc(Min(s)), Trunc(Max(s)) + 1, b))
  }

  /** The buckets are contiguous, each b wide, start at trunc(min), stop at
      or below trunc(max), and each holds exactly the samples in its range. */
  lemma DistributeShape(s: seq<real>, b: nat)
    requires b >= 1 && |s| > 0
    ensures var r := Distribute(s, b);
      && (|r| > 0 ==> r[0].lo == Trunc(Min(s)) && r[|r| - 1].hi <= Trunc(Max(s)))
      && (forall i :: 0 <= i < |r| ==> r[i].hi == r[i].lo + b)
      && (forall i :: 0 <= i < |r| - 1 ==> r[i].hi == r[i + 1].lo)
  {
  }

  /** Every sample is counted at most once, so the counts add up to at most
      the number of samples. */
  lemma DistributeTotal(s: seq<real>, b: nat)
    requires b >= 1
    ensures TotalCount(Distribute(s, b)) <= |s|
  {
    if |s| > 0 {
      var e := Range(Trunc(Min(s)), Trunc(Max(s)) + 1, b);
      if |e| >= 2 {
        RangeIncreasing(Trunc(Min(s)), Trunc(Max(s)) + 1, b);
        HistogramTotal(s, e);
      }
    }
  }

  /** Samples that all share one integer part leave a single edge and so no
      bucket at all: two samples of 3.0 give an empty distribution. */
  lemma SingleEdgeIsEmpty()
    ensures Distribute([3.0, 3.0], 1) == []
  {
    var s := [3.0, 3.0];
    assert Min(s) == 3.0 && Max(s) == 3.0;
    assert Range(3, 4, 1) == [3] by {
      assert Range(4, 4, 1) == [];
    }
  }
}
