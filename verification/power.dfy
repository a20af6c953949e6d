/** Power analytics over the filtered power series (samples > 0 W):
    sliding-window means, normalized power, the FTP estimate and the
    power-duration curve (src/detailed_activity.py:275-341). */
module Power {
  import opened Common

  /** Means of every run of w consecutive samples, in order: numpy's
      convolve(s, ones(w)/w, 'valid'). */
  function WindowMeans(s: seq<real>, w: nat): (r: seq<real>)
    requires 1 <= w <= |s|
    ensures |r| == |s| - w + 1
    ensures forall i :: 0 <= i < |r| ==> r[i] == WindowMean(s, i, w)
  {
    seq(|s| - w + 1, i requires 0 <= i < |s| - w + 1 => WindowMean(s, i, w))
  }

  /** Mean of the w samples starting at index i. */
  function WindowMean(s: seq<real>, i: nat, w: nat): real
    requires 1 <= w && i + w <= |s|
  {
    Sum(s[i..i + w]) / w as real
  }

  /** Every window mean lies between the bounds of the samples. */
  lemma WindowMeansWithin(s: seq<real>, w: nat, lo: real, hi: real)
    requires 1 <= w <= |s|
    requires Within(s, lo, hi)
    ensures Within(WindowMeans(s, w), lo, hi)
  {
    var m := WindowMeans(s, w);
    forall i | 0 <= i < |m|
      ensures lo <= m[i] <= hi
    {
      var win := s[i..i + w];
      assert Within(win, lo, hi) by {
        forall k | 0 <= k < |win| ensures lo <= win[k] <= hi { assert win[k] == s[i + k]; }
      }
      assert m[i] == Mean(win);
    }
  }

  /** The best mean over any w consecutive samples. */
  function MaxWindowMean(s: seq<real>, w: nat): real
    requires 1 <= w <= |s|
  {
    Max(WindowMeans(s, w))
  }

  /** The best w-window mean is the mean of some window, no window beats
      it, and it lies between the smallest and the largest sample. */
  lemma MaxWindowMeanSpec(s: seq<real>, w: nat)
    requires 1 <= w <= |s|
    ensures exists i :: 0 <= i <= |s| - w && MaxWindowMean(s, w) == WindowMean(s, i, w)
    ensures forall i :: 0 <= i <= |s| - w ==> WindowMean(s, i, w) <= MaxWindowMean(s, w)
    ensures Min(s) <= MaxWindowMean(s, w) <= Max(s)
  {
    var m := WindowMeans(s, w);
    assert Within(s, Min(s), Max(s));
    WindowMeansWithin(s, w, Min(s), Max(s));
    var k :| 0 <= k < |m| && m[k] == Max(m);
    assert m[k] == WindowMean(s, k, w);
  }

  /** Sliding the window one step right drops its first sample and adds
      the next one. */
  lemma SlideWindow(s: seq<real>, i: nat, j: nat, w: nat)
    requires 1 <= w && j == i + 1 && j + w <= |s|
    ensures Sum(s[j..j + w]) == Sum(s[i..i + w]) - s[i] + s[i + w]
  {
    SumDropLeft(s, i, i + w);
    SumExtendRight(s, j, i + w);
    assert s[j..i + w + 1] == s[j..j + w];
  }

  /** The scan starts with the first window as the best one. */
  lemma ScanStart(s: seq<real>, w: nat, sum: real)
    requires 1 <= w <= |s| && sum == Sum(s[0..w])
    ensures sum / w as real == Max(WindowMeans(s, w)[..0 + 1])
  {
    var m := WindowMeans(s, w);
    assert m[..1] == [m[0]];
  }

  /** One step of the scan: sliding the sum one sample right gives the sum
      of the next window, and the larger of the running best and that
      window's mean is the best of one more window. */
  lemma ScanStep(s: seq<real>, w: nat, i: nat, j: nat, sum: real, best: real)
    requires 1 <= w && i < |s| - w && j == i + 1
    requires sum == Sum(s[i..i + w])
    requires best == Max(WindowMeans(s, w)[..i + 1])
    ensures sum - s[i] + s[i + w] == Sum(s[j..j + w])
    ensures var mean := (sum - s[i] + s[i + w]) / w as real;
      (if mean > best then mean else best) == Max(WindowMeans(s, w)[..j + 1])
  {
    SlideWindow(s, i, j, w);
    var m := WindowMeans(s, w);
    assert m[j] == (sum - s[i] + s[i + w]) / w as real;
    RunningMax(m, j, best, m[j]);
  }

  /** The larger of the best of the first i values and the next value is
      the best of the first i + 1. */
  lemma RunningMax(m: seq<real>, i: nat, best: real, next: real)
    requires 1 <= i < |m| && best == Max(m[..i]) && next == m[i]
    ensures (if next > best then next else best) == Max(m[..i + 1])
  {
    MaxSnoc(m, i);
  }

  /** Sum of the first w samples, accumulated left to right. */
  method FirstWindowSum(s: seq<real>, w: nat) returns (sum: real)
    requires w <= |s|
    ensures sum == Sum(s[0..w])
  {
    sum := 0.0;
    var j := 0;
    while j < w
      invariant 0 <= j <= w
      invariant sum == Sum(s[0..j])
    {
      SumExtendRight(s, 0, j);
      sum := sum + s[j];
      j := j + 1;
    }
  }

  /** Computes the best w-window mean in one pass with a running window sum,
      as the moving average followed by max does in the source. */
  method BestWindowMean(s: seq<real>, w: nat) returns (best: real)
    requires 1 <= w <= |s|
    ensures best == MaxWindowMean(s, w)
  {
    var sum := FirstWindowSum(s, w);
    best := sum / w as real;
    ScanStart(s, w, sum);
    var i := 0;
    while i < |s| - w
      invariant 0 <= i <= |s| - w
      invariant sum == Sum(s[i..i + w])
      invariant best == Max(WindowMeans(s, w)[..i + 1])
    {
      var j := i + 1;
      ScanStep(s, w, i, j, sum, best);
      sum := sum - s[i] + s[i + w];
      var mean := sum / w as real;
      if mean > best {
        best := mean;
      }
      i := j;
    }
    assert WindowMeans(s, w)[..i + 1] == WindowMeans(s, w);
  }

  function Square(x: real): real
  {
    x * x
  }

  lemma SquareMonotone(x: real, y: real)
    requires 0.0 <= x <= y
    ensures 0.0 <= Square(x) <= Square(y)
    ensures x < y ==> Square(x) < Square(y)
  {
    SquareAtMostProduct(x, y);
    ProductAtMostSquare(x, y);
    if x < y {
      ProductBelowSquare(x, y);
    }
  }

  function Product(x: real, y: real): real
  {
    x * y
  }

  lemma SquareAtMostProduct(x: real, y: real)
    requires 0.0 <= x <= y
    ensures 0.0 <= Square(x) <= Product(x, y)
  {
  }

  lemma ProductAtMostSquare(x: real, y: real)
    requires 0.0 <= x <= y
    ensures Product(x, y) <= Square(y)
  {
  }

  lemma ProductBelowSquare(x: real, y: real)
    requires 0.0 <= x < y
    ensures Product(x, y) < Square(y)
  {
  }

  function Pow4(x: real): real
  {
    Square(Square(x))
  }

  lemma Pow4Monotone(x: real, y: real)
    requires 0.0 <= x <= y
    ensures Pow4(x) <= Pow4(y)
    ensures x < y ==> Pow4(x) < Pow4(y)
  {
    SquareMonotone(x, y);
    SquareMonotone(Square(x), Square(y));
  }

  /** The window of the normalized-power moving average, in samples. */
  const NpWindow: nat := 30

  /** The fourth power of normalized power: the mean of the fourth powers of
      the 30-sample window means, or None below 30 samples. Normalized power
      itself is the fourth root of this value (see IsNormalizedPower). */
  function NormalizedPowerFourth(p: seq<real>): (r: Option<real>)
    ensures r.Some? <==> |p| >= NpWindow
  {
    if |p| < NpWindow then None
    else
      var means := WindowMeans(p, NpWindow);
      Some(Mean(seq(|means|, i requires 0 <= i < |means| => Pow4(means[i]))))
  }

  /** np is the normalized power of p: a non-negative fourth root of the
      mean of fourth powers. */
  ghost predicate IsNormalizedPower(p: seq<real>, np: real)
  {
    np >= 0.0 && NormalizedPowerFourth(p) == Some(Pow4(np))
  }

  /** At most one non-negative fourth root exists, so normalized power is
      well defined. */
  lemma FourthRootUnique(x: real, y: real)
    requires 0.0 <= x && 0.0 <= y
    requires Pow4(x) == Pow4(y)
    ensures x == y
  {
    if x < y {
      Pow4Monotone(x, y);
    } else if y < x {
      Pow4Monotone(y, x);
    }
  }

  /** A constant stream of c watts (at least 30 samples) has normalized power
      exactly c, and no other value is its normalized power. */
  lemma NormalizedPowerOfConstant(p: seq<real>, c: real)
    requires |p| >= NpWindow && c >= 0.0
    requires forall k :: 0 <= k < |p| ==> p[k] == c
    ensures IsNormalizedPower(p, c)
    ensures forall np :: IsNormalizedPower(p, np) ==> np == c
  {
    var means := WindowMeans(p, NpWindow);
    forall i | 0 <= i < |means|
      ensures means[i] == c
    {
      SumConstant(p[i..i + NpWindow], c);
    }
    var fourth := seq(|means|, i requires 0 <= i < |means| => Pow4(means[i]));
    assert Within(fourth, Pow4(c), Pow4(c));
    forall np | IsNormalizedPower(p, np)
      ensures np == c
    {
      FourthRootUnique(np, c);
    }
  }

  /** With samples in [lo, hi] and lo >= 0, the fourth power of normalized
      power lies in [lo^4, hi^4]; normalized power lies in [lo, hi]. */
  lemma NormalizedPowerWithin(p: seq<real>, lo: real, hi: real)
    requires |p| >= NpWindow && 0.0 <= lo
    requires Within(p, lo, hi)
    ensures Pow4(lo) <= NormalizedPowerFourth(p).value <= Pow4(hi)
    ensures forall np :: IsNormalizedPower(p, np) ==> lo <= np <= hi
  {
    var means := WindowMeans(p, NpWindow);
    WindowMeansWithin(p, NpWindow, lo, hi);
    var fourth := seq(|means|, i requires 0 <= i < |means| => Pow4(means[i]));
    forall i | 0 <= i < |fourth|
      ensures Pow4(lo) <= fourth[i] <= Pow4(hi)
    {
      Pow4Monotone(lo, means[i]);
      Pow4Monotone(means[i], hi);
    }
    assert Within(fourth, Pow4(lo), Pow4(hi));
    forall np | IsNormalizedPower(p, np)
      ensures lo <= np <= hi
    {
      if np < lo {
        Pow4Monotone(np, lo);
      }
      if hi < np {
        Pow4Monotone(hi, np);
      }
    }
  }

  /** Twenty minutes of one-second samples. */
  const FtpWindow: nat := 1200

  /** 95% of the best 20-minute mean power, or None below 1200 samples. */
  function EstimateFtp(p: seq<real>): (r: Option<real>)
    ensures r.Some? <==> |p| >= FtpWindow
  {
    if |p| < FtpWindow then None else Some(0.95 * MaxWindowMean(p, FtpWindow))
  }

  /** The FTP estimate is 0.95 times the mean of some 1200-sample window that
      no other window beats, so it lies within 0.95 times the sample range. */
  lemma EstimateFtpSpec(p: seq<real>)
    requires |p| >= FtpWindow
    ensures exists i :: 0 <= i <= |p| - FtpWindow && EstimateFtp(p).value == 0.95 * WindowMean(p, i, FtpWindow)
    ensures forall i :: 0 <= i <= |p| - FtpWindow ==> 0.95 * WindowMean(p, i, FtpWindow) <= EstimateFtp(p).value
    ensures 0.95 * Min(p) <= EstimateFtp(p).value <= 0.95 * Max(p)
  {
    MaxWindowMeanSpec(p, FtpWindow);
  }

  /** The durations, in seconds, of the power-duration curve. */
  const CurveDurations: seq<nat> := [5, 10, 30, 60, 300, 600, 1200, 1800, 3600]

  lemma CurveDurationsPositive()
    ensures forall d :: d in CurveDurations ==> d >= 1
  {
  }

  /** Samples needed before any point of the curve is computed. */
  const CurveMinSamples: nat := 60

  /** The power-duration curve: for each listed duration d that fits in the
      series, the best d-sample mean (keyed "<d>s" in the source). Empty below
      60 samples, even for the 5, 10 and 30 second points. */
  function PowerCurve(p: seq<real>): (r: map<nat, real>)
    ensures |p| < CurveMinSamples ==> r == map[]
    ensures |p| >= CurveMinSamples ==>
      forall d :: d in r <==> d in CurveDurations && d <= |p|
    ensures forall d :: d in r ==> 1 <= d <= |p| && r[d] == MaxWindowMean(p, d)
  {
    CurveDurationsPositive();
    if |p| < CurveMinSamples then map[]
    else map d | d in CurveDurations && d <= |p| :: MaxWindowMean(p, d)
  }

  /** Each point of the curve lies between the smallest and the largest
      sample and is attained by some window. */
  lemma PowerCurveWithin(p: seq<real>)
    ensures forall d :: d in PowerCurve(p) ==> Min(p) <= PowerCurve(p)[d] <= Max(p)
  {
    forall d | d in PowerCurve(p)
      ensures Min(p) <= PowerCurve(p)[d] <= Max(p)
    {
      MaxWindowMeanSpec(p, d);
    }
  }

  /** The best-window mean is not monotone in the window length: for
      [10, 0, 10] the best 2-sample mean is 5 while the 3-sample mean is 20/3. */
  lemma BestMeanNotMonotone()
    ensures MaxWindowMean([10.0, 0.0, 10.0], 2) < MaxWindowMean([10.0, 0.0, 10.0], 3)
  {
    var s := [10.0, 0.0, 10.0];
    var m2 := WindowMeans(s, 2);
    assert s[0..2] == [10.0, 0.0] && s[1..3] == [0.0, 10.0];
    assert Sum([10.0, 0.0]) == 10.0 by {
      assert [10.0, 0.0][..1] == [10.0];
      assert [10.0][..0] == [];
    }
    assert Sum([0.0, 10.0]) == 10.0 by {
      assert [0.0, 10.0][..1] == [0.0];
      assert [0.0][..0] == [];
    }
    assert m2 == [5.0, 5.0];
    assert s[0..3] == s;
    assert Sum(s) == 20.0 by {
      assert s[..2] == [10.0, 0.0];
    }
    assert WindowMeans(s, 3) == [20.0 / 3.0];
  }

  /** The power section of the analysis (src/detailed_activity.py:218-225);
      the normalized power is carried as its fourth power. */
  datatype PowerSummary = PowerSummary(
    average: real,
    max: real,
    normalizedPowerFourth: Option<real>,
    ftpEstimate: Option<real>)

  /** Summary of the positive samples of a raw power channel, or None when
      no sample is positive. */
  function SummarizePower(watts: seq<real>): (r: Option<PowerSummary>)
    ensures r.Some? <==> exists k :: 0 <= k < |watts| && watts[k] > 0.0
    ensures r.Some? ==>
      var p := Positive(watts);
      && r.value.average == Mean(p)
      && r.value.max == Max(p)
      && 0.0 < r.value.average <= r.value.max
      && (exists k :: 0 <= k < |watts| && watts[k] == r.value.max)
      && (forall k :: 0 <= k < |watts| && watts[k] > 0.0 ==> watts[k] <= r.value.max)
      && r.value.normalizedPowerFourth == NormalizedPowerFourth(p)
      && r.value.ftpEstimate == EstimateFtp(p)
  {
    var p := Positive(watts);
    if |p| == 0 then None
    else
      assert Within(p, Min(p), Max(p));
      assert Min(p) > 0.0;
      assert p[0] in watts;
      assert Max(p) in watts;
      Some(PowerSummary(Mean(p), Max(p), NormalizedPowerFourth(p), EstimateFtp(p)))
  }
}
