/** Shared vocabulary of the model: optional values, results with an error,
    Python's truncating int() on reals, and sums, maxima and minima over
    series of samples. */
module Common {

  /** A value that may be absent (Python's None, or a key left out of a dict). */
  datatype Option<+T> = None | Some(value: T)

  /** A value or the error that the source raises instead of returning. */
  datatype Result<+T, +E> = Success(value: T) | Failure(error: E)

  /** Python's int() on a float: truncation toward zero, not floor. */
  function Trunc(x: real): (r: int)
    ensures 0.0 <= x ==> r as real <= x < r as real + 1.0
    ensures x < 0.0 ==> r as real - 1.0 < x <= r as real
  {
    if x >= 0.0 then x.Floor else -((-x).Floor)
  }

  lemma TruncMonotone(x: real, y: real)
    requires 0.0 <= x <= y
    ensures 0 <= Trunc(x) <= Trunc(y)
  {
  }

  /** Sum of a series; the sum of an empty series is 0. */
  function Sum(s: seq<real>): real
  {
    if |s| == 0 then 0.0 else Sum(s[..|s| - 1]) + s[|s| - 1]
  }

  lemma {:induction false} SumConcat(a: seq<real>, b: seq<real>)
    ensures Sum(a + b) == Sum(a) + Sum(b)
    decreases |b|
  {
    if |b| == 0 {
      assert a + b == a;
    } else {
      var b' := b[..|b| - 1];
      assert (a + b)[..|a + b| - 1] == a + b';
      SumConcat(a, b');
    }
  }

  /** Sum(s[i..j+1]) extends Sum(s[i..j]) by s[j]. */
  lemma SumExtendRight(s: seq<real>, i: int, j: int)
    requires 0 <= i <= j < |s|
    ensures Sum(s[i..j + 1]) == Sum(s[i..j]) + s[j]
  {
    assert s[i..j + 1][..j - i] == s[i..j];
  }

  /** Sum(s[i..j]) is s[i] plus Sum(s[i+1..j]). */
  lemma SumDropLeft(s: seq<real>, i: int, j: int)
    requires 0 <= i < j <= |s|
    ensures Sum(s[i..j]) == s[i] + Sum(s[i + 1..j])
  {
    assert s[i..j] == [s[i]] + s[i + 1..j];
    SumConcat([s[i]], s[i + 1..j]);
    assert [s[i]][..0] == [];
  }

  /** Every sample of s lies in [lo, hi]. */
  ghost predicate Within(s: seq<real>, lo: real, hi: real)
  {
    forall k :: 0 <= k < |s| ==> lo <= s[k] <= hi
  }

  lemma {:induction false} SumBounds(s: seq<real>, lo: real, hi: real)
    requires Within(s, lo, hi)
    ensures |s| as real * lo <= Sum(s) <= |s| as real * hi
    decreases |s|
  {
    if |s| > 0 {
      var p := s[..|s| - 1];
      assert Within(p, lo, hi) by {
        forall k | 0 <= k < |p| ensures lo <= p[k] <= hi { assert p[k] == s[k]; }
      }
      SumBounds(p, lo, hi);
      assert Sum(s) == Sum(p) + s[|s| - 1];
      assert lo <= s[|s| - 1] <= hi;
      assert |s| as real * lo == |p| as real * lo + lo;
      assert |s| as real * hi == |p| as real * hi + hi;
    }
  }

  /** A series whose samples all equal c sums to |s| * c. */
  lemma {:induction false} SumConstant(s: seq<real>, c: real)
    requires forall k :: 0 <= k < |s| ==> s[k] == c
    ensures Sum(s) == |s| as real * c
    decreases |s|
  {
    if |s| > 0 {
      SumConstant(s[..|s| - 1], c);
    }
  }

  /** pandas/numpy mean of a non-empty series. */
  function Mean(s: seq<real>): (r: real)
    requires |s| > 0
    ensures forall lo: real, hi: real :: Within(s, lo, hi) ==> lo <= r <= hi
  {
    MeanWithin(s);
    Sum(s) / |s| as real
  }

  lemma MeanWithin(s: seq<real>)
    requires |s| > 0
    ensures forall lo: real, hi: real :: Within(s, lo, hi) ==> lo <= Sum(s) / |s| as real <= hi
  {
    forall lo: real, hi: real | Within(s, lo, hi)
      ensures lo <= Sum(s) / |s| as real <= hi
    {
      SumBounds(s, lo, hi);
    }
  }

  /** Largest sample of a non-empty series. */
  function Max(s: seq<real>): (r: real)
    requires |s| > 0
    ensures exists k :: 0 <= k < |s| && s[k] == r
    ensures forall k :: 0 <= k < |s| ==> s[k] <= r
  {
    if |s| == 1 then s[0]
    else
      var m := Max(s[..|s| - 1]);
      if s[|s| - 1] > m then s[|s| - 1] else m
  }

  /** Extending a prefix by one sample raises its maximum to that sample
      or keeps it. */
  lemma MaxSnoc(s: seq<real>, j: nat)
    requires 1 <= j < |s|
    ensures Max(s[..j + 1]) == if s[j] > Max(s[..j]) then s[j] else Max(s[..j])
  {
    assert s[..j + 1][..j] == s[..j];
  }

  /** Smallest sample of a non-empty series. */
  function Min(s: seq<real>): (r: real)
    requires |s| > 0
    ensures exists k :: 0 <= k < |s| && s[k] == r
    ensures forall k :: 0 <= k < |s| ==> r <= s[k]
  {
    if |s| == 1 then s[0]
    else
      var m := Min(s[..|s| - 1]);
      if s[|s| - 1] < m then s[|s| - 1] else m
  }

  /** An integer series read as reals. */
  function AsReals(s: seq<int>): (r: seq<real>)
    ensures |r| == |s|
    ensures forall i :: 0 <= i < |s| ==> r[i] == s[i] as real
  {
    seq(|s|, i requires 0 <= i < |s| => s[i] as real)
  }

  /** Largest element of a non-empty integer series: the real maximum of
      the series read as reals, which is one of its (integral) samples. */
  function MaxInt(s: seq<int>): (r: int)
    requires |s| > 0
    ensures exists k :: 0 <= k < |s| && s[k] == r
    ensures forall k :: 0 <= k < |s| ==> s[k] <= r
  {
    var m := Max(AsReals(s));
    var k :| 0 <= k < |s| && AsReals(s)[k] == m;
    s[k]
  }

  /** Smallest element of a non-empty integer series, likewise. */
  function MinInt(s: seq<int>): (r: int)
    requires |s| > 0
    ensures exists k :: 0 <= k < |s| && s[k] == r
    ensures forall k :: 0 <= k < |s| ==> r <= s[k]
  {
    var m := Min(AsReals(s));
    var k :| 0 <= k < |s| && AsReals(s)[k] == m;
    s[k]
  }

  /** The samples of s that are strictly positive, in their original order
      (pandas `s[s > 0]`). */
  function Positive(s: seq<real>): (r: seq<real>)
    ensures |r| <= |s|
    ensures forall k :: 0 <= k < |r| ==> r[k] > 0.0
    ensures forall k :: 0 <= k < |s| && s[k] > 0.0 ==> s[k] in r
    ensures forall x :: x in r ==> x in s
    ensures (forall k :: 0 <= k < |s| ==> s[k] > 0.0) ==> r == s
  {
    if |s| == 0 then []
    else
      var rest := Positive(s[..|s| - 1]);
      assert s == s[..|s| - 1] + [s[|s| - 1]];
      if s[|s| - 1] > 0.0 then rest + [s[|s| - 1]] else rest
  }

  /** Filtering keeps order and multiplicity: the positive samples of two
      consecutive runs are those of the first followed by those of the
      second, and a single sample is kept exactly when it is positive. */
  lemma {:induction false} PositiveConcat(a: seq<real>, b: seq<real>)
    ensures Positive(a + b) == Positive(a) + Positive(b)
    decreases |b|
  {
    if |b| == 0 {
      assert a + b == a;
    } else {
      var b' := b[..|b| - 1];
      assert (a + b)[..|a + b| - 1] == a + b';
      PositiveConcat(a, b');
    }
  }

  lemma PositiveSingle(x: real)
    ensures Positive([x]) == if x > 0.0 then [x] else []
  {
    assert [x][..0] == [];
  }
}
