/** The pure parts of format_activity_data (src/openai_integration.py:41-279)
    and its file-name sanitizer: which analysis keys are copied, which
    images are attached, and how a stream table is cut down to a time series
    for the coach. */
module CoachFormat {
  import opened Common

  // ---------------------------------------------------------------------
  // Python slicing and division

  /** Python's s[:k], where a negative k counts from the end. */
  function PyPrefix<T>(s: seq<T>, k: int): (r: seq<T>)
    ensures k >= 0 ==> |r| == if k < |s| then k else |s|
    ensures k < 0 ==> |r| == if |s| + k > 0 then |s| + k else 0
    ensures r == s[..|r|]
  {
    if k >= 0 then (if k < |s| then s[..k] else s)
    else if |s| + k > 0 then s[..|s| + k] else []
  }

  /** A prefix never holds more than a non-negative bound asks for, and a
      bound at least the length keeps everything. */
  lemma PyPrefixBound<T>(s: seq<T>, k: int)
    ensures k >= 0 ==> |PyPrefix(s, k)| <= k
    ensures k >= |s| ==> PyPrefix(s, k) == s
    ensures |PyPrefix(s, k)| <= |s|
  {
  }

  /** Python's a // b: the floor of the quotient, for either sign of b. */
  function FloorDiv(a: int, b: int): (r: int)
    requires b != 0
    ensures b > 0 ==> r * b <= a < r * b + b
    ensures b < 0 ==> r * b + b < a <= r * b
  {
    if b > 0 then a / b else (-a) / (-b)
  }

  // ---------------------------------------------------------------------
  // clean_name (src/openai_integration.py:284 and 337)

  predicate IsAsciiAlnum(c: char)
  {
    ('a' <= c <= 'z') || ('A' <= c <= 'Z') || ('0' <= c <= '9')
  }

  /** Characters clean_name keeps as they are. */
  predicate Kept(c: char)
  {
    IsAsciiAlnum(c) || c == ' ' || c == '_' || c == '-'
  }

  /** Replace every character that is not alphanumeric, a space, '_' or '-'
      by '_'. */
  function CleanName(s: string): (r: string)
    ensures |r| == |s|
    ensures forall i :: 0 <= i < |s| ==> Kept(r[i])
    ensures forall i :: 0 <= i < |s| && Kept(s[i]) ==> r[i] == s[i]
    ensures forall i :: 0 <= i < |s| && !Kept(s[i]) ==> r[i] == '_'
  {
    seq(|s|, i requires 0 <= i < |s| => if Kept(s[i]) then s[i] else '_')
  }

  /** A name is left unchanged exactly when it only holds kept characters. */
  lemma CleanNameFixed(s: string)
    ensures CleanName(s) == s <==> forall i :: 0 <= i < |s| ==> Kept(s[i])
  {
    if CleanName(s) == s {
      forall i | 0 <= i < |s|
        ensures Kept(s[i])
      {
        assert CleanName(s)[i] == s[i];
      }
    }
  }

  /** Cleaning a cleaned name changes nothing. */
  lemma CleanNameIdempotent(s: string)
    ensures CleanName(CleanName(s)) == CleanName(s)
  {
    CleanNameFixed(CleanName(s));
  }

  // ---------------------------------------------------------------------
  // Analysis keys copied into the activity record
  // (src/openai_integration.py:161-186)

  const ZonesKey: string := "heart_rate_zones"
  const LegacyZonesKey: string := "hr_zones"
  const CopiedKeys: set<string> := {"power_zones", "climbs", "elevation", "speed", "intervals"}

  /** The part of the activity record taken from the saved analysis: the
      zones under heart_rate_zones (read from hr_zones when the analysis
      only has that key) and the other listed sections as they are. */
  function CopyAnalysis<V>(detailed: map<string, V>): (r: map<string, V>)
    ensures r.Keys <= CopiedKeys + {ZonesKey}
    ensures ZonesKey in r <==> ZonesKey in detailed || LegacyZonesKey in detailed
    ensures ZonesKey in detailed ==> r[ZonesKey] == detailed[ZonesKey]
    ensures ZonesKey !in detailed && LegacyZonesKey in detailed ==> r[ZonesKey] == detailed[LegacyZonesKey]
    ensures forall k :: k in CopiedKeys ==> (k in r <==> k in detailed)
    ensures forall k :: k in CopiedKeys && k in detailed ==> r[k] == detailed[k]
  {
    var sections := map k | k in detailed.Keys * CopiedKeys :: detailed[k];
    if ZonesKey in detailed then sections[ZonesKey := detailed[ZonesKey]]
    else if LegacyZonesKey in detailed then sections[ZonesKey := detailed[LegacyZonesKey]]
    else sections
  }

  // ---------------------------------------------------------------------
  // Images attached to an activity (src/openai_integration.py:196-219)

  /** The dashboards handed to the converter: at most max_count of them
      (src/openai_integration.py:402). The converter's output, one image
      per dashboard it managed to render, is a parameter of the model. */
  function DashboardsToConvert(dashboards: seq<string>, maxCount: int): (r: seq<string>)
    ensures maxCount >= 0 ==> |r| <= maxCount
    ensures |r| <= |dashboards| && r == dashboards[..|r|]
  {
    PyPrefix(dashboards, maxCount)
  }

  /** The image list as the code builds it: `found` are the image files
      already on disk, `converted` what the HTML conversion returned. When
      conversion was attempted but produced nothing, the found images are
      kept without the max_images cut. */
  function ImagesAsWritten(found: seq<string>, dashboards: seq<string>, converted: seq<string>,
                           convertHtml: bool, maxImages: int): (r: seq<string>)
    ensures |r| <= |found| + |converted| && r == (found + converted)[..|r|]
  {
    if (|found| == 0 || convertHtml) && |dashboards| > 0 then
      if |converted| > 0 then PyPrefix(found + converted, maxImages)
      else
        assert (found + converted)[..|found|] == found;
        found
    else
      assert (found + converted)[..|found|] == found;
      PyPrefix(found, maxImages)
  }

  /** Five images on disk, conversion requested but yielding nothing, and a
      cap of 3: all five are attached. */
  lemma ImagesAsWrittenExceedsCap()
    ensures |ImagesAsWritten(["a.png", "b.png", "c.png", "d.png", "e.png"], ["dash.html"], [], true, 3)| == 5
  {
  }

  /** The image list with the max_images cut applied on every path. */
  function Images(found: seq<string>, dashboards: seq<string>, converted: seq<string>,
                  convertHtml: bool, maxImages: int): (r: seq<string>)
    ensures maxImages >= 0 ==> |r| <= maxImages
    ensures |r| <= |found| + |converted| && r == (found + converted)[..|r|]
  {
    if (|found| == 0 || convertHtml) && |dashboards| > 0 && |converted| > 0 then
      PyPrefix(found + converted, maxImages)
    else
      assert (found + converted)[..|found|] == found;
      assert PyPrefix(found, maxImages) == (found + converted)[..|PyPrefix(found, maxImages)|];
      PyPrefix(found, maxImages)
  }

  /** The capped list differs from the code's only in the case the code
      leaves uncapped, and there it is the found images cut to max_images. */
  lemma ImagesAgreeOutsideGap(found: seq<string>, dashboards: seq<string>, converted: seq<string>,
                              convertHtml: bool, maxImages: int)
    ensures maxImages >= |found| + |converted| ==>
      Images(found, dashboards, converted, convertHtml, maxImages)
        == ImagesAsWritten(found, dashboards, converted, convertHtml, maxImages)
    ensures |converted| > 0 || !((|found| == 0 || convertHtml) && |dashboards| > 0) ==>
      Images(found, dashboards, converted, convertHtml, maxImages)
        == ImagesAsWritten(found, dashboards, converted, convertHtml, maxImages)
  {
    PyPrefixBound(found, maxImages);
    PyPrefixBound(found + converted, maxImages);
  }

  // ---------------------------------------------------------------------
  // Time-series down-sampling (src/openai_integration.py:243-262)

  /** The sampling stride as written: when max_points is set (non-zero) and
      the table is longer, max(sample_rate, n // max_points). */
  function StrideAsWritten(n: nat, sampleRate: int, maxPoints: Option<int>): (r: int)
    ensures r >= sampleRate
    ensures maxPoints.Some? && maxPoints.value != 0 && n > maxPoints.value ==>
      && r >= FloorDiv(n, maxPoints.value)
      && (r == sampleRate || r == FloorDiv(n, maxPoints.value))
    ensures !(maxPoints.Some? && maxPoints.value != 0 && n > maxPoints.value) ==> r == sampleRate
  {
    if maxPoints.Some? && maxPoints.value != 0 && n > maxPoints.value then
      var q := FloorDiv(n, maxPoints.value);
      if sampleRate > q then sampleRate else q
    else sampleRate
  }

  /** `iloc[::s]` when s > 1, the table as it is otherwise. */
  function SelectRows<T>(rows: seq<T>, s: int): (r: seq<T>)
    ensures s <= 1 ==> r == rows
    ensures s > 1 ==> |r| == (|rows| + s - 1) / s
    ensures s > 1 ==> forall k :: 0 <= k < |r| ==> k * s < |rows| && r[k] == rows[k * s]
  {
    if s <= 1 then rows
    else
      var m := (|rows| + s - 1) / s;
      KeptIndicesInRange(|rows|, s);
      seq(m, k requires 0 <= k < m => rows[k * s])
  }

  lemma KeptIndicesInRange(n: nat, s: int)
    requires s > 1
    ensures forall k :: 0 <= k < (n + s - 1) / s ==> k * s < n
  {
    forall k | 0 <= k < (n + s - 1) / s
      ensures k * s < n
    {
      KeptIndexInRange(n, s, k);
    }
  }

  lemma KeptIndexInRange(n: nat, s: int, k: nat)
    requires s > 1 && k < (n + s - 1) / s
    ensures k * s < n
  {
    var m := (n + s - 1) / s;
    assert m * s <= n + s - 1;
    assert k + 1 <= m;
    MulLe(k + 1, m, s);
  }

  lemma MulLe(a: int, b: int, c: int)
    requires a <= b && c >= 0
    ensures a * c <= b * c
  {
  }

  /** The kept rows are exactly the rows at multiples of the stride: row i
      is kept, at position i / s, if and only if s divides i. */
  lemma SelectRowsKeepsMultiples<T>(rows: seq<T>, s: int, i: nat)
    requires s > 1 && i < |rows|
    ensures i % s == 0 ==> i / s < |SelectRows(rows, s)| && SelectRows(rows, s)[i / s] == rows[i]
    ensures forall k :: 0 <= k < |SelectRows(rows, s)| && k * s == i ==> i % s == 0
  {
    var r := SelectRows(rows, s);
    if i % s == 0 {
      var k := i / s;
      assert k * s == i;
      assert (|rows| + s - 1) / s >= k + 1 by {
        assert |rows| + s - 1 >= (k + 1) * s;
        DivAtLeast(|rows| + s - 1, s, k + 1);
      }
    }
    forall k | 0 <= k < |r| && k * s == i
      ensures i % s == 0
    {
      ModOfMultiple(k, s);
    }
  }

  lemma DivAtLeast(a: int, s: int, q: int)
    requires s > 0 && a >= q * s
    ensures a / s >= q
  {
    var d := a / s;
    assert a == d * s + a % s;
    if d < q {
      MulLe(d + 1, q, s);
    }
  }

  lemma ModOfMultiple(k: int, s: int)
    requires s > 0
    ensures (k * s) % s == 0
  {
    var d := (k * s) / s;
    var m := (k * s) % s;
    assert k * s == d * s + m;
    assert (k - d) * s == m;
    if k - d >= 1 {
      MulLe(1, k - d, s);
    } else if k - d <= -1 {
      MulLe(k - d, -1, s);
    }
  }

  /** With the default settings (every 30th sample, at most 500 points) a
      15100-sample table keeps 504 points: n // max_points rounds the stride
      down, so the count can exceed max_points. */
  lemma StrideAsWrittenExceedsMaxPoints<T>(rows: seq<T>)
    requires |rows| == 15100
    ensures StrideAsWritten(|rows|, 30, Some(500)) == 30
    ensures |SelectRows(rows, StrideAsWritten(|rows|, 30, Some(500)))| == 504
  {
  }

  /** The stride with the division rounded up, so that a positive
      max_points bounds the number of points kept. */
  function Stride(n: nat, sampleRate: int, maxPoints: Option<int>): (r: int)
    ensures r >= sampleRate
    ensures maxPoints.Some? && maxPoints.value > 0 && n > maxPoints.value ==>
      r > 1 && (n + r - 1) / r <= maxPoints.value
    ensures !(maxPoints.Some? && maxPoints.value != 0 && n > maxPoints.value) ==> r == sampleRate
  {
    if maxPoints.Some? && maxPoints.value != 0 && n > maxPoints.value then
      var m := maxPoints.value;
      var q := -FloorDiv(-(n as int), m);
      var r := if sampleRate > q then sampleRate else q;
      if m > 0 then
        CeilStrideFits(n, m, q, r);
        r
      else r
    else sampleRate
  }

  lemma CeilStrideFits(n: nat, m: int, q: int, r: int)
    requires 0 < m < n && q == -FloorDiv(-(n as int), m) && r >= q
    ensures r > 1 && (n + r - 1) / r <= m
  {
    assert q * m >= n;
    assert q > 1 by {
      if q <= 1 {
        MulLe(q, 1, m);
      }
    }
    MulLe(q, r, m);
    assert r * m >= n;
    DivAtMost(n + r - 1, r, m);
  }

  /** With a positive max_points the sampled table never has more rows
      than max_points, whatever the sample rate. */
  lemma SampledWithinMaxPoints<T>(rows: seq<T>, sampleRate: int, m: int)
    requires m > 0
    ensures |SelectRows(rows, Stride(|rows|, sampleRate, Some(m)))| <= m
  {
    var n := |rows|;
    var st := Stride(n, sampleRate, Some(m));
    if n <= m && st > 1 {
      MulLe(1, st, n);
      DivAtMost(n + st - 1, st, n);
    }
  }

  lemma DivAtMost(a: int, r: int, m: int)
    requires r > 0 && a < (m + 1) * r
    ensures a / r <= m
  {
    var d := a / r;
    assert d * r <= a;
    if d > m {
      MulLe(m + 1, d, r);
    }
  }

  // ---------------------------------------------------------------------
  // Column selection (src/openai_integration.py:246-247 and 259-265)

  const TimeColumn: string := "time"
  const HiddenColumns: set<string> := {"activity_id", "activity_name"}

  /** The requested fields the table has, in request order, without time. */
  function Available(present: set<string>, requested: seq<string>): (r: seq<string>)
    ensures forall i :: 0 <= i < |r| ==> r[i] in present && r[i] != TimeColumn && r[i] in requested
    ensures forall f :: f in requested && f in present && f != TimeColumn ==> f in r
  {
    if |requested| == 0 then []
    else
      var rest := Available(present, requested[..|requested| - 1]);
      var f := requested[|requested| - 1];
      assert requested == requested[..|requested| - 1] + [f];
      if f in present && f != TimeColumn then rest + [f] else rest
  }

  /** Selection keeps request order: the fields of two consecutive runs of
      the request are those of the first followed by those of the second,
      and a single field is kept exactly when the table has it and it is
      not time. */
  lemma {:induction false} AvailableConcat(present: set<string>, a: seq<string>, b: seq<string>)
    ensures Available(present, a + b) == Available(present, a) + Available(present, b)
    decreases |b|
  {
    if |b| == 0 {
      assert a + b == a;
    } else {
      var b' := b[..|b| - 1];
      assert (a + b)[..|a + b| - 1] == a + b';
      AvailableConcat(present, a, b');
    }
  }

  lemma AvailableSingle(present: set<string>, f: string)
    ensures Available(present, [f]) == if f in present && f != TimeColumn then [f] else []
  {
    assert [f][..0] == [];
  }

  /** The columns with the hidden ones removed, in order. */
  function Visible(cols: seq<string>): (r: seq<string>)
    ensures forall i :: 0 <= i < |r| ==> r[i] !in HiddenColumns && r[i] in cols
    ensures forall c :: c in cols && c !in HiddenColumns ==> c in r
  {
    if |cols| == 0 then []
    else
      var rest := Visible(cols[..|cols| - 1]);
      var c := cols[|cols| - 1];
      assert cols == cols[..|cols| - 1] + [c];
      if c !in HiddenColumns then rest + [c] else rest
  }

  predicate Distinct(s: seq<string>)
  {
    forall i, j :: 0 <= i < j < |s| ==> s[i] != s[j]
  }

  /** The keys of the time series: time, then the requested fields the
      table has, minus activity_id and activity_name. None when the table
      has no time column or a requested field is repeated (pandas then
      yields a frame for that key and the time series is dropped). */
  function TimeseriesColumns(present: set<string>, requested: seq<string>): (r: Option<seq<string>>)
    ensures r.None? <==> TimeColumn !in present || !Distinct(Visible([TimeColumn] + Available(present, requested)))
    ensures r.Some? ==>
      && |r.value| > 0 && r.value[0] == TimeColumn
      && Distinct(r.value)
      && (forall i :: 1 <= i < |r.value| ==>
            r.value[i] in requested && r.value[i] in present && r.value[i] != TimeColumn)
      && (forall c :: c in r.value ==> c !in HiddenColumns)
      && (forall f :: f in requested && f in present && f != TimeColumn && f !in HiddenColumns ==> f in r.value)
      && r.value == [TimeColumn] + Visible(Available(present, requested))
  {
    if TimeColumn !in present then None
    else
      var cols := Visible([TimeColumn] + Available(present, requested));
      if !Distinct(cols) then None
      else
        VisibleKeepsTimeFirst(Available(present, requested));
        Some(cols)
  }

  lemma VisibleKeepsTimeFirst(rest: seq<string>)
    ensures Visible([TimeColumn] + rest) == [TimeColumn] + Visible(rest)
  {
    VisibleConcat([TimeColumn], rest);
    assert Visible([TimeColumn]) == [TimeColumn] by {
      assert [TimeColumn][..0] == [];
    }
  }

  lemma {:induction false} VisibleConcat(a: seq<string>, b: seq<string>)
    ensures Visible(a + b) == Visible(a) + Visible(b)
    decreases |b|
  {
    if |b| == 0 {
      assert a + b == a;
    } else {
      var b' := b[..|b| - 1];
      assert (a + b)[..|a + b| - 1] == a + b';
      VisibleConcat(a, b');
    }
  }

  /** The fields requested when the caller names none. */
  const DefaultFields: seq<string> := ["time", "distance", "heartrate", "altitude", "velocity_smooth", "grade_smooth"]

  /** With the default fields, every table with a time column yields a time
      series, and it holds time and every default field the table has. */
  lemma DefaultRequestSucceeds(present: set<string>)
    requires TimeColumn in present
    ensures TimeseriesColumns(present, DefaultFields).Some?
    ensures forall f :: f in DefaultFields && f in present ==> f in TimeseriesColumns(present, DefaultFields).value
  {
    DistinctRequestSucceeds(present, DefaultFields);
  }

  /** A request without repeated fields always yields a time series when
      the table has a time column. */
  lemma DistinctRequestSucceeds(present: set<string>, requested: seq<string>)
    requires TimeColumn in present && Distinct(requested)
    ensures TimeseriesColumns(present, requested).Some?
  {
    var av := Available(present, requested);
    AvailableDistinct(present, requested);
    VisibleDistinct([TimeColumn] + av);
  }

  lemma {:induction false} AvailableDistinct(present: set<string>, requested: seq<string>)
    requires Distinct(requested)
    ensures Distinct([TimeColumn] + Available(present, requested))
    decreases |requested|
  {
    if |requested| > 0 {
      var init := requested[..|requested| - 1];
      assert Distinct(init);
      AvailableDistinct(present, init);
      var f := requested[|requested| - 1];
      var rest := Available(present, init);
      assert requested == init + [f];
      assert f !in init;
      assert forall i :: 0 <= i < |rest| ==> rest[i] in init;
      assert f !in rest;
      if f in present && f != TimeColumn {
        assert Available(present, requested) == rest + [f];
        assert [TimeColumn] + (rest + [f]) == ([TimeColumn] + rest) + [f];
      }
    }
  }

  lemma {:induction false} VisibleDistinct(cols: seq<string>)
    requires Distinct(cols)
    ensures Distinct(Visible(cols))
    decreases |cols|
  {
    if |cols| > 0 {
      var init := cols[..|cols| - 1];
      assert Distinct(init);
      VisibleDistinct(init);
      assert cols[|cols| - 1] !in init;
    }
  }
}
