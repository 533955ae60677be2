/** `SpeedSort.SectorSpeedModel`, the per-sector "rank-matched" fit: both speed lists
    are sorted, cut where the reference first reaches the cutoff, split at the midpoint,
    and a line is put through the two pairs of half-means. Also the speed and veer
    cutoffs of the `SpeedSort` constructor. */
module SpeedSortFit {
  import opened Wrappers
  import opened Errors
  import opened TimeSeries
  import opened Stats
  import opened Sorting
  import opened CorrelBase

  function Id(v: real): real { v }

  /** `sorted(...)` of a list of speeds. */
  function Ascending(s: seq<real>): (r: seq<real>)
    ensures SortedBy(r, Id) && multiset(r) == multiset(s)
  {
    SortBySorted(s, Id);
    SortBy(s, Id)
  }

  /** Number of leading values below the cutoff. */
  function LeadingBelow(xs: seq<real>, cutoff: real): (n: nat)
    ensures n <= |xs| && forall k :: 0 <= k < n ==> xs[k] < cutoff
    ensures n < |xs| ==> xs[n] >= cutoff
  {
    if xs == [] || xs[0] >= cutoff then 0
    else
      var n := LeadingBelow(xs[1..], cutoff);
      assert forall k :: 1 <= k < |xs| ==> xs[k] == xs[1..][k - 1];
      n + 1
  }

  /** The index the `for`/`break` search leaves in `start_idx`: the first value at or
      above the cutoff, or 0 when there is none. */
  function StartIndex(xs: seq<real>, cutoff: real): (i: nat)
    ensures i <= |xs|
    ensures (exists k :: 0 <= k < |xs| && xs[k] >= cutoff) ==>
      i < |xs| && xs[i] >= cutoff && forall k :: 0 <= k < i ==> xs[k] < cutoff
    ensures (forall k :: 0 <= k < |xs| ==> xs[k] < cutoff) ==> i == 0
  {
    var n := LeadingBelow(xs, cutoff);
    if n == |xs| then 0 else n
  }

  /** The `for idx, wdspd in enumerate(x_data)` loop with its `break`. */
  method FindStart(xs: seq<real>, cutoff: real) returns (start: nat)
    ensures start == StartIndex(xs, cutoff)
  {
    start := 0;
    var idx := 0;
    while idx < |xs|
      invariant 0 <= idx <= |xs|
      invariant forall k :: 0 <= k < idx ==> xs[k] < cutoff
    {
      if xs[idx] >= cutoff {
        start := idx;
        return;
      }
      idx := idx + 1;
    }
  }

  /** Python slicing `s[n:]` and `s[:n]`, which stop at the end of the list. */
  function From(s: seq<real>, n: nat): (r: seq<real>)
    ensures |r| == if n <= |s| then |s| - n else 0
    ensures forall k :: 0 <= k < |r| ==> r[k] == s[n + k]
  {
    if n <= |s| then s[n..] else []
  }

  function UpTo(s: seq<real>, n: nat): (r: seq<real>)
    ensures |r| == if n <= |s| then n else |s|
    ensures forall k :: 0 <= k < |r| ==> r[k] == s[k]
  {
    if n <= |s| then s[..n] else s
  }

  /** The two sorted lists after the cut. */
  function Truncated(refs: seq<real>, tars: seq<real>, cutoff: real): (r: (seq<real>, seq<real>))
  {
    var xs, ys := Ascending(refs), Ascending(tars);
    var start := StartIndex(xs, cutoff);
    (From(xs, start), From(ys, start))
  }

  /** `xmean1, xmean2, ymean1, ymean2`; `None` is NaN. */
  datatype Means = Means(xm1: Option<real>, xm2: Option<real>, ym1: Option<real>, ym2: Option<real>)

  /** The means of the two halves of each list, split at `int(len(x_data) / 2)` (NaN
      for an empty half). */
  function HalfMeans(x: seq<real>, y: seq<real>): (r: Means)
    ensures var mid := |x| / 2;
      r.xm1 == Mean(UpTo(x, mid)) && r.xm2 == Mean(From(x, mid)) && r.ym1 == Mean(UpTo(y, mid)) && r.ym2 == Mean(From(y, mid))
  {
    var mid := |x| / 2;
    Means(Mean(UpTo(x, mid)), Mean(From(x, mid)), Mean(UpTo(y, mid)), Mean(From(y, mid)))
  }

  function FitMeans(refs: seq<real>, tars: seq<real>, cutoff: real): Means {
    HalfMeans(Truncated(refs, tars, cutoff).0, Truncated(refs, tars, cutoff).1)
  }

  /** What a `SectorSpeedModel` holds: `None` is NaN (or an infinity from dividing by a
      zero difference of means). */
  datatype SectorModel = SectorModel(slope: Option<real>, offset: Option<real>, targetCutoff: real, dataPts: nat)

  /** The line through the two pairs of half-means. */
  predicate Defined(m: Means) {
    m.xm1.Some? && m.xm2.Some? && m.ym1.Some? && m.ym2.Some? && m.xm2.value != m.xm1.value
  }

  /** `slope = (ymean2 - ymean1) / (xmean2 - xmean1)`, `offset = ymean1 - xmean1 * slope`. */
  function Slope(m: Means): (r: Option<real>)
    ensures r.Some? <==> Defined(m)
  {
    if Defined(m) then Some((m.ym2.value - m.ym1.value) / (m.xm2.value - m.xm1.value)) else None
  }

  function Offset(m: Means): (r: Option<real>)
    ensures r.Some? <==> Defined(m)
  {
    if Defined(m) then Some(m.ym1.value - m.xm1.value * Slope(m).value) else None
  }

  /** The `SectorSpeedModel` constructor: `IndexError` when nothing is left of the target
      list after the cut (`y_data[0]`), otherwise the fitted line, the first retained
      target value and the number of retained pairs. */
  function SectorFit(refs: seq<real>, tars: seq<real>, cutoff: real): (r: Result<SectorModel, PyError>)
    ensures var x, y := Truncated(refs, tars, cutoff).0, Truncated(refs, tars, cutoff).1;
      (r.Err? <==> y == []) && (r.Err? ==> r.error == IndexError)
      && (r.Ok? ==> r.value.targetCutoff == y[0] && r.value.dataPts == if |x| <= |y| then |x| else |y|)
    ensures r.Ok? ==> r.value.slope == Slope(FitMeans(refs, tars, cutoff)) && r.value.offset == Offset(FitMeans(refs, tars, cutoff))
  {
    var tr := Truncated(refs, tars, cutoff);
    if tr.1 == [] then Err(IndexError)
    else
      var hm := FitMeans(refs, tars, cutoff);
      Ok(SectorModel(Slope(hm), Offset(hm), tr.1[0], if |tr.0| <= |tr.1| then |tr.0| else |tr.1|))
  }

  /** The constructor step by step, with the index search as a loop. */
  method NewSectorModel(refs: seq<real>, tars: seq<real>, cutoff: real) returns (r: Result<SectorModel, PyError>)
    ensures r == SectorFit(refs, tars, cutoff)
  {
    var xs := Ascending(refs);
    var ys := Ascending(tars);
    var start := FindStart(xs, cutoff);
    var x := From(xs, start);
    var y := From(ys, start);
    if y == [] {
      return Err(IndexError);
    }
    var hm := HalfMeans(x, y);
    var dataPts := if |x| <= |y| then |x| else |y|;
    r := Ok(SectorModel(Slope(hm), Offset(hm), y[0], dataPts));
  }

  // ---------------------------------------------------------------------------
  // Properties of the fit

  /** In an ascending list, everything from a value at or above the cutoff onwards is at
      or above it too. */
  lemma SortedTailAtLeast(xs: seq<real>, start: int, cutoff: real)
    requires SortedBy(xs, Id) && 0 <= start < |xs| && xs[start] >= cutoff
    ensures forall k :: start <= k < |xs| ==> xs[k] >= cutoff
  {
    forall k | start < k < |xs| ensures xs[k] >= cutoff {
      assert Id(xs[start]) <= Id(xs[k]);
    }
  }

  /** Both lists lose the same number `d` of leading values: the reference's values
      below the cutoff, or nothing when no value reaches it. */
  lemma TruncationAtFirstQualifying(refs: seq<real>, tars: seq<real>, cutoff: real)
    ensures var xs, ys := Ascending(refs), Ascending(tars);
      var d := StartIndex(xs, cutoff);
      Truncated(refs, tars, cutoff) == (xs[d..], From(ys, d))
      && (forall k :: 0 <= k < d ==> xs[k] < cutoff)
      && ((exists k :: 0 <= k < |xs| && xs[k] >= cutoff) ==> forall k :: d <= k < |xs| ==> xs[k] >= cutoff)
      && ((forall k :: 0 <= k < |xs| ==> xs[k] < cutoff) ==> d == 0)
  {
    var xs := Ascending(refs);
    var d := StartIndex(xs, cutoff);
    if exists k :: 0 <= k < |xs| && xs[k] >= cutoff {
      SortedTailAtLeast(xs, d, cutoff);
    }
  }

  /** In an ascending list with a value at or above the cutoff, the search stops at the
      first such value: the values from there on are at or above the cutoff and the values
      before it are exactly those below it. */
  lemma CutKeepsAtLeast(xs: seq<real>, cutoff: real)
    requires SortedBy(xs, Id) && exists k :: 0 <= k < |xs| && xs[k] >= cutoff
    ensures var d := StartIndex(xs, cutoff);
      multiset(xs[d..]) + multiset(FilterBelow(xs, cutoff)) == multiset(xs)
      && forall k :: d <= k < |xs| ==> xs[k] >= cutoff
  {
    var d := StartIndex(xs, cutoff);
    SortedTailAtLeast(xs, d, cutoff);
    assert xs == xs[..d] + xs[d..];
    FilterBelowSorted(xs, cutoff, d);
  }

  /** When some reference value reaches the cutoff, the cut keeps exactly the values at
      or above it: the kept and the dropped values together are the input. */
  lemma KeptAreAtLeastCutoff(refs: seq<real>, tars: seq<real>, cutoff: real)
    requires exists k :: 0 <= k < |refs| && refs[k] >= cutoff
    ensures var x := Truncated(refs, tars, cutoff).0;
      multiset(x) + multiset(FilterBelow(Ascending(refs), cutoff)) == multiset(refs)
      && (forall k :: 0 <= k < |x| ==> x[k] >= cutoff)
  {
    var xs := Ascending(refs);
    AscendingReaches(refs, cutoff);
    CutKeepsAtLeast(xs, cutoff);
    assert Truncated(refs, tars, cutoff).0 == xs[StartIndex(xs, cutoff)..];
  }

  /** Sorting keeps a value at or above the cutoff. */
  lemma AscendingReaches(refs: seq<real>, cutoff: real)
    requires exists k :: 0 <= k < |refs| && refs[k] >= cutoff
    ensures exists j :: 0 <= j < |Ascending(refs)| && Ascending(refs)[j] >= cutoff
  {
    var xs := Ascending(refs);
    var k :| 0 <= k < |refs| && refs[k] >= cutoff;
    assert refs[k] in multiset(refs);
    assert refs[k] in multiset(xs);
    var j :| 0 <= j < |xs| && xs[j] == refs[k];
  }

  /** The values below the cutoff, in order. */
  function FilterBelow(s: seq<real>, cutoff: real): (r: seq<real>)
  {
    if s == [] then [] else (if s[0] < cutoff then [s[0]] else []) + FilterBelow(s[1..], cutoff)
  }

  lemma {:induction false} FilterBelowSorted(s: seq<real>, cutoff: real, n: nat)
    requires n <= |s|
    requires forall k :: 0 <= k < n ==> s[k] < cutoff
    requires forall k :: n <= k < |s| ==> s[k] >= cutoff
    ensures FilterBelow(s, cutoff) == s[..n]
  {
    if s != [] {
      assert forall k :: 1 <= k < |s| ==> s[1..][k - 1] == s[k];
      if n > 0 {
        FilterBelowSorted(s[1..], cutoff, n - 1);
        assert s[..n] == [s[0]] + s[1..][..n - 1];
      } else {
        FilterBelowSorted(s[1..], cutoff, 0);
      }
    }
  }

  /** The fitted line passes through the first pair of half-means, and through the
      second one as well (their reference means differ whenever a slope exists). */
  lemma LineThroughHalfMeans(m: Means)
    requires Defined(m)
    ensures Offset(m).value + Slope(m).value * m.xm1.value == m.ym1.value
    ensures Offset(m).value + Slope(m).value * m.xm2.value == m.ym2.value
  {
    var a, b, c, d := m.xm1.value, m.xm2.value, m.ym1.value, m.ym2.value;
    var s := Slope(m).value;
    assert s * (b - a) == d - c;
    assert (c - a * s) + s * b == c + s * (b - a);
  }

  /** Lists of equal, non-zero length always give a model: the target keeps as many
      values as the reference. */
  lemma SectorFitDefined(refs: seq<real>, tars: seq<real>, cutoff: real)
    requires |refs| == |tars| > 0
    ensures SectorFit(refs, tars, cutoff).Ok?
    ensures SectorFit(refs, tars, cutoff).value.dataPts == |Truncated(refs, tars, cutoff).0|
  {
    var xs, ys := Ascending(refs), Ascending(tars);
    assert |xs| == |multiset(xs)| == |multiset(refs)| == |refs|;
    assert |ys| == |multiset(ys)| == |multiset(tars)| == |tars|;
  }

  // ---------------------------------------------------------------------------
  // sector_predict and the cutoffs

  /** `sector_predict`: the sector's line through every value; a NaN slope (an
      undefined fit) gives NaN everywhere. */
  function SectorPredict(m: SectorModel, s: Series): (r: Series)
    ensures |r| == |s| && forall i :: 0 <= i < |s| ==> r[i].t == s[i].t
    ensures forall i :: 0 <= i < |s| ==> (r[i].v.Some? <==> s[i].v.Some? && m.slope.Some? && m.offset.Some?)
  {
    MapValues(s, (v: Option<real>) => SectorValue(m, v))
  }

  /** `sector_predict` works value by value, so it distributes over concatenation. */
  lemma SectorPredictConcat(m: SectorModel, a: Series, b: Series)
    ensures SectorPredict(m, a + b) == SectorPredict(m, a) + SectorPredict(m, b)
  {
    var l, r := SectorPredict(m, a + b), SectorPredict(m, a) + SectorPredict(m, b);
    forall i | 0 <= i < |l| ensures l[i] == r[i] {
      if i < |a| {
        assert (a + b)[i] == a[i];
      } else {
        assert (a + b)[i] == b[i - |a|];
      }
    }
  }

  /** The sector's line at one value. */
  function SectorValue(m: SectorModel, v: Option<real>): Option<real> {
    if v.Some? && m.slope.Some? && m.offset.Some? then Some(v.value * m.slope.value + m.offset.value) else None
  }

  /** A fitted sector predicts with the ordinary linear model. */
  lemma SectorPredictIsLinear(m: SectorModel, s: Series)
    requires m.slope.Some? && m.offset.Some?
    ensures SectorPredict(m, s) == LinearPredict(s, m.slope.value, m.offset.value)
  {
    var a, b := SectorPredict(m, s), LinearPredict(s, m.slope.value, m.offset.value);
    forall i | 0 <= i < |s| ensures a[i] == b[i] {
      if s[i].v.Some? {
        assert a[i].v.value == s[i].v.value * m.slope.value + m.offset.value;
        assert b[i].v.value == s[i].v.value * m.slope.value + m.offset.value;
      }
    }
  }

  /** `cutoff = min(0.5 * lt_ref_speed, 4.0)`. */
  function SpeedCutoff(ltRefSpeed: real): (r: real)
    ensures r <= 4.0 && r <= 0.5 * ltRefSpeed
    ensures r == 4.0 || r == 0.5 * ltRefSpeed
  {
    if 0.5 * ltRefSpeed <= 4.0 then 0.5 * ltRefSpeed else 4.0
  }

  /** `_get_veer_cutoff`: `0.5 * (6 + 0.5 * mean)`, NaN for a column without values. */
  function VeerCutoff(speeds: seq<real>): (r: Option<real>)
    ensures r.Some? <==> |speeds| > 0
    ensures r.Some? ==> r.value == 3.0 + Mean(speeds).value / 4.0
  {
    var m := Mean(speeds);
    if m.Some? then Some(0.5 * (6.0 + 0.5 * m.value)) else None
  }

  /** Non-negative speeds give a veer cutoff of at least 3 m/s, between 3 plus a quarter
      of the slowest and 3 plus a quarter of the fastest speed. */
  lemma VeerCutoffBounds(speeds: seq<real>, lo: real, hi: real)
    requires |speeds| > 0 && forall i :: 0 <= i < |speeds| ==> lo <= speeds[i] <= hi
    ensures 3.0 + lo / 4.0 <= VeerCutoff(speeds).value <= 3.0 + hi / 4.0
  {
    MeanBounds(speeds, lo, hi);
  }
}
