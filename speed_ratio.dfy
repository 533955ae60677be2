/** `SimpleSpeedRatio`: the overlap window, the ratio of the mean speeds, the long-term
    value and the coverage warning. The window start (`_get_min_overlap_timestamp`),
    the target's resolution (`_get_data_resolution`) and the reference's mean of
    monthly means (`momm`) are inputs. Timestamps are whole seconds. */
module SpeedRatio {
  import opened Wrappers
  import opened TimeSeries
  import opened Stats

  /** The series has a non-NaN value. */
  predicate HasValid(s: Series) {
    exists i :: 0 <= i < |s| && s[i].v.Some?
  }

  /** `s.dropna().index.max()`: the latest timestamp with a value. */
  function LastValid(s: Series): (t: int)
    requires HasValid(s)
    ensures exists i :: 0 <= i < |s| && s[i].v.Some? && s[i].t == t
    ensures forall i :: 0 <= i < |s| && s[i].v.Some? ==> s[i].t <= t
  {
    var tail := s[1..];
    if HasValid(tail) then
      var m := LastValid(tail);
      assert forall i :: 1 <= i < |s| ==> s[i] == tail[i - 1];
      if s[0].v.Some? && s[0].t > m then s[0].t else m
    else
      assert forall i :: 1 <= i < |s| ==> s[i] == tail[i - 1];
      assert s[0].v.Some?;
      s[0].t
  }

  /** What the constructor stores: the window bounds and the two windows. */
  datatype SpeedRatioModel = SpeedRatioModel(refSpd: Series, targetSpd: Series, startTs: int, endTs: int,
                                             refWindow: Series, targetWindow: Series)

  /** `SimpleSpeedRatio.__init__` as written: the window ends at the reference's last
      valid timestamp (`min` of that timestamp with itself), and both series are cut to
      `[start, end]`, both ends included. */
  function NewSpeedRatio(refSpd: Series, targetSpd: Series, startTs: int): (m: SpeedRatioModel)
    requires HasValid(refSpd)
    ensures m.endTs == LastValid(refSpd)
    ensures forall o :: o in m.refWindow <==> o in refSpd && startTs <= o.t <= m.endTs
    ensures forall o :: o in m.targetWindow <==> o in targetSpd && startTs <= o.t <= m.endTs
  {
    var endTs := LastValid(refSpd);
    SpeedRatioModel(refSpd, targetSpd, startTs, endTs, Window(refSpd, startTs, endTs), Window(targetSpd, startTs, endTs))
  }

  /** The evident intent: the window ends where the later of the two series ends
      first, the minimum of the two last valid timestamps. */
  function NewSpeedRatioCorrected(refSpd: Series, targetSpd: Series, startTs: int): (m: SpeedRatioModel)
    requires HasValid(refSpd) && HasValid(targetSpd)
    ensures m.endTs <= LastValid(refSpd) && m.endTs <= LastValid(targetSpd)
    ensures m.endTs == LastValid(refSpd) || m.endTs == LastValid(targetSpd)
  {
    var endTs := if LastValid(refSpd) <= LastValid(targetSpd) then LastValid(refSpd) else LastValid(targetSpd);
    SpeedRatioModel(refSpd, targetSpd, startTs, endTs, Window(refSpd, startTs, endTs), Window(targetSpd, startTs, endTs))
  }

  // ---------------------------------------------------------------------------
  // run

  /** `a / b` on pandas means: NaN when either mean is NaN; a zero denominator gives an
      infinity or NaN, neither of which is a number here. */
  function Ratio(a: Option<real>, b: Option<real>): (r: Option<real>)
    ensures r.Some? <==> a.Some? && b.Some? && b.value != 0.0
    ensures r.Some? ==> r.value * b.value == a.value
  {
    if a.Some? && b.Some? && b.value != 0.0 then Some(a.value / b.value) else None
  }

  /** `np.round(x, 0)`: to the nearest whole number, ties to the even one. */
  function RoundHalfEven(x: real): (r: int)
    ensures x - 0.5 <= r as real <= x + 0.5
    ensures (r as real - x == 0.5 || x - r as real == 0.5) ==> r % 2 == 0
  {
    var f := x.Floor;
    var frac := x - f as real;
    if frac < 0.5 then f
    else if frac > 0.5 then f + 1
    else if f % 2 == 0 then f else f + 1
  }

  /** The parameters `run` stores. `None` is NaN (or an infinity, for coverage). */
  datatype RatioParams = RatioParams(simpleSpeedRatio: Option<real>, refLongTermMomm: Option<real>,
                                     targetLongTerm: Option<real>, targetOverlapCoverage: Option<real>)

  /** `max_pts`: whole resolution steps in the window, rounded to whole months for a
      monthly resolution. */
  function MaxPoints(m: SpeedRatioModel, resolution: int, monthly: bool): real
    requires resolution > 0
  {
    var pts := (m.endTs - m.startTs) as real / resolution as real;
    if monthly then RoundHalfEven(pts) as real else pts
  }

  /** `tar_count / max_pts`: the valid target points over the expected ones; a zero
      `max_pts` gives an infinity or NaN. */
  function Coverage(count: nat, maxPts: real): (r: Option<real>)
    ensures r.Some? <==> maxPts != 0.0
    ensures r.Some? ==> r.value * maxPts == count as real
  {
    if maxPts == 0.0 then None else Some(count as real / maxPts)
  }

  /** `SimpleSpeedRatio.run`; the second result is whether the poor-coverage warning is
      issued. */
  function Run(m: SpeedRatioModel, momm: Option<real>, resolution: int, monthly: bool): (r: (RatioParams, bool))
    requires resolution > 0
    ensures r.0.simpleSpeedRatio == Ratio(Mean(Values(m.targetWindow)), Mean(Values(m.refWindow)))
    ensures r.0.refLongTermMomm == momm
    ensures r.0.targetLongTerm.Some? <==> r.0.simpleSpeedRatio.Some? && momm.Some?
    ensures r.0.targetLongTerm.Some? ==> r.0.targetLongTerm.value == r.0.simpleSpeedRatio.value * momm.value
    ensures r.0.targetOverlapCoverage == Coverage(|Values(m.targetWindow)|, MaxPoints(m, resolution, monthly))
    ensures r.1 <==> r.0.targetOverlapCoverage.Some? && r.0.targetOverlapCoverage.value < 0.9
  {
    var ratio := Ratio(Mean(Values(m.targetWindow)), Mean(Values(m.refWindow)));
    var longTerm := if ratio.Some? && momm.Some? then Some(ratio.value * momm.value) else None;
    var coverage := Coverage(|Values(m.targetWindow)|, MaxPoints(m, resolution, monthly));
    (RatioParams(ratio, momm, longTerm, coverage), coverage.Some? && coverage.value < 0.9)
  }

  // ---------------------------------------------------------------------------
  // Scale invariance

  function ScaleBy(s: Series, c: real): (r: Series)
    ensures |r| == |s| && forall i :: 0 <= i < |s| ==> r[i].t == s[i].t && (r[i].v.Some? <==> s[i].v.Some?)
  {
    MapValues(s, (v: Option<real>) => if v.Some? then Some(c * v.value) else None)
  }

  /** Scaling keeps which rows a window holds. */
  lemma {:induction false} WindowScaled(s: Series, lo: int, hi: int, c: real)
    ensures Window(ScaleBy(s, c), lo, hi) == ScaleBy(Window(s, lo, hi), c)
  {
    if s != [] {
      var ss := ScaleBy(s, c);
      assert ss[1..] == ScaleBy(s[1..], c);
      WindowScaled(s[1..], lo, hi, c);
      var w := Window(s, lo, hi);
      if lo <= s[0].t <= hi {
        assert w == [s[0]] + Window(s[1..], lo, hi);
        assert ScaleBy(w, c) == [ss[0]] + ScaleBy(Window(s[1..], lo, hi), c);
      }
    }
  }

  /** Scaling the speeds scales every value by the factor. */
  lemma {:induction false} ValuesScaled(s: Series, c: real)
    ensures var a, b := Values(ScaleBy(s, c)), Values(s);
      |a| == |b| && forall i :: 0 <= i < |a| ==> a[i] == c * b[i]
  {
    if s != [] {
      var ss := ScaleBy(s, c);
      assert ss[1..] == ScaleBy(s[1..], c);
      ValuesScaled(s[1..], c);
      var a, b := Values(ss), Values(s);
      var a', b' := Values(ss[1..]), Values(s[1..]);
      if s[0].v.Some? {
        assert a == [ss[0].v.value] + a';
        assert b == [s[0].v.value] + b';
        forall i | 0 <= i < |a| ensures a[i] == c * b[i] {
          if i > 0 {
            assert a[i] == a'[i - 1] && b[i] == b'[i - 1];
          }
        }
      } else {
        assert a == a' && b == b';
      }
    }
  }

  lemma WindowValuesScaled(s: Series, lo: int, hi: int, c: real)
    ensures Values(Window(ScaleBy(s, c), lo, hi)) == Scaled(Values(Window(s, lo, hi)), c)
  {
    WindowScaled(s, lo, hi, c);
    ValuesScaled(Window(s, lo, hi), c);
  }

  lemma {:induction false} LastValidScaled(s: Series, c: real)
    requires HasValid(s)
    ensures HasValid(ScaleBy(s, c)) && LastValid(ScaleBy(s, c)) == LastValid(s)
  {
    var ss := ScaleBy(s, c);
    var i :| 0 <= i < |s| && s[i].v.Some? && s[i].t == LastValid(s);
    assert ss[i].v.Some?;
    var j :| 0 <= j < |ss| && ss[j].v.Some? && ss[j].t == LastValid(ss);
    assert s[j].v.Some?;
  }

  lemma DivCancel(c: real, x: real, y: real)
    requires c != 0.0 && y != 0.0
    ensures (c * x) / (c * y) == x / y
  {
  }

  /** The ratio of the window means, NaN cases included, is unchanged when both means
      are multiplied by the same non-zero factor. */
  lemma RatioOfScaledMeans(a: seq<real>, b: seq<real>, c: real)
    requires c != 0.0
    ensures var r, r' := Ratio(Mean(a), Mean(b)), Ratio(Mean(Scaled(a, c)), Mean(Scaled(b, c)));
      (r'.Some? <==> r.Some?) && (r.Some? ==> r'.value == r.value)
  {
    MeanScaled(a, c);
    MeanScaled(b, c);
    if a != [] && b != [] && Mean(b).value != 0.0 {
      DivCancel(c, Mean(a).value, Mean(b).value);
    }
  }

  /** Multiplying both series by the same non-zero factor changes neither the window
      nor the speed ratio. */
  lemma RatioScaleInvariant(refSpd: Series, targetSpd: Series, startTs: int, c: real)
    requires HasValid(refSpd) && c != 0.0
    ensures HasValid(ScaleBy(refSpd, c))
    ensures var m := NewSpeedRatio(refSpd, targetSpd, startTs);
      var m' := NewSpeedRatio(ScaleBy(refSpd, c), ScaleBy(targetSpd, c), startTs);
      var r, r' := Ratio(Mean(Values(m.targetWindow)), Mean(Values(m.refWindow))),
                   Ratio(Mean(Values(m'.targetWindow)), Mean(Values(m'.refWindow)));
      m'.endTs == m.endTs && (r'.Some? <==> r.Some?) && (r.Some? ==> r'.value == r.value)
  {
    LastValidScaled(refSpd, c);
    var e := LastValid(refSpd);
    WindowValuesScaled(targetSpd, startTs, e, c);
    WindowValuesScaled(refSpd, startTs, e, c);
    RatioOfScaledMeans(Values(Window(targetSpd, startTs, e)), Values(Window(refSpd, startTs, e)), c);
  }

  // ---------------------------------------------------------------------------
  // The window end as written and as intended

  /** As written, a reference that runs past the end of the target stretches the window:
      a target with a value at every step of its own period is warned about. */
  lemma LongReferenceWarns(refSpd: Series, targetSpd: Series)
    requires refSpd == [Obs(0, Some(5.0)), Obs(3, Some(5.0))]
    requires targetSpd == [Obs(0, Some(6.0)), Obs(1, Some(6.0))]
    ensures HasValid(refSpd) && HasValid(targetSpd)
    ensures Run(NewSpeedRatio(refSpd, targetSpd, 0), Some(5.0), 1, false).1
  {
    ExampleEnds(refSpd, targetSpd);
    ExampleWindows(targetSpd);
    CoverageOfTwo(NewSpeedRatio(refSpd, targetSpd, 0), Some(5.0));
  }

  /** With the intended window end the same target is judged complete. */
  lemma LongReferenceCorrectedNoWarning(refSpd: Series, targetSpd: Series)
    requires refSpd == [Obs(0, Some(5.0)), Obs(3, Some(5.0))]
    requires targetSpd == [Obs(0, Some(6.0)), Obs(1, Some(6.0))]
    ensures HasValid(refSpd) && HasValid(targetSpd)
    ensures !Run(NewSpeedRatioCorrected(refSpd, targetSpd, 0), Some(5.0), 1, false).1
  {
    ExampleEnds(refSpd, targetSpd);
    ExampleWindows(targetSpd);
    CoverageOfTwo(NewSpeedRatioCorrected(refSpd, targetSpd, 0), Some(5.0));
  }

  /** Two valid target points over a window of one step are complete; over three
      steps they are poor coverage. */
  lemma CoverageOfTwo(m: SpeedRatioModel, momm: Option<real>)
    requires |Values(m.targetWindow)| == 2
    ensures m.endTs - m.startTs == 3 ==> Run(m, momm, 1, false).1
    ensures m.endTs - m.startTs == 1 ==> !Run(m, momm, 1, false).1
  {
    assert Coverage(2, 3.0) == Some(2.0 / 3.0);
    assert Coverage(2, 1.0) == Some(2.0);
  }

  lemma ExampleEnds(refSpd: Series, targetSpd: Series)
    requires refSpd == [Obs(0, Some(5.0)), Obs(3, Some(5.0))]
    requires targetSpd == [Obs(0, Some(6.0)), Obs(1, Some(6.0))]
    ensures HasValid(refSpd) && HasValid(targetSpd) && LastValid(refSpd) == 3 && LastValid(targetSpd) == 1
  {
    assert refSpd[1].v.Some? && targetSpd[1].v.Some?;
    var i :| 0 <= i < |refSpd| && refSpd[i].v.Some? && refSpd[i].t == LastValid(refSpd);
    var j :| 0 <= j < |targetSpd| && targetSpd[j].v.Some? && targetSpd[j].t == LastValid(targetSpd);
  }

  lemma ExampleWindows(targetSpd: Series)
    requires targetSpd == [Obs(0, Some(6.0)), Obs(1, Some(6.0))]
    ensures Window(targetSpd, 0, 3) == targetSpd && Window(targetSpd, 0, 1) == targetSpd
    ensures Values(targetSpd) == [6.0, 6.0]
  {
  }

  /** Corrected, both windows lie inside the overlap of the two series' valid periods. */
  lemma CorrectedWindowInsideBoth(refSpd: Series, targetSpd: Series, startTs: int)
    requires HasValid(refSpd) && HasValid(targetSpd)
    ensures var m := NewSpeedRatioCorrected(refSpd, targetSpd, startTs);
      (forall o :: o in m.refWindow ==> o.t <= LastValid(targetSpd))
      && (forall o :: o in m.targetWindow ==> o.t <= LastValid(refSpd))
  {
  }
}
