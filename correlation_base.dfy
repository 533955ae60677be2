/** The linear correlation models: the `_predict` of `OrdinaryLeastSquares` and of
    `OrthogonalLeastSquares`, and `CorrelBase.get_r2` and `CorrelBase.synthesize` for
    them. The fitted slope and offset (from `lstsq` or `ODR`) are inputs. */
module CorrelBase {
  import opened Wrappers
  import opened Errors
  import opened TimeSeries
  import opened Stats

  /** `x * slope + offset` on one value; NaN stays NaN. */
  function Linear(v: Option<real>, slope: real, offset: real): (r: Option<real>)
    ensures r.Some? <==> v.Some?
  {
    if v.Some? then Some(v.value * slope + offset) else None
  }

  /** `OrdinaryLeastSquares._predict` (`ref_spd * slope + offset`) and
      `OrthogonalLeastSquares._predict` (`linear_func` with `p = [slope, offset]`, that
      is `p[0] * x + p[1]`): the same line through every value, index kept. */
  function LinearPredict(s: Series, slope: real, offset: real): (r: Series)
    ensures |r| == |s| && forall i :: 0 <= i < |s| ==> r[i].t == s[i].t && (r[i].v.Some? <==> s[i].v.Some?)
  {
    MapValues(s, (v: Option<real>) => Linear(v, slope, offset))
  }

  /** With a non-zero slope the reference value is recovered from its prediction. */
  lemma LinearPredictInverse(s: Series, slope: real, offset: real, i: int)
    requires slope != 0.0 && 0 <= i < |s| && s[i].v.Some?
    ensures s[i].v.value == (LinearPredict(s, slope, offset)[i].v.value - offset) / slope
  {
    var x := s[i].v.value;
    assert LinearPredict(s, slope, offset)[i].v.value == x * slope + offset;
    assert (x * slope + offset - offset) / slope == x;
  }

  /** With a positive slope the prediction keeps the order of the reference values. */
  lemma LinearPredictMonotone(s: Series, slope: real, offset: real, i: int, j: int)
    requires slope > 0.0 && 0 <= i < |s| && 0 <= j < |s| && s[i].v.Some? && s[j].v.Some?
    ensures var r := LinearPredict(s, slope, offset);
      s[i].v.value <= s[j].v.value <==> r[i].v.value <= r[j].v.value
  {
    var r := LinearPredict(s, slope, offset);
    var a, b := s[i].v.value, s[j].v.value;
    assert r[i].v.value == a * slope + offset && r[j].v.value == b * slope + offset;
    assert r[j].v.value - r[i].v.value == (b - a) * slope;
    if a <= b {
      assert (b - a) * slope >= 0.0;
    } else {
      assert (a - b) * slope > 0.0;
    }
  }

  /** Reading the prediction at a timestamp predicts the value read there. */
  lemma LinearPredictAt(s: Series, slope: real, offset: real, t: int)
    requires Ordered(s)
    ensures Ordered(LinearPredict(s, slope, offset)) && Keys(LinearPredict(s, slope, offset)) == Keys(s)
    ensures ValueAt(LinearPredict(s, slope, offset), t) == Linear(ValueAt(s, t), slope, offset)
  {
    var g := (v: Option<real>) => Linear(v, slope, offset);
    MapValuesKeepsIndex(s, g);
    ValueAtMapValues(s, g, t);
  }

  // ---------------------------------------------------------------------------
  // get_r2

  /** `(a - b) ** 2`, NaN if either side is NaN. */
  function SqDiff(a: Option<real>, b: Option<real>): (r: Option<real>)
    ensures r.Some? <==> a.Some? && b.Some?
    ensures r.Some? ==> r.value >= 0.0
  {
    if a.Some? && b.Some? then Some(Square(a.value - b.value)) else None
  }

  /** A squared difference is zero exactly when the two values are equal. */
  lemma SqDiffZero(a: real, b: real)
    ensures SqDiff(Some(a), Some(b)).value == 0.0 <==> a == b
  {
    SquareZero(a - b);
  }

  function Product(a: real, b: real): real { a * b }

  function Square(d: real): (r: real)
    ensures r >= 0.0
  {
    Product(d, d)
  }

  lemma ProductPositive(a: real, b: real)
    requires (a > 0.0 && b > 0.0) || (a < 0.0 && b < 0.0)
    ensures Product(a, b) > 0.0
  {
  }

  lemma SquareZero(d: real)
    ensures Square(d) == 0.0 <==> d == 0.0
  {
    if d != 0.0 {
      ProductPositive(d, d);
    }
  }

  /** Python's built-in `sum` over float values: NaN as soon as one term is NaN. */
  function PySum(s: seq<Option<real>>): (r: Option<real>)
    ensures r.Some? <==> forall i :: 0 <= i < |s| ==> s[i].Some?
  {
    if s == [] then Some(0.0)
    else
      var rest := PySum(s[1..]);
      assert forall i :: 1 <= i < |s| ==> s[i] == s[1..][i - 1];
      if s[0].None? || rest.None? then None else Some(s[0].value + rest.value)
  }

  /** A sum of non-negative terms is non-negative, and zero only when every term is. */
  lemma {:induction false} PySumNonNegative(s: seq<Option<real>>)
    requires forall i :: 0 <= i < |s| ==> s[i].Some? && s[i].value >= 0.0
    ensures PySum(s).value >= 0.0
    ensures PySum(s).value == 0.0 <==> forall i :: 0 <= i < |s| ==> s[i].value == 0.0
  {
    if s != [] {
      assert forall i :: 1 <= i < |s| ==> s[i] == s[1..][i - 1];
      PySumNonNegative(s[1..]);
    }
  }

  /** The rows of `self.data`: the reference speed in `x` and the target speed in `y`. */
  function Targets(data: seq<Joined>): Series {
    JoinedValues(data, (j: Joined) => j.y)
  }

  /** The squared residuals `(target - _predict(ref)) ** 2`. */
  function Residuals(data: seq<Joined>, slope: real, offset: real): (r: seq<Option<real>>)
    ensures |r| == |data| && forall i :: 0 <= i < |data| ==> r[i] == SqDiff(data[i].y, Linear(data[i].x, slope, offset))
  {
    seq(|data|, i requires 0 <= i < |data| => SqDiff(data[i].y, Linear(data[i].x, slope, offset)))
  }

  /** The squared deviations `(target - target.mean()) ** 2`; `mean` skips NaN. */
  function Deviations(data: seq<Joined>): (r: seq<Option<real>>)
    ensures |r| == |data| && forall i :: 0 <= i < |data| ==> r[i] == SqDiff(data[i].y, Mean(Values(Targets(data))))
  {
    var m := Mean(Values(Targets(data)));
    seq(|data|, i requires 0 <= i < |data| => SqDiff(data[i].y, m))
  }

  /** `get_r2`: `1 - SSres / SStot`. On an empty frame both sums are the integer 0 and
      the division raises `ZeroDivisionError`; otherwise they are floats, and a NaN term
      or a zero `SStot` gives a non-finite value (`None`). */
  function R2(data: seq<Joined>, slope: real, offset: real): (r: Result<Option<real>, PyError>)
    ensures r.Err? <==> |data| == 0
    ensures r.Err? ==> r.error == ZeroDivisionError
  {
    var res := PySum(Residuals(data, slope, offset));
    var tot := PySum(Deviations(data));
    if |data| == 0 then Err(ZeroDivisionError)
    else if res.None? || tot.None? || tot.value == 0.0 then Ok(None)
    else Ok(Some(1.0 - res.value / tot.value))
  }

  /** Every value of the frame is present. */
  ghost predicate Complete(data: seq<Joined>) {
    forall i :: 0 <= i < |data| ==> data[i].x.Some? && data[i].y.Some?
  }

  lemma TargetValues(data: seq<Joined>)
    requires Complete(data)
    ensures Values(Targets(data)) == seq(|data|, i requires 0 <= i < |data| => data[i].y.value)
  {
    ValuesComplete(Targets(data));
  }

  lemma {:induction false} ValuesComplete(s: Series)
    requires forall i :: 0 <= i < |s| ==> s[i].v.Some?
    ensures Values(s) == seq(|s|, i requires 0 <= i < |s| => s[i].v.value)
  {
    if s != [] {
      ValuesComplete(s[1..]);
    }
  }

  /** The score is never above one. */
  lemma R2AtMostOne(data: seq<Joined>, slope: real, offset: real)
    requires R2(data, slope, offset).Ok? && R2(data, slope, offset).value.Some?
    ensures R2(data, slope, offset).value.value <= 1.0
  {
    var res := Residuals(data, slope, offset);
    var dev := Deviations(data);
    PySumNonNegative(res);
    PySumNonNegative(dev);
    var a, b := PySum(res).value, PySum(dev).value;
    assert a / b >= 0.0;
  }

  /** The score is exactly one when, and only when, the line predicts every target. */
  lemma R2OneIffExact(data: seq<Joined>, slope: real, offset: real)
    requires R2(data, slope, offset).Ok? && R2(data, slope, offset).value.Some?
    ensures R2(data, slope, offset).value.value == 1.0 <==>
      forall i :: 0 <= i < |data| ==> data[i].y.value == data[i].x.value * slope + offset
  {
    var res := Residuals(data, slope, offset);
    var dev := Deviations(data);
    PySumNonNegative(res);
    PySumNonNegative(dev);
    var a, b := PySum(res).value, PySum(dev).value;
    assert 1.0 - a / b == 1.0 <==> a == 0.0;
    assert a == 0.0 <==> forall i :: 0 <= i < |data| ==> res[i].value == 0.0;
    forall i | 0 <= i < |data|
      ensures res[i].value == 0.0 <==> data[i].y.value == data[i].x.value * slope + offset
    {
      assert res[i] == SqDiff(data[i].y, Linear(data[i].x, slope, offset));
      SqDiffZero(data[i].y.value, data[i].x.value * slope + offset);
    }
  }

  /** The score is defined exactly on a non-empty frame without NaN whose targets are
      not all equal. */
  lemma R2Defined(data: seq<Joined>, slope: real, offset: real)
    ensures (R2(data, slope, offset).Ok? && R2(data, slope, offset).value.Some?) <==>
      |data| > 0 && Complete(data) && exists i, j :: 0 <= i < |data| && 0 <= j < |data| && data[i].y != data[j].y
  {
    if |data| > 0 && Complete(data) {
      PySumNonNegative(Residuals(data, slope, offset));
      TotalZeroIffConstant(data);
    } else if |data| > 0 {
      var res := Residuals(data, slope, offset);
      var dev := Deviations(data);
      var k :| 0 <= k < |data| && !(data[k].x.Some? && data[k].y.Some?);
      if data[k].y.None? {
        assert dev[k].None?;
      } else {
        assert res[k].None?;
      }
    }
  }

  /** On a complete frame the total sum of squares is zero exactly when all targets are
      equal. */
  lemma TotalZeroIffConstant(data: seq<Joined>)
    requires |data| > 0 && Complete(data)
    ensures PySum(Deviations(data)).Some?
    ensures PySum(Deviations(data)).value != 0.0 <==>
      exists i, j :: 0 <= i < |data| && 0 <= j < |data| && data[i].y != data[j].y
  {
    var dev := Deviations(data);
    TargetValues(data);
    var ys := Values(Targets(data));
    assert |ys| == |data| && forall k :: 0 <= k < |ys| ==> ys[k] == data[k].y.value;
    var m := Mean(ys).value;
    PySumNonNegative(dev);
    if exists i, j :: 0 <= i < |data| && 0 <= j < |data| && data[i].y != data[j].y {
      var i, j :| 0 <= i < |data| && 0 <= j < |data| && data[i].y != data[j].y;
      SqDiffZero(data[i].y.value, m);
      SqDiffZero(data[j].y.value, m);
    } else {
      MeanBounds(ys, data[0].y.value, data[0].y.value);
      forall k | 0 <= k < |data| ensures dev[k].value == 0.0 {
        assert data[k].y == data[0].y;
        SqDiffZero(data[k].y.value, m);
      }
    }
  }

  /** Predicting every target by the targets' mean scores zero. */
  lemma R2OfMean(data: seq<Joined>)
    requires |data| > 0 && Complete(data)
    ensures var m := Mean(Values(Targets(data))).value;
      R2(data, 0.0, m).Ok? && (R2(data, 0.0, m).value.Some? ==> R2(data, 0.0, m).value.value == 0.0)
  {
    TargetValues(data);
    var m := Mean(Values(Targets(data))).value;
    var res := Residuals(data, 0.0, m);
    var dev := Deviations(data);
    assert res == dev;
  }

  // ---------------------------------------------------------------------------
  // synthesize

  /** A named output column. */
  datatype Column = Column(name: string, values: Series)

  /** `CorrelBase.synthesize`: with an external input, its prediction; otherwise the
      period-averaged target where it has a value and the prediction from the
      period-averaged reference elsewhere. The averaging (`average_data_by_period`) is
      not part of this model: `avgRef` and `avgTarget` are its results. */
  function Synthesize(targetName: string, slope: real, offset: real, extInput: Option<Series>,
                      avgRef: Series, avgTarget: Series): (r: Column)
    ensures r.name == targetName + "_Synthesized"
    ensures extInput.Some? ==> r.values == LinearPredict(extInput.value, slope, offset)
  {
    var output := if extInput.Some? then LinearPredict(extInput.value, slope, offset)
                  else CombineFirst(avgTarget, LinearPredict(avgRef, slope, offset));
    Column(targetName + "_Synthesized", output)
  }

  /** Without an input, the synthesized series covers both averaged indexes, keeps every
      measured target value and fills the rest from the reference. */
  lemma SynthesizeKeepsMeasurements(targetName: string, slope: real, offset: real, avgRef: Series, avgTarget: Series, t: int)
    requires Ordered(avgRef) && Ordered(avgTarget)
    ensures var r := Synthesize(targetName, slope, offset, None, avgRef, avgTarget).values;
      Ordered(r) && Keys(r) == Keys(avgTarget) + Keys(avgRef)
      && ValueAt(r, t) == if ValueAt(avgTarget, t).Some? then ValueAt(avgTarget, t)
                          else Linear(ValueAt(avgRef, t), slope, offset)
  {
    var p := LinearPredict(avgRef, slope, offset);
    LinearPredictAt(avgRef, slope, offset, t);
    CombineFirstCorrect(avgTarget, p);
  }
}
