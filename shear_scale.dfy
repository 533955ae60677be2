/** Height scaling of wind speeds: `log_scale` and the two branches of `_scale`. The
    logarithms of the heights and the power function are not computed here: `lnH` and
    `lnH2` stand for `np.log(height)` and `np.log(height_to_scale_to)`, and `pow` for
    Python's `**` on floats. */
module ShearScale {
  import opened Wrappers
  import opened Errors
  import opened TimeSeries

  datatype CalcMethod = PowerLaw | LogLaw

  function MethodName(m: CalcMethod): string {
    match m
    case PowerLaw => "power_law"
    case LogLaw => "log_law"
  }

  /** The `calc_method` check of the constructors: any other name raises `ValueError`. */
  function ParseCalcMethod(name: string): (r: Result<CalcMethod, PyError>)
    ensures r.Ok? ==> MethodName(r.value) == name
    ensures r.Err? ==> r.error == ValueError && name != "power_law" && name != "log_law"
  {
    if name == "power_law" then Ok(PowerLaw)
    else if name == "log_law" then Ok(LogLaw)
    else Err(ValueError)
  }

  lemma ParseMethodName(m: CalcMethod)
    ensures ParseCalcMethod(MethodName(m)) == Ok(m)
  {
  }

  /** `log_scale`: with `G1 = slope·ln(h) + intercept` and `G2 = slope·ln(h2) + intercept`
      the speed is corrected by its relative error from `G1` and rescaled to `G2`. A
      zero `G1` is a float division by zero, which numpy turns into NaN or inf. */
  function LogScale(w: real, lnH: real, lnH2: real, slope: real, intercept: real): Option<real> {
    var graphSpeed := slope * lnH + intercept;
    var scaledGraphSpeed := slope * lnH2 + intercept;
    if graphSpeed == 0.0 then None
    else
      var error := -(graphSpeed - w) / graphSpeed;
      Some(scaledGraphSpeed + error * scaledGraphSpeed)
  }

  /** `log_scale` multiplies the speed by `G2 / G1`. */
  lemma LogScaleIsRatio(w: real, lnH: real, lnH2: real, slope: real, intercept: real)
    ensures LogScale(w, lnH, lnH2, slope, intercept).Some? <==> slope * lnH + intercept != 0.0
    ensures LogScale(w, lnH, lnH2, slope, intercept).Some? ==>
      LogScale(w, lnH, lnH2, slope, intercept).value
        == w * (slope * lnH2 + intercept) / (slope * lnH + intercept)
  {
    var g1 := slope * lnH + intercept;
    var g2 := slope * lnH2 + intercept;
    if g1 != 0.0 {
      var error := -(g1 - w) / g1;
      assert -(g1 - w) / g1 == (w - g1) / g1;
      assert (w - g1) / g1 == w / g1 - g1 / g1;
      assert g1 / g1 == 1.0;
      assert error == w / g1 - 1.0;
      assert g2 + error * g2 == g2 * (w / g1);
    }
  }

  /** Scaling to the same height gives the speed back. */
  lemma LogScaleSameHeight(w: real, lnH: real, slope: real, intercept: real)
    requires slope * lnH + intercept != 0.0
    ensures LogScale(w, lnH, lnH, slope, intercept).value == w
  {
    LogScaleIsRatio(w, lnH, lnH, slope, intercept);
  }

  /** NaN-propagating product. */
  function Times(v: Option<real>, factor: Option<real>): (r: Option<real>)
    ensures r.Some? <==> v.Some? && factor.Some?
  {
    if v.Some? && factor.Some? then Some(v.value * factor.value) else None
  }

  /** `(height_to_scale_to / height) ** alpha`; a zero `height` raises
      `ZeroDivisionError` and a NaN `alpha` gives NaN. */
  function PowerFactor(height: real, heightTo: real, alpha: Option<real>, pow: (real, real) -> real): (r: Result<Option<real>, PyError>)
    ensures r.Err? <==> height == 0.0
    ensures r.Err? ==> r.error == ZeroDivisionError
    ensures r.Ok? ==> (r.value.Some? <==> alpha.Some?)
  {
    if height == 0.0 then Err(ZeroDivisionError)
    else if alpha.None? then Ok(None)
    else Ok(Some(pow(heightTo / height, alpha.value)))
  }

  /** The power-law branch of `_scale`: every speed times the one factor. */
  function PowerScale(wspds: Series, height: real, heightTo: real, alpha: Option<real>, pow: (real, real) -> real): (r: Result<Series, PyError>)
    ensures r.Err? <==> height == 0.0
  {
    var f := PowerFactor(height, heightTo, alpha, pow);
    if f.Err? then Err(f.error) else Ok(MapValues(wspds, (v: Option<real>) => Times(v, f.value)))
  }

  /** Power-law scaling keeps the index and gives every row the same ratio of scaled to
      unscaled speed. */
  lemma PowerScaleUniform(wspds: Series, height: real, heightTo: real, alpha: real, pow: (real, real) -> real, i: int, j: int)
    requires height != 0.0 && 0 <= i < |wspds| && 0 <= j < |wspds|
    requires wspds[i].v.Some? && wspds[j].v.Some? && wspds[i].v.value != 0.0 && wspds[j].v.value != 0.0
    ensures var r := PowerScale(wspds, height, heightTo, Some(alpha), pow).value;
      |r| == |wspds| && r[i].t == wspds[i].t
      && r[i].v.value / wspds[i].v.value == r[j].v.value / wspds[j].v.value == pow(heightTo / height, alpha)
  {
    var c := pow(heightTo / height, alpha);
    var r := PowerScale(wspds, height, heightTo, Some(alpha), pow).value;
    assert r[i].v.value == wspds[i].v.value * c && r[j].v.value == wspds[j].v.value * c;
  }

  /** With a NaN exponent every power-law scaled speed is NaN. */
  lemma PowerScaleNaN(wspds: Series, height: real, heightTo: real, pow: (real, real) -> real)
    requires height != 0.0
    ensures forall i :: 0 <= i < |wspds| ==> PowerScale(wspds, height, heightTo, None, pow).value[i].v == None
  {
  }

  /** When the power function is 1 at base 1, scaling a height to itself changes nothing. */
  lemma PowerScaleSameHeight(wspds: Series, height: real, alpha: real, pow: (real, real) -> real)
    requires height != 0.0 && pow(1.0, alpha) == 1.0
    ensures PowerScale(wspds, height, height, Some(alpha), pow) == Ok(wspds)
  {
    assert height / height == 1.0;
    assert PowerFactor(height, height, Some(alpha), pow) == Ok(Some(1.0));
    var r := PowerScale(wspds, height, height, Some(alpha), pow).value;
    forall i | 0 <= i < |wspds| ensures r[i] == wspds[i] {
      if wspds[i].v.Some? {
        assert r[i].v.value == wspds[i].v.value * 1.0;
      }
    }
    assert r == wspds;
  }

  /** The log-law branch of `_scale`; a NaN slope or intercept gives NaN. */
  function LogScaleSeries(wspds: Series, lnH: real, lnH2: real, slope: Option<real>, intercept: Option<real>): (r: Series)
    ensures |r| == |wspds| && forall i :: 0 <= i < |r| ==> r[i].t == wspds[i].t
  {
    MapValues(wspds, (v: Option<real>) =>
      if v.Some? && slope.Some? && intercept.Some? then LogScale(v.value, lnH, lnH2, slope.value, intercept.value)
      else None)
  }
}
