/** The `Average` shear model: the constructor's filter of the anemometer readings and
    its error checks, and the `Average` branch of `_apply`. The regressions that turn
    the mean speeds into an exponent, or a slope and an intercept, are supplied as
    functions. */
module ShearAverage {
  import opened Wrappers
  import opened Errors
  import opened TimeSeries
  import opened Stats
  import opened ShearScale

  /** One timestamp of the speed frame: a value per anemometer height, NaN allowed. */
  type Reading = seq<Option<real>>

  /** A reading survives `dropna()` and the mask `(wspds > min_speed).all(axis=1)`:
      every height has a value and every value is above the minimum speed. */
  predicate Retained(row: Reading, minSpeed: real) {
    forall k :: 0 <= k < |row| ==> row[k].Some? && row[k].value > minSpeed
  }

  function RetainedRows(rows: seq<Reading>, minSpeed: real): (r: seq<Reading>)
    ensures forall x :: x in r <==> x in rows && Retained(x, minSpeed)
  {
    if rows == [] then []
    else
      assert forall x :: x in rows <==> x == rows[0] || x in rows[1..];
      (if Retained(rows[0], minSpeed) then [rows[0]] else []) + RetainedRows(rows[1..], minSpeed)
  }

  /** Column `k` of retained readings. */
  function Column(rows: seq<Reading>, k: nat, minSpeed: real): (r: seq<real>)
    requires forall i :: 0 <= i < |rows| ==> k < |rows[i]| && rows[i][k].Some?
    ensures |r| == |rows| && forall i :: 0 <= i < |rows| ==> r[i] == rows[i][k].value
  {
    seq(|rows|, i requires 0 <= i < |rows| => rows[i][k].value)
  }

  /** `wspds[(wspds > min_speed).all(axis=1)].mean().dropna()`: one mean per height over
      the retained readings; with no retained reading every mean is NaN and all are
      dropped. */
  function MeanSpeeds(rows: seq<Reading>, heights: nat, minSpeed: real): (r: seq<real>)
    requires forall x :: x in rows ==> |x| == heights
  {
    var kept := RetainedRows(rows, minSpeed);
    assert forall i :: 0 <= i < |kept| ==> kept[i] in kept && kept[i] in rows && Retained(kept[i], minSpeed);
    if kept == [] then []
    else seq(heights, (k: int) requires 0 <= k < heights => Mean(Column(kept, k, minSpeed)).value)
  }

  /** What an `Average` object holds after construction. */
  datatype AverageShear = AveragePower(alpha: real) | AverageLog(slope: real, intercept: real)

  /** The `Average` constructor as written: `ValueError` when no mean speed is left (no
      reading has every height above `min_speed`, or there are no heights), then
      `ValueError` for a method other than `power_law` and `log_law`. Only the power law
      binds `alpha`, which the `info` dictionary then reads for every method, so a
      log-law object is never built: `UnboundLocalError`. */
  function AverageFit(rows: seq<Reading>, heights: nat, minSpeed: real, calcMethod: string,
                      powerFit: seq<real> -> real, logFit: seq<real> -> (real, real)): (r: Result<AverageShear, PyError>)
    requires forall x :: x in rows ==> |x| == heights
    ensures r.Err? <==> RetainedRows(rows, minSpeed) == [] || heights == 0 || calcMethod != "power_law"
    ensures r.Err? && r.error != ValueError ==>
      r.error == UnboundLocalError && calcMethod == "log_law" && RetainedRows(rows, minSpeed) != [] && heights > 0
    ensures r.Ok? ==> r.value == AveragePower(powerFit(MeanSpeeds(rows, heights, minSpeed)))
  {
    var means := MeanSpeeds(rows, heights, minSpeed);
    if |means| == 0 then Err(ValueError)
    else
      match ParseCalcMethod(calcMethod)
      case Err(e) => Err(e)
      case Ok(PowerLaw) => Ok(AveragePower(powerFit(means)))
      case Ok(LogLaw) => Err(UnboundLocalError)
  }

  /** As written, a log-law `Average` object with some reading above `min_speed` fails
      with `UnboundLocalError` instead of carrying its slope and intercept. */
  lemma LogLawAverageFails(rows: seq<Reading>, heights: nat, minSpeed: real,
                           powerFit: seq<real> -> real, logFit: seq<real> -> (real, real), x: Reading)
    requires forall y :: y in rows ==> |y| == heights
    requires heights > 0 && x in rows && Retained(x, minSpeed)
    ensures AverageFit(rows, heights, minSpeed, "log_law", powerFit, logFit) == Err(UnboundLocalError)
  {
    MeanSpeedsCount(rows, heights, minSpeed);
  }

  /** The evident intent: each method's fit of the mean speeds, with the same two
      `ValueError` cases. */
  function AverageFitCorrected(rows: seq<Reading>, heights: nat, minSpeed: real, calcMethod: string,
                               powerFit: seq<real> -> real, logFit: seq<real> -> (real, real)): (r: Result<AverageShear, PyError>)
    requires forall x :: x in rows ==> |x| == heights
    ensures r.Err? ==> r.error == ValueError
    ensures r.Err? <==> RetainedRows(rows, minSpeed) == [] || heights == 0 || ParseCalcMethod(calcMethod).Err?
    ensures r.Ok? && r.value.AveragePower? ==> calcMethod == "power_law" && r.value.alpha == powerFit(MeanSpeeds(rows, heights, minSpeed))
    ensures r.Ok? && r.value.AverageLog? ==>
      calcMethod == "log_law" && (r.value.slope, r.value.intercept) == logFit(MeanSpeeds(rows, heights, minSpeed))
  {
    var means := MeanSpeeds(rows, heights, minSpeed);
    if |means| == 0 then Err(ValueError)
    else
      match ParseCalcMethod(calcMethod)
      case Err(e) => Err(e)
      case Ok(PowerLaw) => Ok(AveragePower(powerFit(means)))
      case Ok(LogLaw) =>
        var (slope, c) := logFit(means);
        Ok(AverageLog(slope, c))
  }

  /** Corrected, a log-law object with some reading above `min_speed` carries the log
      fit of the mean speeds. */
  lemma LogLawAverageCorrectedFits(rows: seq<Reading>, heights: nat, minSpeed: real,
                                   powerFit: seq<real> -> real, logFit: seq<real> -> (real, real), x: Reading)
    requires forall y :: y in rows ==> |y| == heights
    requires heights > 0 && x in rows && Retained(x, minSpeed)
    ensures var m := logFit(MeanSpeeds(rows, heights, minSpeed));
      AverageFitCorrected(rows, heights, minSpeed, "log_law", powerFit, logFit) == Ok(AverageLog(m.0, m.1))
  {
    MeanSpeedsCount(rows, heights, minSpeed);
  }

  /** Every mean the fit sees is above the minimum speed. */
  lemma MeanSpeedsAboveMinimum(rows: seq<Reading>, heights: nat, minSpeed: real, k: int)
    requires forall x :: x in rows ==> |x| == heights
    requires 0 <= k < |MeanSpeeds(rows, heights, minSpeed)|
    ensures MeanSpeeds(rows, heights, minSpeed)[k] > minSpeed
  {
    var kept := RetainedRows(rows, minSpeed);
    assert forall i :: 0 <= i < |kept| ==> kept[i] in kept && kept[i] in rows;
    var col := Column(kept, k, minSpeed);
    forall i | 0 <= i < |col| ensures minSpeed < col[i] {
      assert Retained(kept[i], minSpeed);
    }
    MeanStrictlyAbove(col, minSpeed);
  }

  /** The means are taken over exactly the retained readings: one mean per height as
      soon as one reading is retained. */
  lemma MeanSpeedsCount(rows: seq<Reading>, heights: nat, minSpeed: real)
    requires forall x :: x in rows ==> |x| == heights
    ensures |MeanSpeeds(rows, heights, minSpeed)| == if (exists x :: x in rows && Retained(x, minSpeed)) then heights else 0
  {
    var kept := RetainedRows(rows, minSpeed);
    if kept != [] {
      assert kept[0] in kept;
    }
  }

  // ---------------------------------------------------------------------------
  // The Average branch of `_apply`

  /** The `Average` branch of `_apply` as written, with the warning it issues when a
      direction series is supplied. The power law passes `height` as the height to
      scale to (shear.py line 748); the log law scales to `height_to_scale_to`. */
  function AverageApply(sh: AverageShear, wspds: Series, wdir: Option<Series>, height: real, heightTo: real,
                        lnHeight: real, lnHeightTo: real, pow: (real, real) -> real): (r: (Result<Series, PyError>, bool))
    ensures r.1 <==> wdir.Some?
    ensures r.0.Err? <==> sh.AveragePower? && height == 0.0
    ensures r.0.Ok? ==> |r.0.value| == |wspds| && forall i :: 0 <= i < |wspds| ==> r.0.value[i].t == wspds[i].t
  {
    var result := match sh
      case AveragePower(alpha) => PowerScale(wspds, height, height, Some(alpha), pow)
      case AverageLog(slope, c) => Ok(LogScaleSeries(wspds, lnHeight, lnHeightTo, Some(slope), Some(c)));
    (result, wdir.Some?)
  }

  /** As written, the power-law branch returns the speeds unchanged whatever height they
      are to be scaled to (as long as `1 ** alpha == 1`). */
  lemma AverageIgnoresTargetHeight(alpha: real, wspds: Series, wdir: Option<Series>, height: real, heightTo: real,
                                   lnHeight: real, lnHeightTo: real, pow: (real, real) -> real)
    requires height != 0.0 && pow(1.0, alpha) == 1.0
    ensures AverageApply(AveragePower(alpha), wspds, wdir, height, heightTo, lnHeight, lnHeightTo, pow).0 == Ok(wspds)
  {
    PowerScaleSameHeight(wspds, height, alpha, pow);
  }

  /** The evident intent: scale to `height_to_scale_to` with the law's own factor. */
  function AverageApplyCorrected(sh: AverageShear, wspds: Series, wdir: Option<Series>, height: real, heightTo: real,
                                 lnHeight: real, lnHeightTo: real, pow: (real, real) -> real): (r: (Result<Series, PyError>, bool))
    ensures r.1 <==> wdir.Some?
    ensures r.0.Err? <==> sh.AveragePower? && height == 0.0
  {
    var result := match sh
      case AveragePower(alpha) => PowerScale(wspds, height, heightTo, Some(alpha), pow)
      case AverageLog(slope, c) => Ok(LogScaleSeries(wspds, lnHeight, lnHeightTo, Some(slope), Some(c)));
    (result, wdir.Some?)
  }

  /** Corrected, every speed is multiplied by `(height_to_scale_to / height) ** alpha`. */
  lemma AverageCorrectedScalesToTarget(alpha: real, wspds: Series, wdir: Option<Series>, height: real, heightTo: real,
                                       lnHeight: real, lnHeightTo: real, pow: (real, real) -> real, i: int)
    requires height != 0.0 && 0 <= i < |wspds| && wspds[i].v.Some?
    ensures var r := AverageApplyCorrected(AveragePower(alpha), wspds, wdir, height, heightTo, lnHeight, lnHeightTo, pow).0;
      r.Ok? && |r.value| == |wspds| && r.value[i].t == wspds[i].t && r.value[i].v.Some?
      && r.value[i].v.value == wspds[i].v.value * pow(heightTo / height, alpha)
  {
    var c := pow(heightTo / height, alpha);
    assert PowerFactor(height, heightTo, Some(alpha), pow) == Ok(Some(c));
    var r := PowerScale(wspds, height, heightTo, Some(alpha), pow).value;
    assert r[i].v.value == wspds[i].v.value * c;
  }
}
