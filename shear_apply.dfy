/** `_apply`, which scales a speed series with whichever kind of shear object it is
    given, and the `apply` methods of the three shear classes that call it. */
module ShearApply {
  import opened Wrappers
  import opened Errors
  import opened TimeSeries
  import opened ShearScale
  import opened ShearTimeOfDay
  import opened ShearAverage
  import opened ShearBySector

  /** A shear object, by its `origin`, with the fitted values `_apply` reads from it. */
  datatype Shear =
    | TimeOfDayShear(fit: TimeOfDayFit)
    | AverageShearObject(avg: AverageShear)
    | BySectorShear(calcMethod: CalcMethod, sectors: nat, alpha: seq<SectorAlpha>)

  /** The fitted time-of-day frames have a label per row and rows of equal width. */
  ghost predicate WellFormed(sh: Shear) {
    sh.TimeOfDayShear? ==> FitRectangular(sh.fit)
  }

  /** `_apply`: the branch for the object's origin; the second result is whether the
      warning about an unused direction series is issued. */
  method Apply(sh: Shear, wspds: Series, wdir: Option<Series>, sc: Scaling, clock: int -> int, month: int -> int)
    returns (r: Result<Series, PyError>, warned: bool)
    requires WellFormed(sh)
    ensures warned <==> sh.AverageShearObject? && wdir.Some?
    ensures sh.TimeOfDayShear? ==> r == TimeOfDayResult(sh.fit, wspds, sc, clock, month)
    ensures sh.BySectorShear? ==>
      r == BySectorResult(wspds, wdir, sc.height, sc.heightTo, sh.calcMethod, sh.sectors, sh.alpha, sc.pow)
    ensures sh.AverageShearObject? ==>
      r == AverageApply(sh.avg, wspds, wdir, sc.height, sc.heightTo, sc.lnHeight, sc.lnHeightTo, sc.pow).0
  {
    match sh {
      case TimeOfDayShear(fit) =>
        r := ApplyTimeOfDay(fit, wspds, sc, clock, month);
        warned := false;
      case BySectorShear(m, sectors, alpha) =>
        r := ApplyBySector(wspds, wdir, sc.height, sc.heightTo, m, sectors, alpha, sc.pow);
        warned := false;
      case AverageShearObject(avg) =>
        var res := AverageApply(avg, wspds, wdir, sc.height, sc.heightTo, sc.lnHeight, sc.lnHeightTo, sc.pow);
        r, warned := res.0, res.1;
    }
  }

  /** The classes' `apply` methods: only `BySector.apply` takes a direction series and
      passes it on, so no object's `apply` ever issues the unused-direction warning and
      a direction series reaches only the by-sector branch. */
  method ApplyObject(sh: Shear, wspds: Series, wdir: Series, sc: Scaling, clock: int -> int, month: int -> int)
    returns (r: Result<Series, PyError>, warned: bool)
    requires WellFormed(sh)
    ensures !warned
    ensures sh.TimeOfDayShear? ==> r == TimeOfDayResult(sh.fit, wspds, sc, clock, month)
    ensures sh.BySectorShear? ==>
      r == BySectorResult(wspds, Some(wdir), sc.height, sc.heightTo, sh.calcMethod, sh.sectors, sh.alpha, sc.pow)
    ensures sh.AverageShearObject? ==>
      r == AverageApply(sh.avg, wspds, None, sc.height, sc.heightTo, sc.lnHeight, sc.lnHeightTo, sc.pow).0
  {
    if sh.BySectorShear? {
      r, warned := Apply(sh, wspds, Some(wdir), sc, clock, month);
    } else {
      r, warned := Apply(sh, wspds, None, sc, clock, month);
    }
  }
}
