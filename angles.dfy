/** Direction arithmetic: reduction into [0, 360) and the veer (signed direction
    difference) of `SpeedSort._get_veer`. */
module Angles {
  import opened Wrappers

  /** `d` is a whole number of turns. */
  predicate WholeTurns(d: real) {
    (d / 360.0).Floor as real == d / 360.0
  }

  /** Reduction of an angle into [0, 360). This stands for `utils._range_0_to_360`,
      which is not part of this model; it is assumed to return the representative
      of its argument modulo 360 in that range. */
  function Wrap360(x: real): (r: real)
    ensures 0.0 <= r < 360.0
    ensures WholeTurns(x - r)
  {
    var k := (x / 360.0).Floor;
    assert k as real <= x / 360.0 < k as real + 1.0;
    var r := x - 360.0 * k as real;
    assert (x - r) / 360.0 == k as real;
    r
  }

  /** NaN-propagating lift of `Wrap360`. */
  function WrapOpt(x: Option<real>): (r: Option<real>)
    ensures r.Some? <==> x.Some?
    ensures r.Some? ==> 0.0 <= r.value < 360.0
  {
    if x.Some? then Some(Wrap360(x.value)) else None
  }

  /** `change_range`: folds a difference by at most one turn. */
  function ChangeRange(v: real): real {
    if v > 180.0 then v - 360.0
    else if v < -180.0 then v + 360.0
    else v
  }

  /** Target minus reference direction, folded; NaN in either gives NaN. */
  function Veer(refDir: Option<real>, tarDir: Option<real>): (r: Option<real>)
    ensures r.Some? <==> refDir.Some? && tarDir.Some?
  {
    if refDir.Some? && tarDir.Some? then Some(ChangeRange(tarDir.value - refDir.value)) else None
  }

  /** For directions in [0, 360), the veer lies in [-180, 180] and differs from the
      plain difference by a whole number of turns. */
  lemma VeerInRange(refDir: real, tarDir: real)
    requires 0.0 <= refDir < 360.0 && 0.0 <= tarDir < 360.0
    ensures -180.0 <= Veer(Some(refDir), Some(tarDir)).value <= 180.0
    ensures Veer(Some(refDir), Some(tarDir)).value - (tarDir - refDir) in {-360.0, 0.0, 360.0}
  {
  }

  /** Both ends of [-180, 180] are reached: the fold leaves 180 and -180 alone. */
  lemma VeerReachesBothEnds()
    ensures Veer(Some(0.0), Some(180.0)) == Some(180.0)
    ensures Veer(Some(180.0), Some(0.0)) == Some(-180.0)
  {
  }

  /** The veer is antisymmetric except at the half-turn, which maps to itself twice. */
  lemma VeerAntisymmetric(refDir: real, tarDir: real)
    requires 0.0 <= refDir < 360.0 && 0.0 <= tarDir < 360.0
    requires tarDir - refDir != 180.0 && tarDir - refDir != -180.0
    ensures Veer(Some(tarDir), Some(refDir)).value == -Veer(Some(refDir), Some(tarDir)).value
  {
  }
}
