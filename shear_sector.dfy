/** The `BySector` branch of `_apply`: sector membership from the parsed bounds, the
    per-sector power-law scaling and the reassembly in time order. */
module ShearBySector {
  import opened Wrappers
  import opened Errors
  import opened Sorting
  import opened TimeSeries
  import opened Reassembly
  import opened Labels
  import opened ShearScale

  /** The three selection rules of the sector loop. */
  predicate InSector(lo: real, hi: real, d: real) {
    if lo > hi then d >= lo || d < hi
    else if hi == 360.0 then d >= lo
    else lo <= d < hi
  }

  /** Bounds as the binning produces them: after the first, strictly increasing up to at
      most 360; the first is either below the second or, for a sector that wraps past
      north, equal to the last. */
  ghost predicate WellFormedBounds(b: seq<real>) {
    |b| >= 2
    && (forall i, j :: 1 <= i < j < |b| ==> b[i] < b[j])
    && b[|b| - 1] <= 360.0
    && (b[0] < b[1] || b[0] == b[|b| - 1])
  }

  /** Two different sectors never share a direction in [0, 360). */
  lemma SectorsDisjoint(b: seq<real>, i: int, j: int, d: real)
    requires WellFormedBounds(b) && 0 <= i < j < |b| - 1 && 0.0 <= d < 360.0
    ensures !(InSector(b[i], b[i + 1], d) && InSector(b[j], b[j + 1], d))
  {
    var n := |b| - 1;
    assert b[1] <= b[j];
    assert b[i + 1] <= b[j];
    assert b[j + 1] <= b[n];
  }

  /** A north-wrapping layout of two or more sectors, or one running from at most 0 up
      to 360, leaves no direction in [0, 360) without a sector. */
  lemma SectorsCover(b: seq<real>, d: real)
    requires WellFormedBounds(b) && 0.0 <= d < 360.0
    requires (b[0] == b[|b| - 1] && |b| >= 3) || (b[0] <= 0.0 && b[|b| - 1] == 360.0)
    ensures exists i :: 0 <= i < |b| - 1 && InSector(b[i], b[i + 1], d)
  {
    var n := |b| - 1;
    if !InSector(b[0], b[1], d) {
      if b[0] == b[n] && n >= 2 {
        assert b[1] < b[n];
        assert b[1] <= d < b[n];
      } else {
        assert b[0] < b[1] && b[1] != 360.0;
        assert b[1] <= d;
      }
      var k := LastBoundBelow(b, d, 1);
      assert b[k] < b[k + 1];
      assert InSector(b[k], b[k + 1], d);
    }
  }

  /** The largest index `k` in [lo, n) with `b[k] <= d`. */
  function LastBoundBelow(b: seq<real>, d: real, lo: int): (k: int)
    requires |b| >= 2 && 1 <= lo < |b| - 1 && b[lo] <= d
    ensures lo <= k < |b| - 1 && b[k] <= d && (k + 1 == |b| - 1 || d < b[k + 1])
    decreases |b| - lo
  {
    if lo + 1 == |b| - 1 || d < b[lo + 1] then lo else LastBoundBelow(b, d, lo + 1)
  }

  /** The first sector, from `i` on, whose rule selects `d`. */
  function FirstSector(b: seq<real>, d: real, i: nat): (r: Option<int>)
    ensures r.Some? ==> i <= r.value < |b| - 1 && InSector(b[r.value], b[r.value + 1], d)
    ensures r.Some? ==> forall k :: i <= k < r.value ==> !InSector(b[k], b[k + 1], d)
    ensures r.None? ==> forall k :: i <= k < |b| - 1 ==> !InSector(b[k], b[k + 1], d)
    decreases |b| - i
  {
    if i + 1 >= |b| then None
    else if InSector(b[i], b[i + 1], d) then Some(i)
    else FirstSector(b, d, i + 1)
  }

  /** A fitted exponent with the label of its direction bin, as in `Shear.BySector.alpha`. */
  type SectorAlpha = (string, Option<real>)

  function AlphaLabels(alpha: seq<SectorAlpha>): (r: seq<string>)
    ensures |r| == |alpha| && forall i :: 0 <= i < |alpha| ==> r[i] == alpha[i].0
  {
    seq(|alpha|, i requires 0 <= i < |alpha| => alpha[i].0)
  }

  /** The mask of sector `i` on the joined speed/direction rows: rows whose direction is
      NaN are in no sector. */
  predicate SectorSelects(b: seq<real>, i: int, row: Joined) {
    row.y.Some? && 0 <= i < |b| - 1 && InSector(b[i], b[i + 1], row.y.value)
  }

  function Selects(b: seq<real>): (int, Joined) -> bool {
    (i: int, row: Joined) => SectorSelects(b, i, row)
  }

  /** The power-law factor of sector `i`. */
  function SectorFactor(alpha: seq<SectorAlpha>, height: real, heightTo: real, pow: (real, real) -> real, i: int): Option<real> {
    if 0 <= i < |alpha| && height != 0.0 && alpha[i].1.Some? then Some(pow(heightTo / height, alpha[i].1.value))
    else None
  }

  /** The scaled speed of a row of sector `i`. */
  function ScaledRow(alpha: seq<SectorAlpha>, height: real, heightTo: real, pow: (real, real) -> real): (int, Joined) -> Obs {
    (i: int, row: Joined) => Obs(row.t, Times(row.x, SectorFactor(alpha, height, heightTo, pow, i)))
  }

  /** What the `BySector` branch of `_apply` returns: `ValueError` without directions,
      `IndexError` on unreadable labels, the scaling errors, `KeyError` when there are
      no sectors at all, and otherwise the scaled selections of all sectors sorted by
      time. The log law has no slope or intercept here, so it fails with `TypeError`
      as soon as any row is selected. */
  function BySectorResult(wspds: Series, wdir: Option<Series>, height: real, heightTo: real, m: CalcMethod,
                          sectors: nat, alpha: seq<SectorAlpha>, pow: (real, real) -> real): (r: Result<Series, PyError>)
    ensures r == Err(ValueError) <==> wdir.None?
  {
    if wdir.None? then Err(ValueError)
    else
      var b := SectorBounds(AlphaLabels(alpha), sectors);
      if b.Err? then Err(b.error)
      else
        var parts := Parts(OuterJoin(wspds, wdir.value), 0, sectors, Selects(b.value), ScaledRow(alpha, height, heightTo, pow));
        if m == PowerLaw && sectors > 0 && height == 0.0 then Err(ZeroDivisionError)
        else if m == LogLaw && parts != [] then Err(TypeError)
        else if sectors == 0 then Err(KeyError)
        else Ok(SortBy(parts, Time))
  }

  /** The `BySector` branch of `_apply`: join speeds and directions, read the bounds,
      select, scale and append sector by sector, then sort by time. */
  method ApplyBySector(wspds: Series, wdir: Option<Series>, height: real, heightTo: real, m: CalcMethod,
                       sectors: nat, alpha: seq<SectorAlpha>, pow: (real, real) -> real) returns (r: Result<Series, PyError>)
    ensures r == BySectorResult(wspds, wdir, height, heightTo, m, sectors, alpha, pow)
  {
    if wdir.None? {
      return Err(ValueError);
    }
    var df := OuterJoin(wspds, wdir.value);
    var b := ReadSectorBounds(AlphaLabels(alpha), sectors);
    if b.Err? {
      return Err(b.error);
    }
    var bounds := b.value;
    var sel := Selects(bounds);
    var scale := ScaledRow(alpha, height, heightTo, pow);
    var result: Series := [];
    for i := 0 to sectors
      invariant result == Parts(df, 0, i, sel, scale)
      invariant m == LogLaw ==> result == []
      invariant m == PowerLaw && i > 0 ==> height != 0.0
    {
      var scaled := Part(df, i, sel, scale);
      if m == PowerLaw {
        var factor := PowerFactor(height, heightTo, alpha[i].1, pow);
        if factor.Err? {
          return Err(factor.error);
        }
      } else if scaled != [] {
        PartsPrefix(df, 0, i + 1, sectors, sel, scale);
        return Err(TypeError);
      }
      result := result + scaled;
    }
    if sectors == 0 {
      return Err(KeyError);
    }
    return Ok(SortBy(result, Time));
  }

  lemma BySectorOkValue(wspds: Series, wdir: Series, height: real, heightTo: real, m: CalcMethod,
                        sectors: nat, alpha: seq<SectorAlpha>, pow: (real, real) -> real)
    requires BySectorResult(wspds, Some(wdir), height, heightTo, m, sectors, alpha, pow).Ok?
    ensures SectorBounds(AlphaLabels(alpha), sectors).Ok?
    ensures |SectorBounds(AlphaLabels(alpha), sectors).value| == sectors + 1
    ensures BySectorResult(wspds, Some(wdir), height, heightTo, m, sectors, alpha, pow).value
      == SortBy(Parts(OuterJoin(wspds, wdir), 0, sectors, Selects(SectorBounds(AlphaLabels(alpha), sectors).value),
                      ScaledRow(alpha, height, heightTo, pow)), Time)
  {
  }

  /** Whatever the bounds, a successful result is in time order and holds each row's
      scaled speed once for every sector that selects it. */
  lemma BySectorSortedPermutation(wspds: Series, wdir: Series, height: real, heightTo: real, m: CalcMethod,
                                  sectors: nat, alpha: seq<SectorAlpha>, pow: (real, real) -> real)
    requires BySectorResult(wspds, Some(wdir), height, heightTo, m, sectors, alpha, pow).Ok?
    ensures var r := BySectorResult(wspds, Some(wdir), height, heightTo, m, sectors, alpha, pow).value;
      var b := SectorBounds(AlphaLabels(alpha), sectors).value;
      SortedBy(r, Time)
      && multiset(r) == multiset(PerRow(OuterJoin(wspds, wdir), 0, sectors, Selects(b), ScaledRow(alpha, height, heightTo, pow)))
  {
    var b := SectorBounds(AlphaLabels(alpha), sectors).value;
    BySectorOkValue(wspds, wdir, height, heightTo, m, sectors, alpha, pow);
    SortedPartsArePermutation(OuterJoin(wspds, wdir), 0, sectors, Selects(b), ScaledRow(alpha, height, heightTo, pow), Time);
  }

  /** The sector of a joined row: the first whose rule selects its direction. */
  function SectorOfRow(b: seq<real>, row: Joined): Option<int> {
    if row.y.Some? then FirstSector(b, row.y.value, 0) else None
  }

  function RowSector(b: seq<real>): Joined -> Option<int> {
    (row: Joined) => SectorOfRow(b, row)
  }

  /** With well-formed bounds and directions in [0, 360), the result is the joined rows in
      time order, each row whose direction falls in a sector scaled by that sector's
      exponent, and the others dropped. */
  lemma BySectorScalesEachRowOnce(wspds: Series, wdir: Series, height: real, heightTo: real,
                                  sectors: nat, alpha: seq<SectorAlpha>, pow: (real, real) -> real)
    requires Ordered(wspds) && Ordered(wdir)
    requires forall i :: 0 <= i < |wdir| && wdir[i].v.Some? ==> 0.0 <= wdir[i].v.value < 360.0
    requires BySectorResult(wspds, Some(wdir), height, heightTo, PowerLaw, sectors, alpha, pow).Ok?
    requires WellFormedBounds(SectorBounds(AlphaLabels(alpha), sectors).value)
    ensures var b := SectorBounds(AlphaLabels(alpha), sectors).value;
      BySectorResult(wspds, Some(wdir), height, heightTo, PowerLaw, sectors, alpha, pow).value
        == Assigned(OuterJoin(wspds, wdir), RowSector(b), ScaledRow(alpha, height, heightTo, pow))
  {
    var b := SectorBounds(AlphaLabels(alpha), sectors).value;
    var df := OuterJoin(wspds, wdir);
    BySectorOkValue(wspds, wdir, height, heightTo, PowerLaw, sectors, alpha, pow);
    JoinedDirectionsInRange(wspds, wdir);
    RowSectorIsGroup(b, df);
    OuterJoinCorrect(wspds, wdir);
    assert StrictlySortedBy(df, (j: Joined) => j.t as real);
    SortedPartsAreAssigned(df, 0, sectors, Selects(b), ScaledRow(alpha, height, heightTo, pow),
                           RowSector(b), (j: Joined) => j.t as real, Time);
  }

  lemma JoinedDirectionsInRange(wspds: Series, wdir: Series)
    requires Ordered(wspds) && Ordered(wdir)
    requires forall i :: 0 <= i < |wdir| && wdir[i].v.Some? ==> 0.0 <= wdir[i].v.value < 360.0
    ensures forall x :: x in OuterJoin(wspds, wdir) && x.y.Some? ==> 0.0 <= x.y.value < 360.0
  {
    var df := OuterJoin(wspds, wdir);
    OuterJoinCorrect(wspds, wdir);
    forall x | x in df && x.y.Some? ensures 0.0 <= x.y.value < 360.0 {
      var k :| 0 <= k < |df| && df[k] == x;
      assert x.y == ValueAt(wdir, x.t);
      DirectionInRange(wdir, x.t);
    }
  }

  lemma RowSectorUnique(b: seq<real>, x: Joined, g: int)
    requires WellFormedBounds(b) && 0 <= g < |b| - 1
    requires x.y.Some? ==> 0.0 <= x.y.value < 360.0
    ensures SectorSelects(b, g, x) <==> SectorOfRow(b, x) == Some(g)
  {
    if SectorSelects(b, g, x) {
      var k := FirstSector(b, x.y.value, 0);
      if k.value != g {
        SectorsDisjoint(b, k.value, g, x.y.value);
      }
    }
  }

  /** Under well-formed bounds each row with a direction in [0, 360) is selected by
      exactly the sector `RowSector` names. */
  lemma RowSectorIsGroup(b: seq<real>, df: seq<Joined>)
    requires WellFormedBounds(b)
    requires forall x :: x in df && x.y.Some? ==> 0.0 <= x.y.value < 360.0
    ensures GroupOf(df, 0, |b| - 1, Selects(b), RowSector(b))
    ensures GroupsInRange(df, 0, |b| - 1, RowSector(b))
  {
    forall x, g | x in df && 0 <= g < |b| - 1
      ensures Selects(b)(g, x) <==> RowSector(b)(x) == Some(g)
    {
      RowSectorUnique(b, x, g);
    }
  }

  lemma {:induction false} DirectionInRange(s: Series, t: int)
    requires forall i :: 0 <= i < |s| && s[i].v.Some? ==> 0.0 <= s[i].v.value < 360.0
    requires ValueAt(s, t).Some?
    ensures 0.0 <= ValueAt(s, t).value < 360.0
  {
    if s[0].t != t {
      forall i | 0 <= i < |s[1..]| && s[1..][i].v.Some? ensures 0.0 <= s[1..][i].v.value < 360.0 {
        assert s[1..][i] == s[i + 1];
      }
      DirectionInRange(s[1..], t);
    }
  }
}
