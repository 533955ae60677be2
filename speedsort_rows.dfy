/** The frame SpeedSort works on and the row-level steps of its constructor
    (`_randomize_calm_periods`, `_get_overall_veer`, `_adjust_low_reference_speed_dir`,
    the direction binning), of `run` (`_avg_veer`, the per-sector fits) and of
    `_predict`, `_predict_dir` and `synthesize`. */
module SpeedSortRows {
  import opened Wrappers
  import opened Errors
  import opened Sorting
  import opened TimeSeries
  import opened Stats
  import opened Angles
  import opened Reassembly
  import opened SpeedSortFit

  /** A row of the merged, averaged frame: reference speed and direction, target speed
      and direction, each possibly NaN. */
  datatype Row = Row(t: int, refSpd: Option<real>, refDir: Option<real>, tarSpd: Option<real>, tarDir: Option<real>)

  /** `v < c`; a NaN compares false. */
  predicate Below(v: Option<real>, c: real) {
    v.Some? && v.value < c
  }

  /** `v >= c`; false when either side is NaN. */
  predicate AtLeast(v: Option<real>, c: Option<real>) {
    v.Some? && c.Some? && v.value >= c.value
  }

  /** A direction that is NaN or lies in [0, 360). */
  predicate InTurn(v: Option<real>) {
    v.Some? ==> 0.0 <= v.value < 360.0
  }

  ghost predicate DirsInTurn(rows: seq<Row>) {
    forall i :: 0 <= i < |rows| ==> InTurn(rows[i].refDir) && InTurn(rows[i].tarDir)
  }

  function RefSpdOf(x: Row): Option<real> { x.refSpd }
  function TarSpdOf(x: Row): Option<real> { x.tarSpd }

  /** The non-NaN values of one column, in row order: what `mean` averages. */
  function Present(rows: seq<Row>, col: Row -> Option<real>): (r: seq<real>)
    ensures |r| <= |rows|
  {
    if rows == [] then []
    else (if col(rows[0]).Some? then [col(rows[0]).value] else []) + Present(rows[1..], col)
  }

  // ---------------------------------------------------------------------------
  // _randomize_calm_periods

  /** One row of `_randomize_calm_periods`, with the row's two uniform draws. */
  function CalmRow(x: Row, u: real, w: real): Row {
    x.(refDir := if Below(x.refSpd, 1.0) then Some(360.0 * u) else x.refDir,
       tarDir := if Below(x.tarSpd, 1.0) then Some(360.0 * w) else x.tarDir)
  }

  /** `_randomize_calm_periods` with the draws `uRef[i]`, `uTar[i]` in [0, 1) of row `i`:
      only directions of rows whose own speed is below 1 change, and they become
      directions in [0, 360); no other row or column changes. */
  function RandomizedCalm(rows: seq<Row>, uRef: seq<real>, uTar: seq<real>): (r: seq<Row>)
    requires |uRef| == |rows| && |uTar| == |rows|
    requires forall i :: 0 <= i < |rows| ==> 0.0 <= uRef[i] < 1.0 && 0.0 <= uTar[i] < 1.0
    ensures |r| == |rows|
    ensures forall i :: 0 <= i < |rows| ==>
      r[i].t == rows[i].t && r[i].refSpd == rows[i].refSpd && r[i].tarSpd == rows[i].tarSpd
    ensures forall i :: 0 <= i < |rows| ==>
      if Below(rows[i].refSpd, 1.0) then r[i].refDir.Some? && 0.0 <= r[i].refDir.value < 360.0
      else r[i].refDir == rows[i].refDir
    ensures forall i :: 0 <= i < |rows| ==>
      if Below(rows[i].tarSpd, 1.0) then r[i].tarDir.Some? && 0.0 <= r[i].tarDir.value < 360.0
      else r[i].tarDir == rows[i].tarDir
    ensures DirsInTurn(rows) ==> DirsInTurn(r)
  {
    seq(|rows|, i requires 0 <= i < |rows| => CalmRow(rows[i], uRef[i], uTar[i]))
  }

  // ---------------------------------------------------------------------------
  // _get_overall_veer and _avg_veer

  /** The rows the veer averages use: both speeds at least their veer cutoffs. */
  predicate ForVeer(x: Row, refVeerCutoff: Option<real>, tarVeerCutoff: Option<real>) {
    AtLeast(x.refSpd, refVeerCutoff) && AtLeast(x.tarSpd, tarVeerCutoff)
  }

  /** The non-NaN veers of the selected rows, in row order. */
  function VeersOf(rows: seq<Row>, refVeerCutoff: Option<real>, tarVeerCutoff: Option<real>): (r: seq<real>)
    ensures |r| <= |rows|
  {
    if rows == [] then []
    else
      var v := Veer(rows[0].refDir, rows[0].tarDir);
      (if ForVeer(rows[0], refVeerCutoff, tarVeerCutoff) && v.Some? then [v.value] else [])
      + VeersOf(rows[1..], refVeerCutoff, tarVeerCutoff)
  }

  /** Every averaged veer lies in [-180, 180] when the directions are in [0, 360). */
  lemma {:induction false} VeersInRange(rows: seq<Row>, refVeerCutoff: Option<real>, tarVeerCutoff: Option<real>)
    requires DirsInTurn(rows)
    ensures forall k :: 0 <= k < |VeersOf(rows, refVeerCutoff, tarVeerCutoff)| ==>
      -180.0 <= VeersOf(rows, refVeerCutoff, tarVeerCutoff)[k] <= 180.0
  {
    if rows != [] {
      var x := rows[0];
      var head := if ForVeer(x, refVeerCutoff, tarVeerCutoff) && Veer(x.refDir, x.tarDir).Some? then [Veer(x.refDir, x.tarDir).value] else [];
      var rest := VeersOf(rows[1..], refVeerCutoff, tarVeerCutoff);
      assert DirsInTurn(rows[1..]) by {
        forall i | 0 <= i < |rows[1..]| ensures InTurn(rows[1..][i].refDir) && InTurn(rows[1..][i].tarDir) {
          assert rows[1..][i] == rows[i + 1];
        }
      }
      VeersInRange(rows[1..], refVeerCutoff, tarVeerCutoff);
      if head != [] {
        assert InTurn(x.refDir) && InTurn(x.tarDir);
        VeerInRange(x.refDir.value, x.tarDir.value);
      }
      assert VeersOf(rows, refVeerCutoff, tarVeerCutoff) == head + rest;
    }
  }

  /** `_get_overall_veer`: the mean veer of the rows with both speeds at least their
      veer cutoffs, NaN when there is none. */
  function OverallVeer(rows: seq<Row>, refVeerCutoff: Option<real>, tarVeerCutoff: Option<real>): (r: Option<real>)
    ensures r.Some? <==> VeersOf(rows, refVeerCutoff, tarVeerCutoff) != []
  {
    Mean(VeersOf(rows, refVeerCutoff, tarVeerCutoff))
  }

  /** With directions in [0, 360) the overall veer lies in [-180, 180]. */
  lemma OverallVeerInRange(rows: seq<Row>, refVeerCutoff: Option<real>, tarVeerCutoff: Option<real>)
    requires DirsInTurn(rows)
    ensures OverallVeer(rows, refVeerCutoff, tarVeerCutoff).Some? ==>
      -180.0 <= OverallVeer(rows, refVeerCutoff, tarVeerCutoff).value <= 180.0
  {
    var vs := VeersOf(rows, refVeerCutoff, tarVeerCutoff);
    if vs != [] {
      VeersInRange(rows, refVeerCutoff, tarVeerCutoff);
      MeanBounds(vs, -180.0, 180.0);
    }
  }

  // ---------------------------------------------------------------------------
  // _adjust_low_reference_speed_dir

  /** The rows the correction rewrites: reference speed below 2 and target speed more
      than 4 above it. */
  predicate LowReference(x: Row) {
    x.refSpd.Some? && x.tarSpd.Some? && x.refSpd.value < 2.0 && x.tarSpd.value > x.refSpd.value + 4.0
  }

  /** NaN-propagating difference. */
  function Minus(a: Option<real>, b: Option<real>): (r: Option<real>)
    ensures r.Some? <==> a.Some? && b.Some?
  {
    if a.Some? && b.Some? then Some(a.value - b.value) else None
  }

  /** `_adjust_low_reference_speed_dir`: the rewritten rows get the reference direction
      `tar_dir - overall_veer` reduced into [0, 360) (NaN if either is NaN); every other
      row, and every other column, is unchanged. */
  function AdjustedLowReference(rows: seq<Row>, overallVeer: Option<real>): (r: seq<Row>)
    ensures |r| == |rows|
    ensures forall i :: 0 <= i < |rows| ==> r[i] == rows[i].(refDir := r[i].refDir)
    ensures forall i :: 0 <= i < |rows| && !LowReference(rows[i]) ==> r[i] == rows[i]
    ensures forall i :: 0 <= i < |rows| && LowReference(rows[i]) ==>
      && (r[i].refDir.Some? <==> rows[i].tarDir.Some? && overallVeer.Some?)
      && (r[i].refDir.Some? ==>
            0.0 <= r[i].refDir.value < 360.0
            && WholeTurns(rows[i].tarDir.value - overallVeer.value - r[i].refDir.value))
    ensures DirsInTurn(rows) ==> DirsInTurn(r)
  {
    seq(|rows|, i requires 0 <= i < |rows| => AdjustedRow(rows[i], overallVeer))
  }

  /** One row of `_adjust_low_reference_speed_dir`. */
  function AdjustedRow(x: Row, overallVeer: Option<real>): Row {
    if LowReference(x) then x.(refDir := WrapOpt(Minus(x.tarDir, overallVeer))) else x
  }

  // ---------------------------------------------------------------------------
  // Binning by reference direction, concat and dropna

  /** A row after the direction bins are joined and NaN rows dropped. */
  datatype BinnedRow = BinnedRow(t: int, refSpd: real, refDir: real, tarSpd: real, tarDir: real, bin: int)

  /** `_binned_direction_series` is not part of this model; a binning is a function that
      gives a direction its sector number, or NaN, and is assumed to give numbers in
      1..n only. */
  ghost predicate BinsInRange(bin: real -> Option<int>, n: int) {
    forall d :: bin(d).Some? ==> 1 <= bin(d).value <= n
  }

  /** A row that survives `dropna`: every value and the bin are present. */
  predicate Complete(x: Row, binDir: real -> Option<int>) {
    x.refSpd.Some? && x.refDir.Some? && x.tarSpd.Some? && x.tarDir.Some? && binDir(x.refDir.value).Some?
  }

  function BinnedOf(x: Row, binDir: real -> Option<int>): BinnedRow
    requires Complete(x, binDir)
  {
    BinnedRow(x.t, x.refSpd.value, x.refDir.value, x.tarSpd.value, x.tarDir.value, binDir(x.refDir.value).value)
  }

  /** `pd.concat([data, bins], axis=1, join='inner').dropna()`: exactly the complete
      rows, in order, each with the bin of its reference direction. */
  function BinRows(rows: seq<Row>, binDir: real -> Option<int>): (r: seq<BinnedRow>)
    ensures |r| <= |rows|
    ensures forall b :: b in r <==> exists x :: x in rows && Complete(x, binDir) && b == BinnedOf(x, binDir)
  {
    if rows == [] then []
    else
      var rest := BinRows(rows[1..], binDir);
      assert forall x :: x in rows <==> x == rows[0] || x in rows[1..];
      if Complete(rows[0], binDir) then [BinnedOf(rows[0], binDir)] + rest else rest
  }

  /** With an in-range binning every kept row has a sector in 1..n. */
  lemma BinRowsInRange(rows: seq<Row>, binDir: real -> Option<int>, n: int)
    requires BinsInRange(binDir, n)
    ensures forall b :: b in BinRows(rows, binDir) ==> 1 <= b.bin <= n
  {
    forall b | b in BinRows(rows, binDir) ensures 1 <= b.bin <= n {
      var x :| x in rows && Complete(x, binDir) && b == BinnedOf(x, binDir);
      assert binDir(x.refDir.value).Some?;
    }
  }

  // ---------------------------------------------------------------------------
  // run: groups, fits and parameters

  /** The `groupby` group of sector `b`, in row order. */
  function Group(rows: seq<BinnedRow>, b: int): (r: seq<BinnedRow>)
    ensures forall x :: x in r <==> x in rows && x.bin == b
    ensures |r| <= |rows|
  {
    if rows == [] then []
    else
      var rest := Group(rows[1..], b);
      assert forall x :: x in rows <==> x == rows[0] || x in rows[1..];
      if rows[0].bin == b then [rows[0]] + rest else rest
  }

  function RefSpeeds(g: seq<BinnedRow>): (r: seq<real>)
    ensures |r| == |g| && forall i :: 0 <= i < |g| ==> r[i] == g[i].refSpd
  {
    seq(|g|, i requires 0 <= i < |g| => g[i].refSpd)
  }

  function TarSpeeds(g: seq<BinnedRow>): (r: seq<real>)
    ensures |r| == |g| && forall i :: 0 <= i < |g| ==> r[i] == g[i].tarSpd
  {
    seq(|g|, i requires 0 <= i < |g| => g[i].tarSpd)
  }

  function Unbinned(x: BinnedRow): Row {
    Row(x.t, Some(x.refSpd), Some(x.refDir), Some(x.tarSpd), Some(x.tarDir))
  }

  function UnbinnedRows(g: seq<BinnedRow>): (r: seq<Row>)
    ensures |r| == |g| && forall i :: 0 <= i < |g| ==> r[i] == Unbinned(g[i])
  {
    seq(|g|, i requires 0 <= i < |g| => Unbinned(g[i]))
  }

  /** `num_pts_for_veer`: the number of the group's rows `_avg_veer` keeps. */
  function CountForVeer(g: seq<BinnedRow>, refVeerCutoff: Option<real>, tarVeerCutoff: Option<real>): (r: nat)
    ensures r <= |g|
  {
    if g == [] then 0
    else (if ForVeer(Unbinned(g[0]), refVeerCutoff, tarVeerCutoff) then 1 else 0)
         + CountForVeer(g[1..], refVeerCutoff, tarVeerCutoff)
  }

  /** Binned rows have both directions, so `average_veer` averages exactly
      `num_pts_for_veer` veers. */
  lemma {:induction false} AvgVeerCount(g: seq<BinnedRow>, refVeerCutoff: Option<real>, tarVeerCutoff: Option<real>)
    ensures |VeersOf(UnbinnedRows(g), refVeerCutoff, tarVeerCutoff)| == CountForVeer(g, refVeerCutoff, tarVeerCutoff)
  {
    if g != [] {
      assert UnbinnedRows(g)[1..] == UnbinnedRows(g[1..]);
      AvgVeerCount(g[1..], refVeerCutoff, tarVeerCutoff);
    }
  }

  /** The sector model `SectorSpeedModel` builds from a non-empty group. */
  function FittedModel(g: seq<BinnedRow>, cutoff: real): SectorModel
    requires g != []
  {
    SectorFitDefined(RefSpeeds(g), TarSpeeds(g), cutoff);
    SectorFit(RefSpeeds(g), TarSpeeds(g), cutoff).value
  }

  /** A non-empty group always has a fit, and every kept pair counts as a data point. */
  lemma FittedModelFits(g: seq<BinnedRow>, cutoff: real)
    requires g != []
    ensures Ok(FittedModel(g, cutoff)) == SectorFit(RefSpeeds(g), TarSpeeds(g), cutoff)
    ensures FittedModel(g, cutoff).dataPts == |Truncated(RefSpeeds(g), TarSpeeds(g), cutoff).0|
  {
    SectorFitDefined(RefSpeeds(g), TarSpeeds(g), cutoff);
  }

  /** The values `run` records for one sector. */
  datatype SectorParams = SectorParams(
    slope: Option<real>, offset: Option<real>, targetCutoff: real, numPtsForSpeedFit: nat,
    numTotalPts: nat, averageVeer: Option<real>, numPtsForVeer: nat)

  /** A sector's entry of `params`: the model's fit, the group size and `_avg_veer`. */
  function ParamsOf(m: SectorModel, g: seq<BinnedRow>, refVeerCutoff: Option<real>, tarVeerCutoff: Option<real>): SectorParams {
    SectorParams(m.slope, m.offset, m.targetCutoff, m.dataPts, |g|,
                 Mean(VeersOf(UnbinnedRows(g), refVeerCutoff, tarVeerCutoff)),
                 CountForVeer(g, refVeerCutoff, tarVeerCutoff))
  }

  /** The sectors `lo`, ..., `hi - 1` that have rows. */
  function SectorsWithRows(rows: seq<BinnedRow>, lo: int, hi: int): (r: set<int>)
    ensures forall b :: b in r <==> lo <= b < hi && Group(rows, b) != []
  {
    set b | lo <= b < hi && Group(rows, b) != []
  }

  /** The parameters of one sector's group. */
  function FittedParamsOf(g: seq<BinnedRow>, cutoff: real, refVeerCutoff: Option<real>, tarVeerCutoff: Option<real>): SectorParams
    requires g != []
  {
    ParamsOf(FittedModel(g, cutoff), g, refVeerCutoff, tarVeerCutoff)
  }

  /** `m` holds `f(k)` at exactly the keys `k` of `s`. */
  ghost predicate Tabulates<V>(m: map<int, V>, s: set<int>, f: int --> V) {
    m.Keys == s && forall k :: k in s ==> f.requires(k) && m[k] == f(k)
  }

  /** Adding key `b` with its value keeps a table. */
  lemma TabulatesAdd<V>(m: map<int, V>, s: set<int>, b: int, f: int --> V)
    requires Tabulates(m, s, f) && f.requires(b)
    ensures Tabulates(m[b := f(b)], s + {b}, f)
  {
  }

  /** Updating a merge is updating its right operand. */
  lemma MergeUpdate<V>(m: map<int, V>, n: map<int, V>, b: int, v: V)
    ensures (m + n)[b := v] == m + n[b := v]
  {
  }

  /** The model of every sector with rows. */
  function ModelFn(rows: seq<BinnedRow>, cutoff: real): int --> SectorModel {
    k requires Group(rows, k) != [] => FittedModel(Group(rows, k), cutoff)
  }

  /** The parameters of every sector with rows. */
  function ParamsFn(rows: seq<BinnedRow>, cutoff: real, refVeerCutoff: Option<real>, tarVeerCutoff: Option<real>): int --> SectorParams {
    k requires Group(rows, k) != [] => FittedParamsOf(Group(rows, k), cutoff, refVeerCutoff, tarVeerCutoff)
  }

  /** One more sector joins the sectors with rows when it has rows. */
  lemma SectorsWithRowsStep(rows: seq<BinnedRow>, lo: int, b: int)
    requires lo <= b
    ensures SectorsWithRows(rows, lo, b + 1)
         == if Group(rows, b) == [] then SectorsWithRows(rows, lo, b) else SectorsWithRows(rows, lo, b) + {b}
  {
  }

  /** When every row's sector is in 1..n, the sectors with rows are exactly the
      sectors that occur, as with `groupby`. */
  lemma SectorsWithRowsOccur(rows: seq<BinnedRow>, n: int)
    requires forall x :: x in rows ==> 1 <= x.bin <= n
    ensures SectorsWithRows(rows, 1, n + 1) == set x | x in rows :: x.bin
  {
    var keys := SectorsWithRows(rows, 1, n + 1);
    forall b | b in keys ensures b in set x | x in rows :: x.bin {
      var g := Group(rows, b);
      assert g[0] in g;
    }
    forall x | x in rows ensures x.bin in keys {
      assert x in Group(rows, x.bin);
    }
  }

  /** With directions in [0, 360) every sector's average veer lies in [-180, 180] and
      averages `num_pts_for_veer` points. */
  lemma SectorVeerInRange(g: seq<BinnedRow>, refVeerCutoff: Option<real>, tarVeerCutoff: Option<real>)
    requires forall i :: 0 <= i < |g| ==> 0.0 <= g[i].refDir < 360.0 && 0.0 <= g[i].tarDir < 360.0
    ensures var v := Mean(VeersOf(UnbinnedRows(g), refVeerCutoff, tarVeerCutoff));
      (v.Some? <==> CountForVeer(g, refVeerCutoff, tarVeerCutoff) > 0)
      && (v.Some? ==> -180.0 <= v.value <= 180.0)
  {
    AvgVeerCount(g, refVeerCutoff, tarVeerCutoff);
    OverallVeerInRange(UnbinnedRows(g), refVeerCutoff, tarVeerCutoff);
  }

  /** The run-wide entries of `params`. */
  datatype Summary = Summary(refCutoffForSpeed: real, refVeerCutoff: Option<real>,
                             targetVeerCutoff: Option<real>, overallAverageVeer: Option<real>)

  // ---------------------------------------------------------------------------
  // _predict

  /** A row of `_predict`'s frame: a speed and the sector of its direction. */
  datatype SpeedBin = SpeedBin(t: int, spd: real, bin: int)

  function SpeedTime(x: SpeedBin): real { x.t as real }

  /** The inner join of the speeds and directions without NaN, restricted to the rows
      whose direction has a sector: what `groupby` sees. */
  function SpeedBins(j: seq<Joined>, binDir: real -> Option<int>): (r: seq<SpeedBin>)
    ensures |r| <= |j|
    ensures forall x :: x in r ==> exists y :: y in j && BinnedFrom(y, x, binDir)
  {
    if j == [] then []
    else
      var rest := SpeedBins(j[1..], binDir);
      assert forall y :: y in j[1..] ==> y in j;
      if j[0].x.Some? && j[0].y.Some? && binDir(j[0].y.value).Some? then
        var h := SpeedBin(j[0].t, j[0].x.value, binDir(j[0].y.value).value);
        assert j[0] in j && BinnedFrom(j[0], h, binDir);
        [h] + rest
      else rest
  }

  /** A time-ordered join gives time-ordered rows. */
  lemma {:induction false} SpeedBinsSorted(j: seq<Joined>, binDir: real -> Option<int>)
    requires forall i, k :: 0 <= i < k < |j| ==> j[i].t < j[k].t
    ensures StrictlySortedBy(SpeedBins(j, binDir), SpeedTime)
  {
    if j != [] {
      assert forall i, k :: 0 <= i < k < |j[1..]| ==> j[1..][i].t < j[1..][k].t by {
        forall i, k | 0 <= i < k < |j[1..]| ensures j[1..][i].t < j[1..][k].t {
          assert j[1..][i] == j[i + 1] && j[1..][k] == j[k + 1];
        }
      }
      SpeedBinsSorted(j[1..], binDir);
      var rest := SpeedBins(j[1..], binDir);
      SpeedBinsLater(j, binDir);
      if SpeedBins(j, binDir) != rest {
        var h := SpeedBins(j, binDir)[0];
        assert SpeedBins(j, binDir) == [h] + rest;
        ConsStrictlySorted(h, rest, SpeedTime);
      }
    }
  }

  /** The rows binned from the tail of a time-ordered join come after its head. */
  lemma SpeedBinsLater(j: seq<Joined>, binDir: real -> Option<int>)
    requires j != [] && forall i, k :: 0 <= i < k < |j| ==> j[i].t < j[k].t
    ensures forall x :: x in SpeedBins(j[1..], binDir) ==> j[0].t < x.t
    ensures SpeedBins(j, binDir) != SpeedBins(j[1..], binDir) ==>
      SpeedBins(j, binDir)[0].t == j[0].t
  {
    forall x | x in SpeedBins(j[1..], binDir) ensures j[0].t < x.t {
      var y :| y in j[1..] && BinnedFrom(y, x, binDir);
      var i :| 0 <= i < |j[1..]| && j[1..][i] == y;
      assert j[i + 1] == y;
    }
  }

  /** `x` is the joined row `y` with the sector of its direction. */
  predicate BinnedFrom(y: Joined, x: SpeedBin, binDir: real -> Option<int>) {
    y.t == x.t && y.x == Some(x.spd) && y.y.Some? && binDir(y.y.value) == Some(x.bin)
  }

  /** Whether group `g` selects a row. */
  predicate SelectsBin(g: int, x: SpeedBin) {
    x.bin == g
  }

  function BinOf(x: SpeedBin): Option<int> { Some(x.bin) }

  /** A row's prediction by the model of a sector (NaN for a sector without one). */
  function PredictRow(models: map<int, SectorModel>): (int, SpeedBin) -> Obs {
    (g: int, x: SpeedBin) => Obs(x.t, if g in models then SectorValue(models[g], Some(x.spd)) else None)
  }

  /** The speeds of group `b` as the series `sector_predict` is given. */
  function GroupSpeeds(rows: seq<SpeedBin>, b: int): Series {
    Part(rows, b, SelectsBin, (g: int, x: SpeedBin) => Obs(x.t, Some(x.spd)))
  }

  /** `sector_predict` on a group's speeds is the group's part of the reassembly. */
  lemma {:induction false} GroupPrediction(rows: seq<SpeedBin>, b: int, models: map<int, SectorModel>)
    requires b in models
    ensures SectorPredict(models[b], GroupSpeeds(rows, b)) == Part(rows, b, SelectsBin, PredictRow(models))
  {
    if rows != [] {
      GroupPrediction(rows[1..], b, models);
      var x := rows[0];
      var head: Series := if SelectsBin(b, x) then [Obs(x.t, Some(x.spd))] else [];
      assert GroupSpeeds(rows, b) == head + GroupSpeeds(rows[1..], b);
      SectorPredictConcat(models[b], head, GroupSpeeds(rows[1..], b));
      assert SectorPredict(models[b], head) == if SelectsBin(b, x) then [PredictRow(models)(b, x)] else [];
    }
  }

  /** What `_predict` returns: `KeyError` when a sector that occurs has no model, and
      otherwise every sector's predictions concatenated and sorted by time. */
  function PredictResult(xSpd: Series, xDir: Series, binDir: real -> Option<int>, models: map<int, SectorModel>,
                         sectors: nat): (r: Result<Series, PyError>)
    ensures r.Err? <==> exists x :: x in SpeedBins(InnerJoin(DropNa(xSpd), DropNa(xDir)), binDir) && x.bin !in models
    ensures r.Err? ==> r.error == KeyError
  {
    var rows := SpeedBins(InnerJoin(DropNa(xSpd), DropNa(xDir)), binDir);
    if exists x :: x in rows && x.bin !in models then Err(KeyError)
    else Ok(SortBy(Parts(rows, 1, sectors + 1, SelectsBin, PredictRow(models)), Time))
  }

  /** Whether some joined row falls in sector `b`. */
  predicate Occurs(rows: seq<SpeedBin>, b: int) {
    exists x :: x in rows && x.bin == b
  }

  /** `_predict` succeeds when every sector 1..sectors that occurs has a model. */
  lemma PredictResultOk(xSpd: Series, xDir: Series, binDir: real -> Option<int>, models: map<int, SectorModel>,
                        sectors: nat)
    requires BinsInRange(binDir, sectors)
    requires forall k :: 1 <= k <= sectors && Occurs(SpeedBins(InnerJoin(DropNa(xSpd), DropNa(xDir)), binDir), k) ==> k in models
    ensures PredictResult(xSpd, xDir, binDir, models, sectors)
         == Ok(SortBy(Parts(SpeedBins(InnerJoin(DropNa(xSpd), DropNa(xDir)), binDir), 1, sectors + 1, SelectsBin, PredictRow(models)), Time))
  {
    var rows := SpeedBins(InnerJoin(DropNa(xSpd), DropNa(xDir)), binDir);
    SpeedBinsInRange(InnerJoin(DropNa(xSpd), DropNa(xDir)), binDir, sectors);
    forall x | x in rows ensures x.bin in models {
      assert Occurs(rows, x.bin);
    }
  }

  /** `_predict` raises `KeyError` when a sector that occurs has no model. */
  lemma PredictResultMissing(xSpd: Series, xDir: Series, binDir: real -> Option<int>, models: map<int, SectorModel>,
                             sectors: nat, b: int)
    requires Occurs(SpeedBins(InnerJoin(DropNa(xSpd), DropNa(xDir)), binDir), b) && b !in models
    ensures PredictResult(xSpd, xDir, binDir, models, sectors) == Err(KeyError)
  {
  }

  /** With time-indexed inputs and an in-range binning, `_predict` maps every row of the
      joined frame, in time order, through the model of the row's own sector. */
  lemma PredictRowByRow(xSpd: Series, xDir: Series, binDir: real -> Option<int>, models: map<int, SectorModel>, sectors: nat)
    requires Ordered(xSpd) && BinsInRange(binDir, sectors)
    requires PredictResult(xSpd, xDir, binDir, models, sectors).Ok?
    ensures var rows := SpeedBins(InnerJoin(DropNa(xSpd), DropNa(xDir)), binDir);
      var p := PredictResult(xSpd, xDir, binDir, models, sectors).value;
      && |p| == |rows| && Ordered(p)
      && forall k :: 0 <= k < |rows| ==>
           rows[k].bin in models && p[k].t == rows[k].t && p[k].v == SectorValue(models[rows[k].bin], Some(rows[k].spd))
  {
    JoinedSpeedBinsSorted(xSpd, xDir, binDir);
    var rows := SpeedBins(InnerJoin(DropNa(xSpd), DropNa(xDir)), binDir);
    SpeedBinsInRange(InnerJoin(DropNa(xSpd), DropNa(xDir)), binDir, sectors);
    assert forall x :: x in rows ==> x.bin in models;
    Reassembled(rows, models, sectors);
  }

  lemma JoinedSpeedBinsSorted(xSpd: Series, xDir: Series, binDir: real -> Option<int>)
    requires Ordered(xSpd)
    ensures StrictlySortedBy(SpeedBins(InnerJoin(DropNa(xSpd), DropNa(xDir)), binDir), SpeedTime)
  {
    InnerJoinCorrect(DropNa(xSpd), DropNa(xDir));
    SpeedBinsSorted(InnerJoin(DropNa(xSpd), DropNa(xDir)), binDir);
  }

  lemma SpeedBinsInRange(j: seq<Joined>, binDir: real -> Option<int>, n: int)
    requires BinsInRange(binDir, n)
    ensures forall x :: x in SpeedBins(j, binDir) ==> 1 <= x.bin <= n
  {
    forall x | x in SpeedBins(j, binDir) ensures 1 <= x.bin <= n {
      var y :| y in j && BinnedFrom(y, x, binDir);
      var d := y.y.value;
      assert binDir(d) == Some(x.bin);
    }
  }

  /** The reassembly of `_predict` on strictly time-ordered rows whose sectors all have
      a model. */
  lemma Reassembled(rows: seq<SpeedBin>, models: map<int, SectorModel>, sectors: nat)
    requires StrictlySortedBy(rows, SpeedTime)
    requires forall x :: x in rows ==> 1 <= x.bin <= sectors && x.bin in models
    ensures var p := SortBy(Parts(rows, 1, sectors + 1, SelectsBin, PredictRow(models)), Time);
      && |p| == |rows| && Ordered(p)
      && forall k :: 0 <= k < |rows| ==>
           rows[k].bin in models && p[k].t == rows[k].t && p[k].v == SectorValue(models[rows[k].bin], Some(rows[k].spd))
  {
    var f := PredictRow(models);
    SortedPartsAreAssigned(rows, 1, sectors + 1, SelectsBin, f, BinOf, SpeedTime, Time);
    AssignedTotal(rows, BinOf, f);
    AssignedStrictlySorted(rows, BinOf, f, SpeedTime, Time);
    OrderedIsStrictlySorted(Assigned(rows, BinOf, f));
    forall k | 0 <= k < |rows| ensures rows[k].bin in models {
      assert rows[k] in rows;
    }
  }

  // ---------------------------------------------------------------------------
  // _predict_dir

  /** `sec_veer`: the average veers of sectors 1..n followed by sector 1's again;
      `KeyError` when one of those sectors has no parameters. */
  function SectorVeers(params: map<int, SectorParams>, n: nat): (r: Result<seq<Option<real>>, PyError>)
    ensures r.Ok? <==> 1 in params && forall i :: 1 <= i <= n ==> i in params
    ensures r.Err? ==> r.error == KeyError
    ensures r.Ok? ==> |r.value| == n + 1 && r.value[n] == params[1].averageVeer
                      && forall i :: 1 <= i <= n ==> r.value[i - 1] == params[i].averageVeer
  {
    if 1 in params && forall i :: 1 <= i <= n ==> i in params then
      Ok(seq(n + 1, k requires 0 <= k <= n => if k < n then params[k + 1].averageVeer else params[1].averageVeer))
    else Err(KeyError)
  }

  /** The width of an even bin, `360 / sectors`. */
  function Width(n: nat): (w: real)
    requires n > 0
    ensures w > 0.0
  {
    360.0 / n as real
  }

  /** The `i`-th edge of `veer_bins`, `i * (360 / sectors)`. */
  function Edge(n: nat, i: int): real
    requires n > 0
  {
    i as real * Width(n)
  }

  /** The assumption on the veer binning: a direction in [0, 360) gets the bin `b` whose
      edges enclose it, `Edge(b - 1) <= d < Edge(b)`. */
  ghost predicate EvenBins(veerBin: real -> Option<int>, n: nat) {
    n > 0 ==> forall d :: 0.0 <= d < 360.0 ==>
      veerBin(d).Some? && 1 <= veerBin(d).value <= n
      && Edge(n, veerBin(d).value - 1) <= d < Edge(n, veerBin(d).value)
  }

  /** `ratio`: the position of `d` past the bin's lower edge, in bin widths. */
  function Ratio(n: nat, b: int, d: real): real
    requires n > 0
  {
    (d - Edge(n, b - 1)) / Width(n)
  }

  /** `adjustment = sec_veer[b-1] + ratio * (sec_veer[b] - sec_veer[b-1])`. */
  function Adjustment(sv: seq<Option<real>>, b: int, ratio: real): (r: Option<real>)
    requires 1 <= b < |sv|
    ensures r.Some? <==> sv[b - 1].Some? && sv[b].Some?
    ensures r.Some? && ratio == 0.0 ==> r.value == sv[b - 1].value
  {
    if sv[b - 1].Some? && sv[b].Some? then Some(sv[b - 1].value + ratio * (sv[b].value - sv[b - 1].value)) else None
  }

  /** A direction inside its even bin is between zero and one bin width past the
      lower edge. */
  lemma RatioInUnit(n: nat, b: int, d: real)
    requires n > 0 && Edge(n, b - 1) <= d < Edge(n, b)
    ensures 0.0 <= Ratio(n, b, d) < 1.0
  {
    var w := Width(n);
    assert Edge(n, b) - Edge(n, b - 1) == w;
    var x := d - Edge(n, b - 1);
    assert 0.0 <= x < w;
    assert x / w < 1.0 by {
      assert x / w * w == x;
    }
  }

  /** For a ratio in [0, 1] the adjustment lies between the two neighbouring veers. */
  lemma AdjustmentBetween(sv: seq<Option<real>>, b: int, ratio: real)
    requires 1 <= b < |sv| && sv[b - 1].Some? && sv[b].Some? && 0.0 <= ratio <= 1.0
    ensures var a, c, v := sv[b - 1].value, sv[b].value, Adjustment(sv, b, ratio).value;
      (a <= c ==> a <= v <= c) && (c <= a ==> c <= v <= a)
  {
    var a, c := sv[b - 1].value, sv[b].value;
    ScaledBounds(ratio, c - a, ratio * (c - a));
    assert Adjustment(sv, b, ratio).value == a + ratio * (c - a);
  }

  /** Scaling by a ratio in [0, 1] keeps a number between zero and itself. */
  lemma ScaledBounds(ratio: real, x: real, p: real)
    requires 0.0 <= ratio <= 1.0 && p == ratio * x
    ensures x >= 0.0 ==> 0.0 <= p <= x
    ensures x <= 0.0 ==> x <= p <= 0.0
  {
    assert x - p == (1.0 - ratio) * x;
  }

  /** NaN-propagating sum. */
  function Plus(a: Option<real>, b: Option<real>): (r: Option<real>)
    ensures r.Some? <==> a.Some? && b.Some?
  {
    if a.Some? && b.Some? then Some(a.value + b.value) else None
  }

  /** One predicted direction: `d + adjustment`, reduced into [0, 360). */
  function DirPrediction(sv: seq<Option<real>>, n: nat, b: int, d: real): (r: Option<real>)
    requires n > 0 && 1 <= b <= n && |sv| == n + 1
    ensures r.Some? <==> sv[b - 1].Some? && sv[b].Some?
    ensures r.Some? ==> 0.0 <= r.value < 360.0
  {
    WrapOpt(Plus(Some(d), Adjustment(sv, b, Ratio(n, b, d))))
  }

  /** The interpolation of a direction inside its bin `b`: the ratio is in [0, 1), the
      adjustment sits between the veers of the two neighbouring sectors and is the lower
      one's at the bin's lower edge. */
  lemma VeerInterpolation(sv: seq<Option<real>>, n: nat, b: int, d: real)
    requires n > 0 && |sv| == n + 1 && 1 <= b <= n && Edge(n, b - 1) <= d < Edge(n, b)
    ensures 0.0 <= Ratio(n, b, d) < 1.0
    ensures Edge(n, b - 1) == d && sv[b - 1].Some? && sv[b].Some? ==>
      Adjustment(sv, b, Ratio(n, b, d)).value == sv[b - 1].value
    ensures sv[b - 1].Some? && sv[b].Some? ==>
      var a, c, v := sv[b - 1].value, sv[b].value, Adjustment(sv, b, Ratio(n, b, d)).value;
      (a <= c ==> a <= v <= c) && (c <= a ==> c <= v <= a)
  {
    RatioInUnit(n, b, d);
    if sv[b - 1].Some? && sv[b].Some? {
      AdjustmentBetween(sv, b, Ratio(n, b, d));
    }
  }

  /** The predicted direction is the direction plus its adjustment, modulo whole turns. */
  lemma DirPredictionTurns(sv: seq<Option<real>>, n: nat, b: int, d: real)
    requires n > 0 && |sv| == n + 1 && 1 <= b <= n && sv[b - 1].Some? && sv[b].Some?
    ensures WholeTurns(d + Adjustment(sv, b, Ratio(n, b, d)).value - DirPrediction(sv, n, b, d).value)
  {
    var x := d + Adjustment(sv, b, Ratio(n, b, d)).value;
    assert DirPrediction(sv, n, b, d).value == Wrap360(x);
  }

  /** Under even bins every direction in [0, 360) is inside the bin it is given. */
  lemma EvenBinEncloses(veerBin: real -> Option<int>, n: nat, d: real)
    requires n > 0 && EvenBins(veerBin, n) && 0.0 <= d < 360.0
    ensures veerBin(d).Some? && 1 <= veerBin(d).value <= n
    ensures Edge(n, veerBin(d).value - 1) <= d < Edge(n, veerBin(d).value)
  {
  }

  /** `o` is the direction `x` moved by its bin's interpolated veer. */
  predicate PredictedFrom(x: Obs, o: Obs, sv: seq<Option<real>>, veerBin: real -> Option<int>, n: nat)
    requires n > 0 && |sv| == n + 1 && BinsInRange(veerBin, n)
  {
    x.t == o.t && x.v.Some? && veerBin(x.v.value).Some?
    && o.v == DirPrediction(sv, n, veerBin(x.v.value).value, x.v.value)
  }

  /** The directions `_predict_dir` keeps: those with a value and a veer bin, which the
      inner join with their bins leaves. */
  function HasVeerBin(veerBin: real -> Option<int>): Obs -> bool {
    (o: Obs) => o.v.Some? && veerBin(o.v.value).Some?
  }

  /** The predicted directions of the rows whose direction has a veer bin: one output
      per such row, in its order, each moved by its own bin's interpolated veer. */
  function DirRows(s: Series, sv: seq<Option<real>>, veerBin: real -> Option<int>, n: nat): (r: Series)
    requires n > 0 && |sv| == n + 1 && BinsInRange(veerBin, n)
    ensures |r| == |Where(s, HasVeerBin(veerBin))|
    ensures forall k :: 0 <= k < |r| ==> PredictedFrom(Where(s, HasVeerBin(veerBin))[k], r[k], sv, veerBin, n)
    ensures forall o :: o in r ==> InTurn(o.v)
  {
    if s == [] then []
    else
      var rest := DirRows(s[1..], sv, veerBin, n);
      var kept := Where(s[1..], HasVeerBin(veerBin));
      if s[0].v.Some? && veerBin(s[0].v.value).Some? then
        assert HasVeerBin(veerBin)(s[0]);
        var h := Obs(s[0].t, DirPrediction(sv, n, veerBin(s[0].v.value).value, s[0].v.value));
        assert Where(s, HasVeerBin(veerBin)) == [s[0]] + kept;
        assert PredictedFrom(s[0], h, sv, veerBin, n);
        [h] + rest
      else
        assert !HasVeerBin(veerBin)(s[0]);
        assert Where(s, HasVeerBin(veerBin)) == kept;
        rest
  }

  /** What `_predict_dir` returns: `KeyError` when a sector has no parameters,
      `ZeroDivisionError` for zero sectors, and otherwise the interpolated directions,
      each in [0, 360) or NaN, sorted by time. */
  function PredictDirResult(params: map<int, SectorParams>, n: nat, veerBin: real -> Option<int>, xDir: Series): (r: Result<Series, PyError>)
    requires BinsInRange(veerBin, n)
    ensures r.Err? <==> SectorVeers(params, n).Err? || n == 0
    ensures r.Err? ==> r.error == (if SectorVeers(params, n).Err? then KeyError else ZeroDivisionError)
    ensures r.Ok? ==> SortedBy(r.value, Time) && forall o :: o in r.value ==> InTurn(o.v)
  {
    var sv := SectorVeers(params, n);
    if sv.Err? then Err(sv.error)
    else if n == 0 then Err(ZeroDivisionError)
    else
      var rows := DirRows(DropNa(xDir), sv.value, veerBin, n);
      SortBySorted(rows, Time);
      assert forall o :: o in SortBy(rows, Time) ==> o in multiset(rows);
      Ok(SortBy(rows, Time))
  }

  /** `_predict_dir` row by row: on a time-ordered direction series, a successful
      result holds one direction for every valued direction with a veer bin, in time
      order, each moved by its own bin's interpolated veer. */
  lemma PredictDirRowByRow(params: map<int, SectorParams>, n: nat, veerBin: real -> Option<int>, xDir: Series)
    requires BinsInRange(veerBin, n) && Ordered(xDir)
    requires PredictDirResult(params, n, veerBin, xDir).Ok?
    ensures var kept := Where(DropNa(xDir), HasVeerBin(veerBin));
      var r := PredictDirResult(params, n, veerBin, xDir).value;
      && n > 0 && SectorVeers(params, n).Ok?
      && |r| == |kept| && Ordered(r)
      && forall k :: 0 <= k < |kept| ==> PredictedFrom(kept[k], r[k], SectorVeers(params, n).value, veerBin, n)
  {
    var sv := SectorVeers(params, n).value;
    var kept := Where(DropNa(xDir), HasVeerBin(veerBin));
    var rows := DirRows(DropNa(xDir), sv, veerBin, n);
    assert Ordered(kept);
    assert Ordered(rows) by {
      forall i, j | 0 <= i < j < |rows| ensures rows[i].t < rows[j].t {
        assert PredictedFrom(kept[i], rows[i], sv, veerBin, n);
        assert PredictedFrom(kept[j], rows[j], sv, veerBin, n);
      }
    }
    OrderedIsStrictlySorted(rows);
    SortBySorted(rows, Time);
    SortedPermutationUnique(SortBy(rows, Time), rows, Time);
  }

  // ---------------------------------------------------------------------------
  // synthesize

  /** `output[output < 0] = 0`. */
  function Clamp(v: Option<real>): (r: Option<real>)
    ensures r.Some? <==> v.Some?
    ensures r.Some? ==> r.value >= 0.0 && (v.value >= 0.0 ==> r.value == v.value)
  {
    if v.Some? && v.value < 0.0 then Some(0.0) else v
  }

  /** The frame `synthesize` returns: the two output column names and the inner join
      of the clamped speeds with the directions. */
  datatype Synthesized = Synthesized(spdName: string, dirName: string, rows: seq<Joined>)

  function Assemble(spd: Series, dir: Series, tarSpdName: string, tarDirName: string): Synthesized {
    Synthesized(tarSpdName + "_Synthesized", tarDirName + "_Synthesized", InnerJoin(MapValues(spd, Clamp), dir))
  }

  /** What `synthesize` returns. Without inputs the averaged reference speed and
      direction are predicted and the averaged target measurements overlaid on the
      predicted speeds; with both inputs they are predicted as given; with only one of
      them the missing one fails with `AttributeError`. */
  function SynthesizeResult(inputSpd: Option<Series>, inputDir: Option<Series>,
                            avgRefSpd: Series, avgRefDir: Series, avgTarSpd: Series,
                            binDir: real -> Option<int>, veerBin: real -> Option<int>, sectors: nat,
                            models: map<int, SectorModel>, params: map<int, SectorParams>,
                            tarSpdName: string, tarDirName: string): (r: Result<Synthesized, PyError>)
    requires BinsInRange(veerBin, sectors)
    ensures (inputSpd.None? != inputDir.None?) ==> r == Err(AttributeError)
    ensures r.Ok? ==> r.value.spdName == tarSpdName + "_Synthesized" && r.value.dirName == tarDirName + "_Synthesized"
  {
    if inputSpd.None? && inputDir.None? then
      var p := PredictResult(avgRefSpd, avgRefDir, binDir, models, sectors);
      if p.Err? then Err(p.error)
      else
        var d := PredictDirResult(params, sectors, veerBin, avgRefDir);
        if d.Err? then Err(d.error)
        else Ok(Assemble(CombineFirst(avgTarSpd, p.value), d.value, tarSpdName, tarDirName))
    else if inputSpd.None? || inputDir.None? then Err(AttributeError)
    else
      var p := PredictResult(inputSpd.value, inputDir.value, binDir, models, sectors);
      if p.Err? then Err(p.error)
      else
        var d := PredictDirResult(params, sectors, veerBin, inputDir.value);
        if d.Err? then Err(d.error)
        else Ok(Assemble(p.value, d.value, tarSpdName, tarDirName))
  }

  /** Every row of an inner join carries a value of its left side. */
  lemma {:induction false} InnerJoinLeftValues(a: Series, b: Series)
    ensures forall y :: y in InnerJoin(a, b) ==> exists o :: o in a && y.x == o.v
  {
    if a != [] {
      InnerJoinLeftValues(a[1..], b);
      assert forall o :: o in a[1..] ==> o in a;
      assert a[0] in a;
    }
  }

  /** No synthesized speed is negative. */
  lemma SynthesizedSpeedsNonNegative(inputSpd: Option<Series>, inputDir: Option<Series>,
                                    avgRefSpd: Series, avgRefDir: Series, avgTarSpd: Series,
                                    binDir: real -> Option<int>, veerBin: real -> Option<int>, sectors: nat,
                                    models: map<int, SectorModel>, params: map<int, SectorParams>,
                                    tarSpdName: string, tarDirName: string)
    requires BinsInRange(veerBin, sectors)
    requires SynthesizeResult(inputSpd, inputDir, avgRefSpd, avgRefDir, avgTarSpd, binDir, veerBin, sectors,
                              models, params, tarSpdName, tarDirName).Ok?
    ensures var rows := SynthesizeResult(inputSpd, inputDir, avgRefSpd, avgRefDir, avgTarSpd, binDir, veerBin, sectors,
                                         models, params, tarSpdName, tarDirName).value.rows;
      forall k :: 0 <= k < |rows| && rows[k].x.Some? ==> rows[k].x.value >= 0.0
  {
    var spd: Series, dir: Series;
    if inputSpd.None? && inputDir.None? {
      spd := CombineFirst(avgTarSpd, PredictResult(avgRefSpd, avgRefDir, binDir, models, sectors).value);
      dir := PredictDirResult(params, sectors, veerBin, avgRefDir).value;
    } else {
      spd := PredictResult(inputSpd.value, inputDir.value, binDir, models, sectors).value;
      dir := PredictDirResult(params, sectors, veerBin, inputDir.value).value;
    }
    var c := MapValues(spd, Clamp);
    InnerJoinLeftValues(c, dir);
    var rows := InnerJoin(c, dir);
    forall k | 0 <= k < |rows| && rows[k].x.Some? ensures rows[k].x.value >= 0.0 {
      assert rows[k] in rows;
      var o :| o in c && rows[k].x == o.v;
    }
  }

  /** Without inputs, every synthesized speed is the averaged target measurement where
      one exists and the prediction otherwise, clamped at zero (combine-first). */
  lemma SynthesizeKeepsMeasurements(avgRefSpd: Series, avgRefDir: Series, avgTarSpd: Series,
                                    binDir: real -> Option<int>, veerBin: real -> Option<int>, sectors: nat,
                                    models: map<int, SectorModel>, params: map<int, SectorParams>,
                                    tarSpdName: string, tarDirName: string)
    requires BinsInRange(veerBin, sectors) && BinsInRange(binDir, sectors)
    requires Ordered(avgRefSpd) && Ordered(avgTarSpd)
    requires SynthesizeResult(None, None, avgRefSpd, avgRefDir, avgTarSpd, binDir, veerBin, sectors,
                              models, params, tarSpdName, tarDirName).Ok?
    ensures var rows := SynthesizeResult(None, None, avgRefSpd, avgRefDir, avgTarSpd, binDir, veerBin, sectors,
                                         models, params, tarSpdName, tarDirName).value.rows;
      var p := PredictResult(avgRefSpd, avgRefDir, binDir, models, sectors).value;
      forall k :: 0 <= k < |rows| ==>
        rows[k].x == Clamp(if ValueAt(avgTarSpd, rows[k].t).Some? then ValueAt(avgTarSpd, rows[k].t) else ValueAt(p, rows[k].t))
  {
    var p := PredictResult(avgRefSpd, avgRefDir, binDir, models, sectors).value;
    PredictRowByRow(avgRefSpd, avgRefDir, binDir, models, sectors);
    CombineFirstCorrect(avgTarSpd, p);
    AssembledSpeeds(CombineFirst(avgTarSpd, p), PredictDirResult(params, sectors, veerBin, avgRefDir).value,
                    tarSpdName, tarDirName);
  }

  /** Every assembled row carries the clamped speed at its time. */
  lemma AssembledSpeeds(spd: Series, dir: Series, tarSpdName: string, tarDirName: string)
    requires Ordered(spd)
    ensures var rows := Assemble(spd, dir, tarSpdName, tarDirName).rows;
      forall k :: 0 <= k < |rows| ==> rows[k].x == Clamp(ValueAt(spd, rows[k].t))
  {
    var c := MapValues(spd, Clamp);
    MapValuesKeepsIndex(spd, Clamp);
    InnerJoinCorrect(c, dir);
    forall t ensures ValueAt(c, t) == Clamp(ValueAt(spd, t)) {
      ValueAtMapValues(spd, Clamp, t);
    }
  }
}
