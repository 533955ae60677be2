/** The time-of-day shear model: the daily segments the `TimeOfDay` constructor cuts the
    day into, and the `TimeOfDay` branch of `_apply`, which scales every observation by
    the value of its (hour, month) cell of the filled 24×12 grid.

    Times of day are seconds after midnight: `clock(t)` is the time of day of timestamp
    `t` and `month(t)` its calendar month, both supplied by the caller. */
module ShearTimeOfDay {
  import opened Wrappers
  import opened Errors
  import opened Sorting
  import opened TimeSeries
  import opened Reassembly
  import opened ShearScale
  import opened AlphaGrid

  const HourSeconds: int := 3600
  const DaySeconds: int := 86400

  // ---------------------------------------------------------------------------
  // Daily segments of the constructor

  /** The hour segment `i` starts at: `day_start_time` plus `i` steps of
      `int(24 / daily_segments)` hours, as a time of day. */
  function StartHour(h: Hour, segments: int, i: int): Hour
    requires segments > 0
  {
    (h + i * (24 / segments)) % 24
  }

  /** The constructor's start-time loop: each start is the previous one plus the
      interval. No segments (`int(24 / 0)`) is a `ZeroDivisionError`; a negative count
      leaves the per-segment series empty, which the constructor's emptiness check turns
      into a `ValueError`. */
  method SegmentStarts(h: Hour, segments: int) returns (r: Result<seq<Hour>, PyError>)
    ensures r.Err? <==> segments <= 0
    ensures segments == 0 ==> r == Err(ZeroDivisionError)
    ensures segments < 0 ==> r == Err(ValueError)
    ensures r.Ok? ==> |r.value| == segments && forall i :: 0 <= i < segments ==> r.value[i] == StartHour(h, segments, i)
  {
    if segments == 0 {
      return Err(ZeroDivisionError);
    }
    if segments < 0 {
      return Err(ValueError);
    }
    var interval := 24 / segments;
    var starts: seq<Hour> := [h];
    for i := 1 to segments
      invariant |starts| == i
      invariant forall k :: 0 <= k < i ==> starts[k] == StartHour(h, segments, k)
    {
      StartStep(h, segments, i);
      starts := starts + [(starts[i - 1] + interval) % 24];
    }
    return Ok(starts);
  }

  lemma StartStep(h: Hour, segments: int, i: int)
    requires segments > 0 && i >= 1
    ensures (StartHour(h, segments, i - 1) + 24 / segments) % 24 == StartHour(h, segments, i)
  {
    var d := 24 / segments;
    assert i * d == (i - 1) * d + d;
  }

  /** `between_time(start, end, include_end=False)`: a start after the end wraps past
      midnight; equal ends select nothing. */
  predicate BetweenTime(start: int, end: int, c: int) {
    if start <= end then start <= c < end else c >= start || c < end
  }

  /** Segment `i` runs from its start to the next start, and the last one back to the
      first start. */
  predicate InSegment(h: Hour, segments: int, i: int, c: int)
    requires segments > 0 && 0 <= i < segments
  {
    var end := if i == segments - 1 then StartHour(h, segments, 0) else StartHour(h, segments, i + 1);
    BetweenTime(HourSeconds * StartHour(h, segments, i), HourSeconds * end, c)
  }

  /** Where in the day, counted from the first start, a time of day lies. */
  function Offset(h: Hour, c: int): (r: int)
    ensures 0 <= r < DaySeconds
  {
    (c - HourSeconds * h) % DaySeconds
  }

  /** The segment a time of day belongs to: whole intervals since the first start, the
      remainder of the day going to the last segment. */
  function SegmentOf(h: Hour, segments: int, c: int): (r: int)
    requires 0 < segments <= 24
    ensures 0 <= r < segments
  {
    var k := Offset(h, c) / (HourSeconds * (24 / segments));
    if k < segments - 1 then k else segments - 1
  }

  /** An arc of the day starting `p` seconds after `base` and `len` seconds long, as
      `between_time` reads it: a time of day is on it exactly when its offset from
      `base` lies in `[p, p + len)`. */
  lemma ArcMembership(base: int, p: int, len: int, c: int)
    requires 0 <= base < DaySeconds && 0 <= p && 0 < len < DaySeconds && p + len <= DaySeconds && 0 <= c < DaySeconds
    ensures BetweenTime((base + p) % DaySeconds, (base + p + len) % DaySeconds, c)
        <==> p <= (c - base) % DaySeconds < p + len
  {
    var start := if base + p < DaySeconds then base + p else base + p - DaySeconds;
    assert (base + p) % DaySeconds == start;
    var end := if base + p + len < DaySeconds then base + p + len
               else if base + p + len < 2 * DaySeconds then base + p + len - DaySeconds
               else base + p + len - 2 * DaySeconds;
    assert (base + p + len) % DaySeconds == end;
    var off := if c >= base then c - base else c - base + DaySeconds;
    assert (c - base) % DaySeconds == off;
  }

  /** Hours and seconds: a start hour taken mod 24 is the start second taken mod a day. */
  lemma HourToSeconds(x: int)
    ensures HourSeconds * (x % 24) == (HourSeconds * x) % DaySeconds
  {
    var q := x / 24;
    var m := x % 24;
    assert x == 24 * q + m;
    assert HourSeconds * x == HourSeconds * m + DaySeconds * q;
  }

  /** The start of segment `i` and the end of its arc, in seconds after `3600·h`. */
  lemma SegmentSeconds(h: Hour, segments: int, i: int)
    requires 1 <= segments && 0 <= i < segments
    ensures var w := HourSeconds * (24 / segments);
      HourSeconds * StartHour(h, segments, i) == (HourSeconds * h + i * w) % DaySeconds
      && (i < segments - 1 ==> HourSeconds * StartHour(h, segments, i + 1) == (HourSeconds * h + i * w + w) % DaySeconds)
  {
    var d := 24 / segments;
    var w := HourSeconds * d;
    HourToSeconds(h + i * d);
    assert HourSeconds * (h + i * d) == HourSeconds * h + i * w;
    if i < segments - 1 {
      HourToSeconds(h + (i + 1) * d);
      assert HourSeconds * (h + (i + 1) * d) == HourSeconds * h + i * w + w;
    }
  }

  /** Segment `i` is the block of offsets `[i·w, (i + 1)·w)`, with the last segment
      reaching to the end of the day. */
  lemma SegmentIsBlock(h: Hour, segments: int, i: int, c: int)
    requires 2 <= segments <= 24 && 0 <= i < segments && 0 <= c < DaySeconds
    ensures var w := HourSeconds * (24 / segments);
      InSegment(h, segments, i, c) <==>
        i * w <= Offset(h, c) && (i == segments - 1 || Offset(h, c) < i * w + w)
  {
    var w := HourSeconds * (24 / segments);
    SegmentBounds(segments, i);
    SegmentSeconds(h, segments, i);
    if i < segments - 1 {
      InnerSegmentIsBlock(h, segments, i, c, w, i * w);
    } else {
      LastSegmentIsBlock(h, segments, i, c, i * w);
    }
  }

  lemma InnerSegmentIsBlock(h: Hour, segments: int, i: int, c: int, w: int, p: int)
    requires 2 <= segments <= 24 && 0 <= i < segments - 1 && 0 <= c < DaySeconds
    requires 0 <= p && 0 < w < DaySeconds && p + w < DaySeconds
    requires HourSeconds * StartHour(h, segments, i) == (HourSeconds * h + p) % DaySeconds
    requires HourSeconds * StartHour(h, segments, i + 1) == (HourSeconds * h + p + w) % DaySeconds
    ensures InSegment(h, segments, i, c) <==> p <= Offset(h, c) < p + w
  {
    ArcMembership(HourSeconds * h, p, w, c);
  }

  lemma LastSegmentIsBlock(h: Hour, segments: int, i: int, c: int, p: int)
    requires 2 <= segments <= 24 && i == segments - 1 && 0 <= c < DaySeconds
    requires 0 < p < DaySeconds
    requires HourSeconds * StartHour(h, segments, i) == (HourSeconds * h + p) % DaySeconds
    ensures InSegment(h, segments, i, c) <==> p <= Offset(h, c)
  {
    var base := HourSeconds * h;
    assert HourSeconds * StartHour(h, segments, 0) == base;
    assert (base + p + (DaySeconds - p)) % DaySeconds == base;
    ArcMembership(base, p, DaySeconds - p, c);
  }

  /** With `d = 24 / segments` and `w = 3600·d`, block `i` starts within the day and
      every block but the last ends before midnight. */
  lemma SegmentBounds(segments: int, i: int)
    requires 2 <= segments <= 24 && 0 <= i < segments
    ensures var w := HourSeconds * (24 / segments);
      HourSeconds <= w && 0 <= i * w < DaySeconds
      && (i < segments - 1 ==> i * w + w < DaySeconds)
      && (i == segments - 1 ==> 0 < i * w)
  {
    var d := 24 / segments;
    var w := HourSeconds * d;
    SegmentHours(segments);
    MulMono(i + 1, segments, d);
    BlockEnd(i, d);
    MulMono(0, i, w);
    MulMono(1, i, w);
  }

  /** Each of the segments spans at least one hour, and together they fit in the day. */
  lemma SegmentHours(segments: int)
    requires 2 <= segments <= 24
    ensures 1 <= 24 / segments && segments * (24 / segments) <= 24
  {
  }

  lemma BlockEnd(i: int, d: int)
    ensures i * (HourSeconds * d) + HourSeconds * d == HourSeconds * ((i + 1) * d)
  {
  }

  /** `off / w` counts the whole blocks before `off`. */
  lemma BlockCount(off: int, w: int, m: int)
    requires 0 <= off && 0 < w && 0 <= m
    ensures m * w <= off <==> m <= off / w
    ensures m * w <= off < m * w + w <==> off / w == m
  {
    var k := off / w;
    assert off == k * w + off % w;
    if m <= k {
      MulMono(m, k, w);
    } else {
      MulMono(k + 1, m, w);
      assert (k + 1) * w == k * w + w;
    }
    if m + 1 <= k {
      MulMono(m + 1, k, w);
    } else {
      MulMono(k + 1, m + 1, w);
      assert (k + 1) * w == k * w + w;
    }
    assert (m + 1) * w == m * w + w;
  }

  /** For two to 24 segments the segments partition the day: a time of day lies in
      segment `i` exactly when `i` is the segment `SegmentOf` names. */
  lemma SegmentsPartitionDay(h: Hour, segments: int, i: int, c: int)
    requires 2 <= segments <= 24 && 0 <= i < segments && 0 <= c < DaySeconds
    ensures InSegment(h, segments, i, c) <==> i == SegmentOf(h, segments, c)
  {
    var w := HourSeconds * (24 / segments);
    SegmentIsBlock(h, segments, i, c);
    SegmentBounds(segments, i);
    BlockCount(Offset(h, c), w, i);
  }

  /** A single daily segment starts and ends at the same time, and `between_time`
      selects nothing between equal ends: segment 0 is empty. */
  lemma SingleSegmentEmpty(h: Hour, c: int)
    ensures !InSegment(h, 1, 0, c)
  {
  }

  /** The evident intent for one segment is the whole day; with that reading the
      segments partition the day for every count from 1 to 24. */
  predicate InSegmentCorrected(h: Hour, segments: int, i: int, c: int)
    requires segments > 0 && 0 <= i < segments
  {
    if segments == 1 then 0 <= c < DaySeconds else InSegment(h, segments, i, c)
  }

  lemma SegmentsPartitionDayCorrected(h: Hour, segments: int, i: int, c: int)
    requires 1 <= segments <= 24 && 0 <= i < segments && 0 <= c < DaySeconds
    ensures InSegmentCorrected(h, segments, i, c) <==> i == SegmentOf(h, segments, c)
  {
    if segments > 1 {
      SegmentsPartitionDay(h, segments, i, c);
    }
  }

  // ---------------------------------------------------------------------------
  // Uneven segments and `_fill_alpha_12x24`

  /** With five segments from 07:00 the starts are 07, 11, 15, 19 and 23, and the last
      segment runs from 23:00 to 07:00. The fill gives every row `24 / 5 = 4` hours from
      07:00 on, so 03:00 to 06:00 stay NaN although 03:00 lies in the last segment. */
  lemma UnevenSegmentsLeaveHoursEmpty()
    ensures [StartHour(7, 5, 0), StartHour(7, 5, 1), StartHour(7, 5, 2), StartHour(7, 5, 3), StartHour(7, 5, 4)] == [7, 11, 15, 19, 23]
    ensures InSegment(7, 5, 4, 3 * HourSeconds)
    ensures var g := Grid([7, 11, 15, 19, 23], 1, [[Some(1.0)], [Some(2.0)], [Some(3.0)], [Some(4.0)], [Some(5.0)]]);
      FillResult(g).value.cells[3] == NanRow(1) && FilledRowCorrected(g, 3) == [Some(5.0)]
  {
    var g := Grid([7, 11, 15, 19, 23], 1, [[Some(1.0)], [Some(2.0)], [Some(3.0)], [Some(4.0)], [Some(5.0)]]);
    assert (3 - 7) % 24 == 20;
    assert FilledRow(g, 3) == NanRow(1);
    assert LastAtOrBefore(g.index, 3, 5) == -1;
  }

  /** The last row before `k` whose label is at or before hour `h`, or -1. */
  function LastAtOrBefore(index: seq<Hour>, h: int, k: int): (r: int)
    requires 0 <= k <= |index|
    ensures -1 <= r < k
    ensures r >= 0 ==> index[r] <= h && forall q :: r < q < k ==> index[q] > h
    ensures r == -1 ==> forall q :: 0 <= q < k ==> index[q] > h
  {
    if k == 0 then -1
    else if index[k - 1] <= h then k - 1
    else LastAtOrBefore(index, h, k - 1)
  }

  /** The row whose segment holds hour `h`: the last one starting at or before `h`, or
      the last row of all when `h` comes before every start (that segment wraps past
      midnight). */
  function SegmentRow(index: seq<Hour>, h: int): (r: int)
    requires |index| > 0
    ensures 0 <= r < |index|
  {
    var k := LastAtOrBefore(index, h, |index|);
    if k == -1 then |index| - 1 else k
  }

  /** The evidently intended fill: every hour takes the row of the segment it lies in. */
  function FilledRowCorrected(g: Grid, h: int): seq<Option<real>>
    requires |g.cells| > 0 && |g.index| == |g.cells|
  {
    g.cells[SegmentRow(g.index, h)]
  }

  /** For a grid whose start hours increase, as the constructor's sorted grid does, the
      corrected fill gives hour `h` exactly the row whose segment, read as
      `between_time` reads it, contains `h`:00. */
  lemma CorrectedFillFollowsSegments(index: seq<Hour>, h: int, r: int)
    requires |index| >= 2 && (forall a, b :: 0 <= a < b < |index| ==> index[a] < index[b])
    requires 0 <= h < 24 && 0 <= r < |index|
    ensures var next := if r == |index| - 1 then index[0] else index[r + 1];
      SegmentRow(index, h) == r <==> BetweenTime(HourSeconds * index[r], HourSeconds * next, HourSeconds * h)
  {
    var n := |index|;
    var k := LastAtOrBefore(index, h, n);
    if r == n - 1 {
      assert index[0] < index[n - 1];
    }
  }

  // ---------------------------------------------------------------------------
  // The TimeOfDay branch of `_apply`

  /** The fitted grids a `TimeOfDay` object carries: the exponents for the power law, the
      slopes and intercepts for the log law. */
  datatype TimeOfDayFit = PowerGrid(alpha: Grid) | LogGrids(slope: Grid, intercept: Grid)

  ghost predicate FitRectangular(fit: TimeOfDayFit) {
    match fit
    case PowerGrid(a) => Rectangular(a)
    case LogGrids(s, c) => Rectangular(s) && Rectangular(c)
  }

  /** The heights of a scaling: `lnHeight` and `lnHeightTo` stand for `np.log` of
      `height` and `height_to_scale_to`, and `pow` for `**` on floats. */
  datatype Scaling = Scaling(height: real, heightTo: real, lnHeight: real, lnHeightTo: real, pow: (real, real) -> real)

  /** The fitted grids spread over 24 hours by `_fill_alpha_12x24`. */
  function FillFit(fit: TimeOfDayFit): (r: Result<TimeOfDayFit, PyError>)
    requires FitRectangular(fit)
    ensures r.Ok? ==> r.value.PowerGrid? == fit.PowerGrid?
  {
    match fit
    case PowerGrid(a) =>
      var f := FillResult(a);
      if f.Err? then Err(f.error) else Ok(PowerGrid(f.value))
    case LogGrids(s, c) =>
      var fs := FillResult(s);
      if fs.Err? then Err(fs.error)
      else
        var fc := FillResult(c);
        if fc.Err? then Err(fc.error) else Ok(LogGrids(fs.value, fc.value))
  }

  /** How many month columns `iloc[i, j]` can read. */
  function CellWidth(fit: TimeOfDayFit): nat {
    match fit
    case PowerGrid(a) => a.columns
    case LogGrids(s, c) => if s.columns <= c.columns then s.columns else c.columns
  }

  function CellAt(g: Grid, i: int, j: int): Option<real> {
    if 0 <= i < |g.cells| && 0 <= j < |g.cells[i]| then g.cells[i][j] else None
  }

  /** Observation `o` is in cell `12·i + j`: month `j + 1` and a time of day from hour
      `i` up to hour `i + 1`, the last hour running to midnight. */
  predicate CellSelects(clock: int -> int, month: int -> int, g: int, o: Obs) {
    var i := g / 12;
    var j := g % 12;
    month(o.t) == j + 1 && clock(o.t) >= HourSeconds * i && (i == 23 || clock(o.t) < HourSeconds * (i + 1))
  }

  function Cells(clock: int -> int, month: int -> int): (int, Obs) -> bool {
    (g: int, o: Obs) => CellSelects(clock, month, g, o)
  }

  /** `_scale` of one value with the cell's exponent, or its slope and intercept. */
  function ScaleValue(fit: TimeOfDayFit, sc: Scaling, i: int, j: int, v: Option<real>): Option<real> {
    match fit
    case PowerGrid(a) =>
      var alpha := CellAt(a, i, j);
      Times(v, if alpha.Some? && sc.height != 0.0 then Some(sc.pow(sc.heightTo / sc.height, alpha.value)) else None)
    case LogGrids(s, c) =>
      var slope := CellAt(s, i, j);
      var intercept := CellAt(c, i, j);
      if v.Some? && slope.Some? && intercept.Some? then LogScale(v.value, sc.lnHeight, sc.lnHeightTo, slope.value, intercept.value)
      else None
  }

  function ScaleInCell(fit: TimeOfDayFit, sc: Scaling): (int, Obs) -> Obs {
    (g: int, o: Obs) => Obs(o.t, ScaleValue(fit, sc, g / 12, g % 12, o.v))
  }

  /** The cell loop on filled grids: `IndexError` when the grid has fewer than 12
      month columns (the twelve-month average has one), after a `ZeroDivisionError`
      from a zero `height` in the first cell; otherwise the scaled selections of all
      24×12 cells sorted by time. */
  function ApplyFilled(filled: TimeOfDayFit, wspds: Series, sc: Scaling, clock: int -> int, month: int -> int): (r: Result<Series, PyError>)
    ensures r.Ok? ==> CellWidth(filled) >= 12
  {
    var e := CellLoopError(filled, sc);
    if e.Some? then Err(e.value)
    else Ok(SortBy(Parts(wspds, 0, 24 * 12, Cells(clock, month), ScaleInCell(filled, sc)), Time))
  }

  /** The error the first hour of the cell loop raises, if any: `iloc` past the last
      column at month 0 or at the first missing month, and the zero `height` of the
      power law at the first cell. */
  function CellLoopError(filled: TimeOfDayFit, sc: Scaling): (e: Option<PyError>)
    ensures e.None? <==> CellWidth(filled) >= 12 && (filled.PowerGrid? ==> sc.height != 0.0)
  {
    var w := CellWidth(filled);
    if w == 0 then Some(IndexError)
    else if filled.PowerGrid? && sc.height == 0.0 then Some(ZeroDivisionError)
    else if w < 12 then Some(IndexError)
    else None
  }

  /** What the `TimeOfDay` branch of `_apply` returns: the fill errors, then the cell
      loop on the filled grids. */
  function TimeOfDayResult(fit: TimeOfDayFit, wspds: Series, sc: Scaling, clock: int -> int, month: int -> int): (r: Result<Series, PyError>)
    requires FitRectangular(fit)
    ensures r.Ok? ==> FillFit(fit).Ok? && r == ApplyFilled(FillFit(fit).value, wspds, sc, clock, month)
  {
    var f := FillFit(fit);
    if f.Err? then Err(f.error) else ApplyFilled(f.value, wspds, sc, clock, month)
  }

  /** The `TimeOfDay` branch of `_apply`: fill the grids, then for every hour `i` and
      month `j` select the cell's observations, scale them with the cell's value and
      append them; finally sort by time. */
  method ApplyTimeOfDay(fit: TimeOfDayFit, wspds: Series, sc: Scaling, clock: int -> int, month: int -> int)
    returns (r: Result<Series, PyError>)
    requires FitRectangular(fit)
    ensures r == TimeOfDayResult(fit, wspds, sc, clock, month)
  {
    var filled := FillGrids(fit);
    if filled.Err? {
      return Err(filled.error);
    }
    r := ApplyCells(filled.value, wspds, sc, clock, month);
  }

  /** `_fill_alpha_12x24` on the fitted grid, or on the slope and intercept grids. */
  method FillGrids(fit: TimeOfDayFit) returns (r: Result<TimeOfDayFit, PyError>)
    requires FitRectangular(fit)
    ensures r == FillFit(fit)
  {
    match fit {
      case PowerGrid(a) =>
        var fa := FillAlpha12x24(a);
        if fa.Err? {
          return Err(fa.error);
        }
        return Ok(PowerGrid(fa.value));
      case LogGrids(s, c) =>
        var fs := FillAlpha12x24(s);
        if fs.Err? {
          return Err(fs.error);
        }
        var fc := FillAlpha12x24(c);
        if fc.Err? {
          return Err(fc.error);
        }
        return Ok(LogGrids(fs.value, fc.value));
    }
  }

  /** The cell loop on the filled grids. */
  method ApplyCells(filled: TimeOfDayFit, wspds: Series, sc: Scaling, clock: int -> int, month: int -> int)
    returns (r: Result<Series, PyError>)
    ensures r == ApplyFilled(filled, wspds, sc, clock, month)
  {
    var sel := Cells(clock, month);
    var scale := ScaleInCell(filled, sc);
    var noError := CellLoopError(filled, sc).None?;
    var result: Series := [];
    var i := 0;
    while i < 24
      invariant 0 <= i <= 24
      invariant result == Parts(wspds, 0, 12 * i, sel, scale)
      invariant i > 0 ==> noError
    {
      var h := ApplyHour(filled, wspds, sc, clock, month, i, result);
      if h.Err? {
        return Err(h.error);
      }
      result := h.value;
      i := i + 1;
    }
    return Ok(SortBy(result, Time));
  }

  /** One hour `i` of the cell loop: the twelve months appended to `acc`. */
  method ApplyHour(filled: TimeOfDayFit, wspds: Series, sc: Scaling, clock: int -> int, month: int -> int, i: int, acc: Series)
    returns (r: Result<Series, PyError>)
    requires 0 <= i < 24 && acc == Parts(wspds, 0, 12 * i, Cells(clock, month), ScaleInCell(filled, sc))
    ensures CellLoopError(filled, sc).Some? ==> r == Err(CellLoopError(filled, sc).value)
    ensures CellLoopError(filled, sc).None? ==>
      r == Ok(Parts(wspds, 0, 12 * (i + 1), Cells(clock, month), ScaleInCell(filled, sc)))
  {
    var w := CellWidth(filled);
    var sel := Cells(clock, month);
    var scale := ScaleInCell(filled, sc);
    var result := acc;
    var first := 12 * i;
    for j := 0 to 12
      invariant result == Parts(wspds, 0, first + j, sel, scale)
      invariant j > 0 ==> w >= j && (filled.PowerGrid? ==> sc.height != 0.0)
    {
      if j >= w {
        return Err(IndexError);
      }
      if filled.PowerGrid? {
        var factor := PowerFactor(sc.height, sc.heightTo, CellAt(filled.alpha, i, j), sc.pow);
        if factor.Err? {
          return Err(factor.error);
        }
      }
      PartsStep(wspds, 0, first + j, sel, scale);
      result := result + Part(wspds, first + j, sel, scale);
    }
    assert first + 12 == 12 * (i + 1);
    return Ok(result);
  }

  /** The cell of an observation whose time of day and month are in range. */
  function CellOf(clock: int -> int, month: int -> int, o: Obs): Option<int> {
    if 0 <= clock(o.t) < DaySeconds && 1 <= month(o.t) <= 12 then Some(12 * (clock(o.t) / HourSeconds) + month(o.t) - 1)
    else None
  }

  function RowCell(clock: int -> int, month: int -> int): Obs -> Option<int> {
    (o: Obs) => CellOf(clock, month, o)
  }

  /** Each observation with a valid time of day and month lies in exactly one cell. */
  lemma CellUnique(clock: int -> int, month: int -> int, g: int, o: Obs)
    requires 0 <= g < 24 * 12
    requires 0 <= clock(o.t) < DaySeconds && 1 <= month(o.t) <= 12
    ensures CellSelects(clock, month, g, o) <==> CellOf(clock, month, o) == Some(g)
  {
    var c := clock(o.t);
    var hour := c / HourSeconds;
    assert HourSeconds * hour <= c < HourSeconds * (hour + 1);
    var i := g / 12;
    var j := g % 12;
    assert g == 12 * i + j;
    if CellSelects(clock, month, g, o) {
      if i < 23 {
        assert hour == i;
      } else {
        assert hour == 23;
      }
    }
  }

  lemma CellsAreGroups(clock: int -> int, month: int -> int, wspds: Series)
    requires forall o :: o in wspds ==> 0 <= clock(o.t) < DaySeconds && 1 <= month(o.t) <= 12
    ensures GroupOf(wspds, 0, 24 * 12, Cells(clock, month), RowCell(clock, month))
    ensures GroupsInRange(wspds, 0, 24 * 12, RowCell(clock, month))
  {
    forall o, g | o in wspds && 0 <= g < 24 * 12
      ensures Cells(clock, month)(g, o) <==> RowCell(clock, month)(o) == Some(g)
    {
      CellUnique(clock, month, g, o);
    }
  }

  /** With times of day in [0, 24 h) and months in 1..12, a successful result is the
      input series itself, in its own order, every observation scaled by the value of
      its own (hour, month) cell: nothing is dropped and nothing is scaled twice. */
  lemma TimeOfDayScalesEveryRow(fit: TimeOfDayFit, wspds: Series, sc: Scaling, clock: int -> int, month: int -> int)
    requires FitRectangular(fit) && Ordered(wspds)
    requires forall o :: o in wspds ==> 0 <= clock(o.t) < DaySeconds && 1 <= month(o.t) <= 12
    requires TimeOfDayResult(fit, wspds, sc, clock, month).Ok?
    ensures var r := TimeOfDayResult(fit, wspds, sc, clock, month).value;
      var filled := FillFit(fit).value;
      |r| == |wspds|
      && forall k :: 0 <= k < |wspds| ==>
           r[k] == Obs(wspds[k].t, ScaleValue(filled, sc, clock(wspds[k].t) / HourSeconds, month(wspds[k].t) - 1, wspds[k].v))
  {
    FilledScalesEveryRow(FillFit(fit).value, wspds, sc, clock, month);
  }

  lemma FilledScalesEveryRow(filled: TimeOfDayFit, wspds: Series, sc: Scaling, clock: int -> int, month: int -> int)
    requires Ordered(wspds)
    requires forall o :: o in wspds ==> 0 <= clock(o.t) < DaySeconds && 1 <= month(o.t) <= 12
    requires ApplyFilled(filled, wspds, sc, clock, month).Ok?
    ensures var r := ApplyFilled(filled, wspds, sc, clock, month).value;
      |r| == |wspds|
      && forall k :: 0 <= k < |wspds| ==>
           r[k] == Obs(wspds[k].t, ScaleValue(filled, sc, clock(wspds[k].t) / HourSeconds, month(wspds[k].t) - 1, wspds[k].v))
  {
    FilledIsAssigned(filled, wspds, sc, clock, month);
    AssignedCells(filled, wspds, sc, clock, month);
  }

  lemma FilledIsAssigned(filled: TimeOfDayFit, wspds: Series, sc: Scaling, clock: int -> int, month: int -> int)
    requires Ordered(wspds)
    requires forall o :: o in wspds ==> 0 <= clock(o.t) < DaySeconds && 1 <= month(o.t) <= 12
    requires ApplyFilled(filled, wspds, sc, clock, month).Ok?
    ensures ApplyFilled(filled, wspds, sc, clock, month).value == Assigned(wspds, RowCell(clock, month), ScaleInCell(filled, sc))
  {
    var scale := ScaleInCell(filled, sc);
    CellsAreGroups(clock, month, wspds);
    OrderedIsStrictlySorted(wspds);
    SortedPartsAreAssigned(wspds, 0, 24 * 12, Cells(clock, month), scale, RowCell(clock, month), Time, Time);
  }

  lemma AssignedCells(filled: TimeOfDayFit, wspds: Series, sc: Scaling, clock: int -> int, month: int -> int)
    requires forall o :: o in wspds ==> 0 <= clock(o.t) < DaySeconds && 1 <= month(o.t) <= 12
    ensures var r := Assigned(wspds, RowCell(clock, month), ScaleInCell(filled, sc));
      |r| == |wspds|
      && forall k :: 0 <= k < |wspds| ==>
           r[k] == Obs(wspds[k].t, ScaleValue(filled, sc, clock(wspds[k].t) / HourSeconds, month(wspds[k].t) - 1, wspds[k].v))
  {
    var scale := ScaleInCell(filled, sc);
    var r := Assigned(wspds, RowCell(clock, month), scale);
    AssignedTotal(wspds, RowCell(clock, month), scale);
    forall k | 0 <= k < |wspds|
      ensures r[k] == Obs(wspds[k].t, ScaleValue(filled, sc, clock(wspds[k].t) / HourSeconds, month(wspds[k].t) - 1, wspds[k].v))
    {
      assert wspds[k] in wspds;
      CellCoordinates(clock, month, wspds[k]);
      var g := CellOf(clock, month, wspds[k]).value;
      assert r[k] == scale(g, wspds[k]);
    }
  }

  lemma CellCoordinates(clock: int -> int, month: int -> int, o: Obs)
    requires 0 <= clock(o.t) < DaySeconds && 1 <= month(o.t) <= 12
    ensures var g := CellOf(clock, month, o).value; g / 12 == clock(o.t) / HourSeconds && g % 12 == month(o.t) - 1
  {
  }
}
