/** Time-of-day shear grids and `_fill_alpha_12x24`, which spreads a coarse grid of
    daily segments over the 24 hours of the day. */
module AlphaGrid {
  import opened Wrappers
  import opened Errors
  import opened Sorting

  type Hour = h: int | 0 <= h < 24

  /** A frame of shear values: one row per time-of-day label (the hour it starts at),
      `columns` values per row (the months, or the single twelve-month average). */
  datatype Grid = Grid(index: seq<Hour>, columns: nat, cells: seq<seq<Option<real>>>)

  /** A frame has an index label per row and the same number of values in every row. */
  ghost predicate Rectangular(g: Grid) {
    |g.index| == |g.cells| && forall r :: 0 <= r < |g.cells| ==> |g.cells[r]| == g.columns
  }

  /** A row of the 24-row frame under construction. */
  datatype HourRow = HourRow(hour: int, values: seq<Option<real>>)

  function HourKey(r: HourRow): real { r.hour as real }

  function NanRow(columns: nat): (r: seq<Option<real>>)
    ensures |r| == columns && forall k :: 0 <= k < columns ==> r[k].None?
  {
    seq(columns, _ => None)
  }

  /** `pd.date_range('00:00', '23:00', freq='1H').time`. */
  function HoursOfDay(): (r: seq<Hour>)
    ensures |r| == 24 && forall h :: 0 <= h < 24 ==> r[h] == h
  {
    seq(24, (h: int) requires 0 <= h < 24 => h as Hour)
  }

  /** The values at position `p` of the rotated frame once coarse rows `0 .. done - 1`
      have been written over positions `i·interval .. (i + 1)·interval - 1`. */
  function Written(g: Grid, done: int, p: int): seq<Option<real>>
    requires |g.cells| > 0 && 0 <= done <= |g.cells| && 0 <= p
  {
    var interval := 24 / |g.cells|;
    if interval > 0 && p / interval < done then g.cells[p / interval] else NanRow(g.columns)
  }

  /** Reference definition of the filled grid: hour `h` lies `(h - h0) mod 24` hours
      after the first coarse row's hour `h0` and takes the coarse row that block belongs
      to; hours past the last whole block stay NaN. */
  function FilledRow(g: Grid, h: int): seq<Option<real>>
    requires |g.cells| > 0 && |g.index| > 0
  {
    Written(g, |g.cells|, (h - g.index[0]) % 24)
  }

  /** What `_fill_alpha_12x24` returns: `int(24 / len(df))` fails on a frame without
      rows; otherwise 24 rows labelled 0:00 to 23:00 with the input's columns. */
  function FillResult(g: Grid): (r: Result<Grid, PyError>)
    requires |g.index| == |g.cells|
    ensures r.Err? <==> |g.cells| == 0
    ensures r.Err? ==> r.error == ZeroDivisionError
  {
    if |g.cells| == 0 then Err(ZeroDivisionError)
    else Ok(Grid(HoursOfDay(), g.columns, seq(24, (h: int) requires 0 <= h < 24 => FilledRow(g, h))))
  }

  /** `_fill_alpha_12x24`: build 24 empty rows labelled by hour, rotate them so that the
      first coarse row's hour comes first, write coarse row `i` over the block of
      positions `i·interval .. (i + 1)·interval - 1`, then sort the rows by hour. */
  method FillAlpha12x24(g: Grid) returns (r: Result<Grid, PyError>)
    requires Rectangular(g)
    ensures r == FillResult(g)
  {
    var n := |g.cells|;
    if n == 0 {
      return Err(ZeroDivisionError);
    }
    var interval := 24 / n;
    var h0 := g.index[0];
    var blank := seq(24, (h: int) requires 0 <= h < 24 => HourRow(h, NanRow(g.columns)));
    var rotated := blank[h0..] + blank[..h0];
    RotationHours(h0, blank, rotated);
    var frame := new HourRow[24](p requires 0 <= p < 24 => rotated[p]);
    for i := 0 to n
      invariant forall p :: 0 <= p < 24 ==> frame[p] == HourRow((h0 as int + p) % 24, Written(g, i, p))
    {
      BlockFits(n, i);
      WriteBlock(frame, i * interval, (i + 1) * interval, g.cells[i]);
      forall q | 0 <= q < 24 ensures frame[q] == HourRow((h0 as int + q) % 24, Written(g, i + 1, q)) {
        NextBlock(g, i, q);
      }
    }
    var rows := frame[..];
    SortedFill(g, rows);
    return Ok(Grid(HoursOfDay(), g.columns, MapSeq(SortBy(rows, HourKey), RowValues)));
  }

  /** The values of one row of the frame. */
  function RowValues(h: HourRow): seq<Option<real>> { h.values }

  /** `df.iloc[lo:hi, :] = values`. */
  method WriteBlock(frame: array<HourRow>, lo: int, hi: int, values: seq<Option<real>>)
    requires 0 <= lo <= hi <= frame.Length
    modifies frame
    ensures forall q :: 0 <= q < frame.Length ==>
      frame[q] == if lo <= q < hi then HourRow(old(frame[q]).hour, values) else old(frame[q])
  {
    for p := lo to hi
      invariant forall q :: 0 <= q < frame.Length ==>
        frame[q] == if lo <= q < p then HourRow(old(frame[q]).hour, values) else old(frame[q])
    {
      frame[p] := HourRow(frame[p].hour, values);
    }
  }

  /** Writing coarse row `i` over its block turns `Written(g, i, q)` into `Written(g, i + 1, q)`. */
  lemma NextBlock(g: Grid, i: int, q: int)
    requires 0 <= i < |g.cells| && 0 <= q
    ensures Written(g, i + 1, q)
      == if i * (24 / |g.cells|) <= q < (i + 1) * (24 / |g.cells|) then g.cells[i] else Written(g, i, q)
  {
    var interval := 24 / |g.cells|;
    if interval > 0 {
      InBlock(q, interval, i);
    }
  }

  /** `sort_index` on the filled frame undoes the rotation. */
  lemma SortedFill(g: Grid, rows: seq<HourRow>)
    requires |g.cells| > 0 && |g.index| == |g.cells| && |rows| == 24
    requires forall p :: 0 <= p < 24 ==> rows[p] == HourRow((g.index[0] as int + p) % 24, Written(g, |g.cells|, p))
    ensures MapSeq(SortBy(rows, HourKey), RowValues) == FillResult(g).value.cells
  {
    var expected := seq(24, (h: int) requires 0 <= h < 24 => HourRow(h, FilledRow(g, h)));
    Unrotate(g, rows, expected);
    SortBySorted(rows, HourKey);
    var sorted := SortBy(rows, HourKey);
    assert multiset(sorted) == multiset(expected);
    SortedPermutationUnique(sorted, expected, HourKey);
    var cells := FillResult(g).value.cells;
    forall h | 0 <= h < 24 ensures MapSeq(sorted, RowValues)[h] == cells[h] {
      assert sorted[h] == expected[h];
    }
  }

  /** Coarse block `i` of `24 / n` rows ends within the 24 hours. */
  lemma BlockFits(n: int, i: int)
    requires 0 <= i < n
    ensures 0 <= i * (24 / n) <= (i + 1) * (24 / n) <= 24
  {
    var d := 24 / n;
    assert n * d <= 24;
    assert (i + 1) * d <= n * d;
  }

  /** Position `q` is in block `i` exactly when `q / interval == i`. */
  lemma InBlock(q: int, interval: int, i: int)
    requires 0 <= q && interval > 0 && 0 <= i
    ensures i * interval <= q < (i + 1) * interval <==> q / interval == i
  {
    var k := q / interval;
    assert k * interval <= q < (k + 1) * interval;
    if k < i {
      assert (k + 1) * interval <= i * interval;
    } else if k > i {
      assert (i + 1) * interval <= k * interval;
    }
  }

  /** After the rotation, position `p` holds the row of hour `(h0 + p) mod 24`. */
  lemma RotationHours(h0: Hour, blank: seq<HourRow>, rotated: seq<HourRow>)
    requires |blank| == 24 && forall h :: 0 <= h < 24 ==> blank[h].hour == h
    requires rotated == blank[h0..] + blank[..h0]
    ensures |rotated| == 24 && forall p :: 0 <= p < 24 ==> rotated[p].hour == (h0 + p) % 24
  {
    forall p | 0 <= p < 24 ensures rotated[p].hour == (h0 + p) % 24 {
      if p < 24 - h0 {
        assert rotated[p] == blank[h0 + p];
      } else {
        assert rotated[p] == blank[h0 + p - 24];
      }
    }
  }

  /** The filled frame before sorting is the expected rows rotated by `h0`, so it holds
      the same rows. */
  lemma Unrotate(g: Grid, rows: seq<HourRow>, expected: seq<HourRow>)
    requires |g.cells| > 0 && |g.index| > 0 && |rows| == 24
    requires forall p :: 0 <= p < 24 ==> rows[p] == HourRow((g.index[0] as int + p) % 24, Written(g, |g.cells|, p))
    requires |expected| == 24 && forall h :: 0 <= h < 24 ==> expected[h] == HourRow(h, FilledRow(g, h))
    ensures multiset(rows) == multiset(expected)
    ensures StrictlySortedBy(expected, HourKey)
  {
    var h0 := g.index[0] as int;
    forall p | 0 <= p < 24 ensures rows[p] == (expected[h0..] + expected[..h0])[p] {
      var h := (h0 + p) % 24;
      assert (h - h0) % 24 == p;
      if p < 24 - h0 {
        assert (expected[h0..] + expected[..h0])[p] == expected[h0 + p];
      } else {
        assert (expected[h0..] + expected[..h0])[p] == expected[h0 + p - 24];
      }
    }
    assert rows == expected[h0..] + expected[..h0];
    assert expected == expected[..h0] + expected[h0..];
  }

  /** Coarse row `i` fills the hours `(h0 + i·interval + k) mod 24`, `0 <= k < interval`. */
  lemma FillCoarseRow(g: Grid, i: int, k: int)
    requires Rectangular(g) && 0 <= i < |g.cells| && 0 <= k < 24 / |g.cells|
    ensures var h := (g.index[0] + i * (24 / |g.cells|) + k) % 24;
      FillResult(g).value.cells[h] == g.cells[i]
  {
    var n := |g.cells|;
    var interval := 24 / n;
    var p := i * interval + k;
    BlockFits(n, i);
    InBlock(p, interval, i);
    var h := (g.index[0] as int + p) % 24;
    assert (h - g.index[0]) % 24 == p;
  }

  /** The filled grid has 24 rows, labelled 0:00 to 23:00 in order, with the input's
      columns, and every row as wide as the input's rows. */
  lemma FillShape(g: Grid)
    requires Rectangular(g) && |g.cells| > 0
    ensures var f := FillResult(g).value;
      Rectangular(f) && |f.cells| == 24 && f.columns == g.columns
      && forall h :: 0 <= h < 24 ==> f.index[h] == h
  {
    var f := FillResult(g).value;
    forall h: int | 0 <= h < 24 ensures |f.cells[h]| == g.columns {
      WrittenWidth(g, (h - g.index[0] as int) % 24);
    }
  }

  /** Every position of the frame holds a row as wide as the input's rows. */
  lemma WrittenWidth(g: Grid, p: int)
    requires Rectangular(g) && |g.cells| > 0 && 0 <= p
    ensures |Written(g, |g.cells|, p)| == g.columns
  {
    var interval := 24 / |g.cells|;
    if interval > 0 && p / interval < |g.cells| {
      assert 0 <= p / interval;
    }
  }

  /** Hours past the last whole block (there are `24 mod n` of them) stay NaN. */
  lemma FillTailIsNan(g: Grid, h: int)
    requires Rectangular(g) && |g.cells| > 0 && 0 <= h < 24
    requires (h - g.index[0]) % 24 >= |g.cells| * (24 / |g.cells|)
    ensures FillResult(g).value.cells[h] == NanRow(g.columns)
  {
    var n := |g.cells|;
    var interval := 24 / n;
    var p := (h - g.index[0]) % 24;
    if interval > 0 {
      PastLastBlock(p, interval, n);
    }
  }

  /** A position at or past `n` whole blocks lies in block `n` or later. */
  lemma PastLastBlock(p: int, interval: int, n: int)
    requires interval > 0 && 0 <= n && n * interval <= p
    ensures p / interval >= n
  {
    var k := p / interval;
    assert k * interval <= p < (k + 1) * interval;
    MulMono(k + 1, n, interval);
  }

  lemma MulMono(a: int, b: int, w: int)
    requires 0 <= w
    ensures a <= b ==> a * w <= b * w
  {
    assert b * w - a * w == (b - a) * w;
  }
}
