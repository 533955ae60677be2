/** `MultipleLinearRegression`: the renaming and inner join of the reference series in
    `_merge_ref_spds`, the dot-product `_predict` and `plot`. The fitted slopes and
    offset (from `lstsq`) are inputs. */
module MultipleRegression {
  import opened Wrappers
  import opened Errors
  import opened TimeSeries
  import opened CorrelBase

  // ---------------------------------------------------------------------------
  // str(n) and the suffixed names

  function Digit(d: nat): (c: char)
    requires d < 10
    ensures '0' <= c <= '9'
  {
    ('0' as int + d) as char
  }

  /** `str(n)` for a whole number: its decimal digits, no sign, no leading zero. */
  function Str(n: nat): (s: string)
    ensures |s| > 0 && forall i :: 0 <= i < |s| ==> '0' <= s[i] <= '9'
    ensures n >= 10 ==> |s| >= 2
  {
    if n < 10 then [Digit(n)] else Str(n / 10) + [Digit(n % 10)]
  }

  /** Different numbers print differently. */
  lemma {:induction false} StrInjective(m: nat, n: nat)
    requires Str(m) == Str(n)
    ensures m == n
  {
    if m >= 10 && n >= 10 {
      var sm, sn := Str(m), Str(n);
      assert sm[|sm| - 1] == Digit(m % 10) && sn[|sn| - 1] == Digit(n % 10);
      assert sm[..|sm| - 1] == Str(m / 10) && sn[..|sn| - 1] == Str(n / 10);
      StrInjective(m / 10, n / 10);
    }
  }

  /** A suffix of digits that is longer than another cannot end the same name: the
      shorter one's underscore meets a digit. */
  lemma LongerDigitsDiffer(a: string, b: string, u: string, v: string)
    requires |u| < |v| && forall k :: 0 <= k < |v| ==> '0' <= v[k] <= '9'
    ensures a + "_" + u != b + "_" + v
  {
    var w, w2 := a + "_" + u, b + "_" + v;
    if |w| == |w2| {
      assert w[|a|] == '_';
      assert w2[|a|] == v[|a| - |b| - 1];
    }
  }

  /** A name with the suffix `_<number>` determines the number: the digits after the
      last underscore. */
  lemma SuffixInjective(a: string, b: string, i: nat, j: nat)
    requires a + "_" + Str(i) == b + "_" + Str(j)
    ensures i == j
  {
    var u, v := Str(i), Str(j);
    var w, w2 := a + "_" + u, b + "_" + v;
    if |u| < |v| {
      LongerDigitsDiffer(a, b, u, v);
    } else if |v| < |u| {
      LongerDigitsDiffer(b, a, v, u);
    } else {
      assert u == w[|w| - |u|..];
      assert v == w2[|w2| - |v|..];
      StrInjective(i, j);
    }
  }

  /** The evident intent of the renaming: series `k` is called `name_k + '_' + str(k+1)`,
      what `ref_spd.rename(...)` on copies would give. */
  function RenamedCopies(names: seq<string>): (r: seq<string>)
    ensures |r| == |names|
  {
    seq(|names|, k requires 0 <= k < |names| => names[k] + "_" + Str(k + 1))
  }

  /** Renamed copies have pairwise distinct names, whatever the input names are. */
  lemma RenamedCopiesDistinct(names: seq<string>, i: int, j: int)
    requires 0 <= i < |names| && 0 <= j < |names| && i != j
    ensures RenamedCopies(names)[i] != RenamedCopies(names)[j]
  {
    if RenamedCopies(names)[i] == RenamedCopies(names)[j] {
      SuffixInjective(names[i], names[j], i + 1, j + 1);
    }
  }

  // ---------------------------------------------------------------------------
  // The in-place renaming of `_merge_ref_spds`

  /** A reference speed series object: its `name` is reassigned in place. */
  class RefSeries {
    var name: string
    const values: Series

    constructor(name: string, values: Series)
      ensures this.name == name && this.values == values
    {
      this.name := name;
      this.values := values;
    }
  }

  /** The suffixes the loop has appended to object `o` after visiting positions
      `0 .. n - 1`: one `_<k+1>` for every position `k` that holds `o`. */
  function Suffixes(refs: seq<RefSeries>, o: RefSeries, n: nat): string
    requires n <= |refs|
  {
    if n == 0 then ""
    else Suffixes(refs, o, n - 1) + (if refs[n - 1] == o then "_" + Str(n) else "")
  }

  /** When no object occurs twice, the object at position `k` gets exactly `_<k+1>`. */
  lemma {:induction false} DistinctSuffixes(refs: seq<RefSeries>, k: int, n: nat)
    requires forall i, j :: 0 <= i < j < |refs| ==> refs[i] != refs[j]
    requires 0 <= k < n <= |refs|
    ensures Suffixes(refs, refs[k], n) == "_" + Str(k + 1)
  {
    if n - 1 > k {
      DistinctSuffixes(refs, k, n - 1);
    } else {
      NoEarlierSuffix(refs, k, k);
    }
  }

  lemma {:induction false} NoEarlierSuffix(refs: seq<RefSeries>, k: int, n: nat)
    requires forall i, j :: 0 <= i < j < |refs| ==> refs[i] != refs[j]
    requires 0 <= n <= k < |refs|
    ensures Suffixes(refs, refs[k], n) == ""
  {
    if n > 0 {
      NoEarlierSuffix(refs, k, n - 1);
    }
  }

  /** The names of the objects, in list order. */
  function Names(refs: seq<RefSeries>): (r: seq<string>)
    reads refs
    ensures |r| == |refs| && forall k :: 0 <= k < |refs| ==> r[k] == refs[k].name
  {
    seq(|refs|, k requires 0 <= k < |refs| reads refs => refs[k].name)
  }

  /** The values an object carries. */
  function SeriesOf(x: RefSeries): Series { x.values }

  /** `_merge_ref_spds`: append `'_' + str(idx + 1)` to the name of the object at each
      position, then join the series on their common timestamps. An object that occurs
      at several positions collects every one of its suffixes. */
  method MergeRefSpds(refs: seq<RefSeries>) returns (r: Result<Frame, PyError>)
    modifies set s | s in refs
    ensures forall k :: 0 <= k < |refs| ==> refs[k].name == old(refs[k].name) + Suffixes(refs, refs[k], |refs|)
    ensures r == ConcatInner(Names(refs), MapSeq(refs, SeriesOf))
  {
    for i := 0 to |refs|
      invariant forall k :: 0 <= k < |refs| ==> refs[k].name == old(refs[k].name) + Suffixes(refs, refs[k], i)
    {
      refs[i].name := refs[i].name + "_" + Str(i + 1);
    }
    r := ConcatInner(Names(refs), MapSeq(refs, SeriesOf));
  }

  /** Without repeated objects the renaming is the intended one. */
  lemma MergeDistinctObjects(refs: seq<RefSeries>, names0: seq<string>, k: int)
    requires forall i, j :: 0 <= i < j < |refs| ==> refs[i] != refs[j]
    requires |names0| == |refs| && 0 <= k < |refs|
    ensures names0[k] + Suffixes(refs, refs[k], |refs|) == RenamedCopies(names0)[k]
  {
    DistinctSuffixes(refs, k, |refs|);
  }

  /** As written, one object passed twice ends with one name for both columns, carrying
      both suffixes. */
  lemma AliasedSeriesShareName(s: RefSeries)
    ensures Suffixes([s, s], s, 2) == "_1_2"
  {
    assert Str(1) == "1" && Str(2) == "2";
    assert Suffixes([s, s], s, 1) == "_1";
  }

  // ---------------------------------------------------------------------------
  // pd.concat(ref_spds, axis=1, join='inner')

  datatype FrameRow = FrameRow(t: int, values: seq<Option<real>>)
  datatype Frame = Frame(columns: seq<string>, rows: seq<FrameRow>)

  /** The timestamp is in every column's index. */
  predicate InAll(cols: seq<Series>, t: int) {
    forall k :: 0 <= k < |cols| ==> t in Keys(cols[k])
  }

  /** The rows of `s` whose timestamp is in every column, with every column's value. */
  function InnerRows(s: Series, cols: seq<Series>): (r: seq<FrameRow>)
    ensures forall i :: 0 <= i < |r| ==>
      |r[i].values| == |cols| && forall k :: 0 <= k < |cols| ==> r[i].values[k] == ValueAt(cols[k], r[i].t)
  {
    if s == [] then []
    else
      var t := s[0].t;
      (if InAll(cols, t) then [FrameRow(t, seq(|cols|, k requires 0 <= k < |cols| => ValueAt(cols[k], t)))] else [])
      + InnerRows(s[1..], cols)
  }

  function RowTimes(r: seq<FrameRow>): set<int> {
    set i | 0 <= i < |r| :: r[i].t
  }

  lemma RowTimesCons(x: FrameRow, rest: seq<FrameRow>)
    ensures RowTimes([x] + rest) == {x.t} + RowTimes(rest)
  {
    var r := [x] + rest;
    forall t | t in RowTimes(r) ensures t == x.t || t in RowTimes(rest) {
      var i :| 0 <= i < |r| && r[i].t == t;
      if i > 0 { assert rest[i - 1].t == t; }
    }
    forall t | t in RowTimes(rest) ensures t in RowTimes(r) {
      var i :| 0 <= i < |rest| && rest[i].t == t;
      assert r[i + 1].t == t;
    }
    assert r[0].t == x.t;
  }

  /** The joined rows are in time order and their timestamps are exactly those of `s`
      found in every column. */
  lemma {:induction false} InnerRowsCorrect(s: Series, cols: seq<Series>)
    requires Ordered(s)
    ensures var r := InnerRows(s, cols);
      (forall i, j :: 0 <= i < j < |r| ==> r[i].t < r[j].t)
      && forall t :: t in RowTimes(r) <==> t in Keys(s) && InAll(cols, t)
  {
    if s != [] {
      OrderedTail(s);
      KeysTail(s);
      InnerRowsCorrect(s[1..], cols);
      var rest := InnerRows(s[1..], cols);
      forall i | 0 <= i < |rest| ensures s[0].t < rest[i].t {
        assert rest[i].t in RowTimes(rest);
      }
      if InAll(cols, s[0].t) {
        RowTimesCons(InnerRows(s, cols)[0], rest);
      } else {
        assert InnerRows(s, cols) == rest;
      }
    }
  }

  /** `pd.concat` with no series raises `ValueError`; otherwise a frame named by the
      series, on the first series' timestamps found in all of them. */
  function ConcatInner(names: seq<string>, cols: seq<Series>): (r: Result<Frame, PyError>)
    ensures r.Err? <==> |cols| == 0
    ensures r.Err? ==> r.error == ValueError
    ensures r.Ok? ==> r.value.columns == names
  {
    if |cols| == 0 then Err(ValueError) else Ok(Frame(names, InnerRows(cols[0], cols)))
  }

  // ---------------------------------------------------------------------------
  // _predict and plot

  /** The terms of `x * slope`, NaN where the value is NaN. */
  function Terms(x: seq<Option<real>>, slope: seq<real>): (r: seq<Option<real>>)
    requires |x| == |slope|
    ensures |r| == |x| && forall k :: 0 <= k < |x| ==> r[k] == Linear(x[k], slope[k], 0.0)
  {
    seq(|x|, k requires 0 <= k < |x| => Linear(x[k], slope[k], 0.0))
  }

  /** `linear_function` on one row: `sum(x * slope) + offset`; the row and the slopes
      must have the same length, and a NaN anywhere in the row gives NaN. */
  function RowPredict(x: seq<Option<real>>, slope: seq<real>, offset: real): (r: Result<Option<real>, PyError>)
    ensures r.Err? <==> |x| != |slope|
    ensures r.Err? ==> r.error == ValueError
    ensures r.Ok? ==> (r.value.Some? <==> forall k :: 0 <= k < |x| ==> x[k].Some?)
  {
    if |x| != |slope| then Err(ValueError)
    else
      var s := PySum(Terms(x, slope));
      Ok(if s.Some? then Some(s.value + offset) else None)
  }

  /** `MultipleLinearRegression._predict`: `linear_function` on every row. */
  function DotPredict(rows: seq<FrameRow>, slope: seq<real>, offset: real): (r: Result<Series, PyError>)
    ensures r.Err? <==> exists i :: 0 <= i < |rows| && |rows[i].values| != |slope|
    ensures r.Ok? ==> |r.value| == |rows| && forall i :: 0 <= i < |rows| ==>
      r.value[i].t == rows[i].t && Ok(r.value[i].v) == RowPredict(rows[i].values, slope, offset)
  {
    if rows == [] then Ok([])
    else
      var head := RowPredict(rows[0].values, slope, offset);
      var rest := DotPredict(rows[1..], slope, offset);
      assert forall i :: 1 <= i < |rows| ==> rows[i] == rows[1..][i - 1];
      if head.Err? then Err(head.error)
      else if rest.Err? then Err(rest.error)
      else Ok([Obs(rows[0].t, head.value)] + rest.value)
  }

  /** With one reference series the regression predicts with the ordinary line. */
  lemma OneReferenceIsLinear(x: Option<real>, slope: real, offset: real)
    ensures RowPredict([x], [slope], offset) == Ok(Linear(x, slope, offset))
  {
    var ts := Terms([x], [slope]);
    assert ts[1..] == [];
    assert PySum(ts[1..]) == Some(0.0);
    if x.Some? {
      assert PySum(ts).value == x.value * slope + 0.0 + 0.0;
    }
  }

  /** Sums of term-wise sums. */
  lemma {:induction false} PySumAdd(a: seq<Option<real>>, b: seq<Option<real>>, c: seq<Option<real>>)
    requires |a| == |b| == |c|
    requires forall k :: 0 <= k < |a| ==> a[k].Some? && b[k].Some? && c[k] == Some(a[k].value + b[k].value)
    ensures PySum(c).Some? && PySum(c).value == PySum(a).value + PySum(b).value
  {
    if a != [] {
      assert forall k :: 1 <= k < |a| ==> a[k] == a[1..][k - 1] && b[k] == b[1..][k - 1] && c[k] == c[1..][k - 1];
      PySumAdd(a[1..], b[1..], c[1..]);
    }
  }

  /** The prediction is linear in the slopes: the sum of two models predicts the sum of
      their predictions (less one offset). */
  lemma RowPredictAdditive(x: seq<Option<real>>, s1: seq<real>, s2: seq<real>, o1: real, o2: real)
    requires |x| == |s1| == |s2| && forall k :: 0 <= k < |x| ==> x[k].Some?
    ensures var s := seq(|x|, k requires 0 <= k < |x| => s1[k] + s2[k]);
      RowPredict(x, s, o1 + o2).value.value
        == RowPredict(x, s1, o1).value.value + RowPredict(x, s2, o2).value.value
  {
    var s := seq(|x|, k requires 0 <= k < |x| => s1[k] + s2[k]);
    var a, b, c := Terms(x, s1), Terms(x, s2), Terms(x, s);
    forall k | 0 <= k < |x| ensures c[k] == Some(a[k].value + b[k].value) {
      var v := x[k].value;
      assert c[k].value == v * (s1[k] + s2[k]) + 0.0;
      assert a[k].value == v * s1[k] + 0.0 && b[k].value == v * s2[k] + 0.0;
    }
    PySumAdd(a, b, c);
  }

  /** `MultipleLinearRegression.plot` is not implemented. */
  function Plot(): (r: Result<(), PyError>)
    ensures r.Err? && r.error == NotImplementedError
  {
    Err(NotImplementedError)
  }
}
