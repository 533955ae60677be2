/** Sums and means over sequences of reals: numpy's `np.mean`, pandas' `Series.mean`
    (after `dropna`) and Python's built-in `sum`. */
module Stats {
  import opened Wrappers

  function Sum(s: seq<real>): real {
    if s == [] then 0.0 else s[0] + Sum(s[1..])
  }

  /** The mean; NaN (`None`) for an empty sequence, as numpy and pandas give. */
  function Mean(s: seq<real>): (m: Option<real>)
    ensures m.Some? <==> |s| > 0
  {
    if s == [] then None else Some(Sum(s) / |s| as real)
  }

  /** Every element multiplied by `c`. */
  function Scaled(s: seq<real>, c: real): (r: seq<real>)
    ensures |r| == |s| && forall i :: 0 <= i < |s| ==> r[i] == c * s[i]
  {
    seq(|s|, i requires 0 <= i < |s| => c * s[i])
  }

  lemma {:induction false} SumAppend(a: seq<real>, b: seq<real>)
    ensures Sum(a + b) == Sum(a) + Sum(b)
  {
    if a == [] {
      assert a + b == b;
    } else {
      assert (a + b)[0] == a[0];
      assert (a + b)[1..] == a[1..] + b;
      SumAppend(a[1..], b);
    }
  }

  lemma {:induction false} SumScaled(s: seq<real>, c: real)
    ensures Sum(Scaled(s, c)) == c * Sum(s)
  {
    if s != [] {
      var r := Scaled(s, c);
      var q := Scaled(s[1..], c);
      forall i | 0 <= i < |q| ensures r[1..][i] == q[i] {
        assert r[1..][i] == r[i + 1];
        assert s[1..][i] == s[i + 1];
      }
      assert r[1..] == q;
      SumScaled(s[1..], c);
    }
  }

  /** Scaling every value scales the mean by the same factor. */
  lemma MeanScaled(s: seq<real>, c: real)
    ensures Mean(Scaled(s, c)).Some? <==> Mean(s).Some?
    ensures Mean(s).Some? ==> Mean(Scaled(s, c)).value == c * Mean(s).value
  {
    SumScaled(s, c);
    if s != [] {
      var n := |s| as real;
      var t := Sum(s);
      assert (c * t) / n == c * (t / n);
    }
  }

  lemma {:induction false} SumBounds(s: seq<real>, lo: real, hi: real)
    requires forall i :: 0 <= i < |s| ==> lo <= s[i] <= hi
    ensures lo * |s| as real <= Sum(s) <= hi * |s| as real
  {
    if s != [] {
      SumBounds(s[1..], lo, hi);
    }
  }

  lemma {:induction false} SumStrictlyAbove(s: seq<real>, lo: real)
    requires |s| > 0 && forall i :: 0 <= i < |s| ==> lo < s[i]
    ensures lo * |s| as real < Sum(s)
  {
    if |s| > 1 {
      SumStrictlyAbove(s[1..], lo);
    }
  }

  /** A mean lies between any bounds of its elements. */
  lemma MeanBounds(s: seq<real>, lo: real, hi: real)
    requires |s| > 0 && forall i :: 0 <= i < |s| ==> lo <= s[i] <= hi
    ensures lo <= Mean(s).value <= hi
  {
    SumBounds(s, lo, hi);
    var n := |s| as real;
    assert Sum(s) / n >= (lo * n) / n;
    assert Sum(s) / n <= (hi * n) / n;
  }

  /** Values all above `lo` have a mean above `lo`. */
  lemma MeanStrictlyAbove(s: seq<real>, lo: real)
    requires |s| > 0 && forall i :: 0 <= i < |s| ==> lo < s[i]
    ensures lo < Mean(s).value
  {
    SumStrictlyAbove(s, lo);
    var n := |s| as real;
    assert Sum(s) / n > (lo * n) / n;
  }

  /** When every element of `a` is at most every element of `b`, so are their means. */
  lemma MeanOrdered(a: seq<real>, b: seq<real>)
    requires |a| > 0 && |b| > 0
    requires forall i, j :: 0 <= i < |a| && 0 <= j < |b| ==> a[i] <= b[j]
    ensures Mean(a).value <= Mean(b).value
  {
    var lo := MaxOf(a);
    MeanBounds(a, MinOf(a), lo);
    forall j | 0 <= j < |b| ensures lo <= b[j] <= MaxOf(b) {
      var i :| 0 <= i < |a| && a[i] == lo;
    }
    MeanBounds(b, lo, MaxOf(b));
  }

  function MaxOf(s: seq<real>): (m: real)
    requires |s| > 0
    ensures (exists i :: 0 <= i < |s| && s[i] == m) && forall i :: 0 <= i < |s| ==> s[i] <= m
  {
    if |s| == 1 then s[0]
    else
      var r := MaxOf(s[1..]);
      assert forall i :: 1 <= i < |s| ==> s[i] == s[1..][i - 1];
      if s[0] >= r then s[0] else r
  }

  function MinOf(s: seq<real>): (m: real)
    requires |s| > 0
    ensures (exists i :: 0 <= i < |s| && s[i] == m) && forall i :: 0 <= i < |s| ==> m <= s[i]
  {
    if |s| == 1 then s[0]
    else
      var r := MinOf(s[1..]);
      assert forall i :: 1 <= i < |s| ==> s[i] == s[1..][i - 1];
      if s[0] <= r then s[0] else r
  }
}
