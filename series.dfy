/** Time-indexed series, the shape every pandas Series of the core takes: a timestamp
    (whole seconds) per row and a value that may be NaN (`None`). */
module TimeSeries {
  import opened Wrappers
  import opened Sorting

  datatype Obs = Obs(t: int, v: Option<real>)
  type Series = seq<Obs>

  /** The sort key of `sort_index`. */
  function Time(o: Obs): real { o.t as real }

  /** A time index without duplicates, in increasing order. */
  ghost predicate Ordered(s: Series) {
    forall i, j :: 0 <= i < j < |s| ==> s[i].t < s[j].t
  }

  lemma OrderedIsStrictlySorted(s: Series)
    ensures Ordered(s) <==> StrictlySortedBy(s, Time)
  {
  }

  /** The index of a series as a set of timestamps. */
  function Keys(s: Series): set<int> {
    set i | 0 <= i < |s| :: s[i].t
  }

  /** `s.get(t)`: the value at timestamp `t`, NaN when `t` is not in the index. */
  function ValueAt(s: Series, t: int): Option<real> {
    if s == [] then None
    else if s[0].t == t then s[0].v
    else ValueAt(s[1..], t)
  }

  lemma {:induction false} ValueAtMissing(s: Series, t: int)
    requires t !in Keys(s)
    ensures ValueAt(s, t) == None
  {
    if s != [] {
      assert s[0].t in Keys(s);
      assert Keys(s[1..]) <= Keys(s) by {
        forall u | u in Keys(s[1..]) ensures u in Keys(s) {
          var i :| 0 <= i < |s[1..]| && s[1..][i].t == u;
          assert s[i + 1].t == u;
        }
      }
      ValueAtMissing(s[1..], t);
    }
  }

  lemma {:induction false} ValueAtIndex(s: Series, i: int)
    requires Ordered(s) && 0 <= i < |s|
    ensures ValueAt(s, s[i].t) == s[i].v
  {
    if i > 0 {
      assert s[0].t < s[i].t;
      assert s[1..][i - 1] == s[i];
      ValueAtIndex(s[1..], i - 1);
    }
  }

  /** The rows of `s` that satisfy `p`, in their order: boolean-mask selection. */
  function Where(s: Series, p: Obs -> bool): (r: Series)
    ensures forall o :: o in r <==> o in s && p(o)
    ensures |r| <= |s|
    ensures Ordered(s) ==> Ordered(r)
  {
    if s == [] then []
    else
      var rest := Where(s[1..], p);
      assert forall o :: o in s <==> o == s[0] || o in s[1..];
      if p(s[0]) then
        assert Ordered(s) ==> forall o :: o in rest ==> s[0].t < o.t;
        [s[0]] + rest
      else rest
  }

  /** `dropna()`. */
  function DropNa(s: Series): (r: Series)
    ensures forall o :: o in r <==> o in s && o.v.Some?
    ensures Ordered(s) ==> Ordered(r)
  {
    Where(s, (o: Obs) => o.v.Some?)
  }

  /** Label slicing `s[lo:hi]`, both ends included. */
  function Window(s: Series, lo: int, hi: int): (r: Series)
    ensures forall o :: o in r <==> o in s && lo <= o.t <= hi
    ensures Ordered(s) ==> Ordered(r)
  {
    Where(s, (o: Obs) => lo <= o.t <= hi)
  }

  /** The non-NaN values of `s`, in index order. */
  function Values(s: Series): (r: seq<real>)
    ensures |r| <= |s|
  {
    if s == [] then []
    else (if s[0].v.Some? then [s[0].v.value] else []) + Values(s[1..])
  }

  /** A row of `pd.concat([a, b], axis=1)` (an outer join): NaN where a side has no row. */
  datatype Joined = Joined(t: int, x: Option<real>, y: Option<real>)

  function JoinedTimes(r: seq<Joined>): set<int> {
    set i | 0 <= i < |r| :: r[i].t
  }

  /** The outer join of two series on their index, in index order. */
  function OuterJoin(a: Series, b: Series): (r: seq<Joined>)
    decreases |a| + |b|
  {
    if a == [] && b == [] then []
    else if b == [] || (a != [] && a[0].t < b[0].t) then
      [Joined(a[0].t, a[0].v, None)] + OuterJoin(a[1..], b)
    else if a == [] || b[0].t < a[0].t then
      [Joined(b[0].t, None, b[0].v)] + OuterJoin(a, b[1..])
    else
      [Joined(a[0].t, a[0].v, b[0].v)] + OuterJoin(a[1..], b[1..])
  }

  lemma KeysTail(s: Series)
    requires s != []
    ensures Keys(s) == {s[0].t} + Keys(s[1..])
  {
    forall u | u in Keys(s) ensures u in {s[0].t} + Keys(s[1..]) {
      var i :| 0 <= i < |s| && s[i].t == u;
      if i > 0 { assert s[1..][i - 1].t == u; }
    }
    forall u | u in Keys(s[1..]) ensures u in Keys(s) {
      var i :| 0 <= i < |s[1..]| && s[1..][i].t == u;
      assert s[i + 1].t == u;
    }
  }

  lemma OrderedTail(s: Series)
    requires s != [] && Ordered(s)
    ensures Ordered(s[1..])
    ensures forall u :: u in Keys(s[1..]) ==> s[0].t < u
  {
    forall u | u in Keys(s[1..]) ensures s[0].t < u {
      var i :| 0 <= i < |s[1..]| && s[1..][i].t == u;
      assert s[i + 1].t == u;
    }
  }

  lemma JoinedTimesCons(h: Joined, r: seq<Joined>)
    ensures JoinedTimes([h] + r) == {h.t} + JoinedTimes(r)
  {
    var c := [h] + r;
    assert c[0] == h;
    forall u | u in JoinedTimes(c) ensures u in {h.t} + JoinedTimes(r) {
      var i :| 0 <= i < |c| && c[i].t == u;
      if i > 0 { assert c[i] == r[i - 1]; }
    }
    forall u | u in JoinedTimes(r) ensures u in JoinedTimes(c) {
      var i :| 0 <= i < |r| && r[i].t == u;
      assert c[i + 1].t == u;
    }
  }

  /** What the outer join promises: index order, the union of the two indexes, and each
      side's own value (NaN where it has no row). */
  ghost predicate IsOuterJoin(a: Series, b: Series, r: seq<Joined>) {
    && (forall i, j :: 0 <= i < j < |r| ==> r[i].t < r[j].t)
    && JoinedTimes(r) == Keys(a) + Keys(b)
    && (forall k :: 0 <= k < |r| ==> r[k].x == ValueAt(a, r[k].t) && r[k].y == ValueAt(b, r[k].t))
  }

  lemma {:induction false} OuterJoinCorrect(a: Series, b: Series)
    requires Ordered(a) && Ordered(b)
    ensures IsOuterJoin(a, b, OuterJoin(a, b))
    decreases |a| + |b|
  {
    if a == [] && b == [] {
    } else if b == [] || (a != [] && a[0].t < b[0].t) {
      OrderedTail(a);
      OuterJoinCorrect(a[1..], b);
      JoinStepLeft(a, b);
    } else if a == [] || b[0].t < a[0].t {
      OrderedTail(b);
      OuterJoinCorrect(a, b[1..]);
      JoinStepRight(a, b);
    } else {
      OrderedTail(a);
      OrderedTail(b);
      OuterJoinCorrect(a[1..], b[1..]);
      JoinStepBoth(a, b);
    }
  }

  /** One step of the merge: a head row below every later key, carrying each side's value. */
  lemma {:induction false} JoinCons(a: Series, b: Series, a': Series, b': Series, h: Joined, rest: seq<Joined>)
    requires IsOuterJoin(a', b', rest)
    requires Keys(a) + Keys(b) == {h.t} + Keys(a') + Keys(b')
    requires forall u :: u in Keys(a') + Keys(b') ==> h.t < u
    requires h.x == ValueAt(a, h.t) && h.y == ValueAt(b, h.t)
    requires forall u :: u in Keys(a') + Keys(b') ==> ValueAt(a, u) == ValueAt(a', u) && ValueAt(b, u) == ValueAt(b', u)
    ensures IsOuterJoin(a, b, [h] + rest)
  {
    JoinedTimesCons(h, rest);
    JoinedOrderedCons(h, rest);
    var c := [h] + rest;
    forall k | 0 <= k < |c| ensures c[k].x == ValueAt(a, c[k].t) && c[k].y == ValueAt(b, c[k].t) {
      if k > 0 {
        assert c[k] == rest[k - 1];
        assert rest[k - 1].t in JoinedTimes(rest);
      }
    }
  }

  /** Past the head of an ordered series (or off its index), lookups see only the tail. */
  lemma ValueAtTail(s: Series, u: int)
    requires s != [] && u != s[0].t
    ensures ValueAt(s, u) == ValueAt(s[1..], u)
  {
  }

  lemma JoinStepLeft(a: Series, b: Series)
    requires Ordered(a) && Ordered(b) && a != [] && (b == [] || a[0].t < b[0].t)
    requires IsOuterJoin(a[1..], b, OuterJoin(a[1..], b))
    ensures IsOuterJoin(a, b, OuterJoin(a, b))
  {
    var rest := OuterJoin(a[1..], b);
    var h := Joined(a[0].t, a[0].v, None);
    assert OuterJoin(a, b) == [h] + rest;
    OrderedTail(a);
    KeysTail(a);
    if b != [] { OrderedAbove(b, a[0].t); }
    ValueAtMissing(b, a[0].t);
    forall u | u in Keys(a[1..]) + Keys(b) ensures ValueAt(a, u) == ValueAt(a[1..], u) {
      ValueAtTail(a, u);
    }
    JoinCons(a, b, a[1..], b, h, rest);
  }

  lemma JoinStepRight(a: Series, b: Series)
    requires Ordered(a) && Ordered(b) && b != [] && (a == [] || b[0].t < a[0].t)
    requires IsOuterJoin(a, b[1..], OuterJoin(a, b[1..]))
    ensures IsOuterJoin(a, b, OuterJoin(a, b))
  {
    var rest := OuterJoin(a, b[1..]);
    var h := Joined(b[0].t, None, b[0].v);
    assert OuterJoin(a, b) == [h] + rest;
    OrderedTail(b);
    KeysTail(b);
    if a != [] { OrderedAbove(a, b[0].t); }
    ValueAtMissing(a, b[0].t);
    forall u | u in Keys(a) + Keys(b[1..]) ensures ValueAt(b, u) == ValueAt(b[1..], u) {
      ValueAtTail(b, u);
    }
    JoinCons(a, b, a, b[1..], h, rest);
  }

  lemma JoinStepBoth(a: Series, b: Series)
    requires Ordered(a) && Ordered(b) && a != [] && b != [] && a[0].t == b[0].t
    requires IsOuterJoin(a[1..], b[1..], OuterJoin(a[1..], b[1..]))
    ensures IsOuterJoin(a, b, OuterJoin(a, b))
  {
    var rest := OuterJoin(a[1..], b[1..]);
    var h := Joined(a[0].t, a[0].v, b[0].v);
    assert OuterJoin(a, b) == [h] + rest;
    OrderedTail(a);
    OrderedTail(b);
    KeysTail(a);
    KeysTail(b);
    forall u | u in Keys(a[1..]) + Keys(b[1..])
      ensures ValueAt(a, u) == ValueAt(a[1..], u) && ValueAt(b, u) == ValueAt(b[1..], u)
    {
      ValueAtTail(a, u);
      ValueAtTail(b, u);
    }
    JoinCons(a, b, a[1..], b[1..], h, rest);
  }

  lemma JoinedOrderedCons(h: Joined, r: seq<Joined>)
    requires forall i, j :: 0 <= i < j < |r| ==> r[i].t < r[j].t
    requires forall u :: u in JoinedTimes(r) ==> h.t < u
    ensures forall i, j :: 0 <= i < j < |[h] + r| ==> ([h] + r)[i].t < ([h] + r)[j].t
  {
    var c := [h] + r;
    forall i, j | 0 <= i < j < |c| ensures c[i].t < c[j].t {
      assert c[j] == r[j - 1];
      assert r[j - 1].t in JoinedTimes(r);
      if i > 0 { assert c[i] == r[i - 1]; }
    }
  }

  /** Every key of an ordered series lies above any time below its first key. */
  lemma OrderedAbove(s: Series, t: int)
    requires s != [] && Ordered(s) && t < s[0].t
    ensures forall u :: u in Keys(s) ==> t < u
  {
  }



  /** Element-wise arithmetic: the index is kept and `g` is applied to every value. */
  function MapValues(s: Series, g: Option<real> -> Option<real>): (r: Series)
    ensures |r| == |s| && forall i :: 0 <= i < |s| ==> r[i].t == s[i].t && r[i].v == g(s[i].v)
  {
    seq(|s|, i requires 0 <= i < |s| => Obs(s[i].t, g(s[i].v)))
  }

  lemma MapValuesKeepsIndex(s: Series, g: Option<real> -> Option<real>)
    ensures Ordered(s) ==> Ordered(MapValues(s, g))
    ensures Keys(MapValues(s, g)) == Keys(s)
  {
    var r := MapValues(s, g);
    forall u | u in Keys(s) ensures u in Keys(r) {
      var i :| 0 <= i < |s| && s[i].t == u;
      assert r[i].t == u;
    }
  }

  /** Element-wise arithmetic that keeps NaN as NaN reads back pointwise. */
  lemma ValueAtMapValues(s: Series, g: Option<real> -> Option<real>, t: int)
    requires Ordered(s) && g(None) == None
    ensures ValueAt(MapValues(s, g), t) == g(ValueAt(s, t))
  {
    var r := MapValues(s, g);
    MapValuesKeepsIndex(s, g);
    if t in Keys(s) {
      var i :| 0 <= i < |s| && s[i].t == t;
      ValueAtIndex(s, i);
      ValueAtIndex(r, i);
    } else {
      ValueAtMissing(s, t);
      ValueAtMissing(r, t);
    }
  }

  /** The series of a join's timestamps with one value per row. */
  function JoinedValues(j: seq<Joined>, pick: Joined -> Option<real>): (r: Series)
    ensures |r| == |j| && forall i :: 0 <= i < |j| ==> r[i] == Obs(j[i].t, pick(j[i]))
  {
    seq(|j|, i requires 0 <= i < |j| => Obs(j[i].t, pick(j[i])))
  }

  /** `a.combine_first(b)`: the union of the indexes, with `a`'s value wherever it is not
      NaN and `b`'s otherwise. */
  function CombineFirst(a: Series, b: Series): Series {
    JoinedValues(OuterJoin(a, b), (j: Joined) => if j.x.Some? then j.x else j.y)
  }

  lemma CombineFirstCorrect(a: Series, b: Series)
    requires Ordered(a) && Ordered(b)
    ensures Ordered(CombineFirst(a, b))
    ensures Keys(CombineFirst(a, b)) == Keys(a) + Keys(b)
    ensures forall t :: ValueAt(CombineFirst(a, b), t)
                     == if ValueAt(a, t).Some? then ValueAt(a, t) else ValueAt(b, t)
  {
    var j := OuterJoin(a, b);
    OuterJoinCorrect(a, b);
    var r := CombineFirst(a, b);
    assert Keys(r) == JoinedTimes(j) by {
      forall u | u in JoinedTimes(j) ensures u in Keys(r) {
        var i :| 0 <= i < |j| && j[i].t == u;
        assert r[i].t == u;
      }
    }
    forall t ensures ValueAt(r, t) == if ValueAt(a, t).Some? then ValueAt(a, t) else ValueAt(b, t) {
      if t in Keys(r) {
        var i :| 0 <= i < |r| && r[i].t == t;
        ValueAtIndex(r, i);
      } else {
        ValueAtMissing(r, t);
        ValueAtMissing(a, t);
        ValueAtMissing(b, t);
      }
    }
  }

  /** `pd.concat([a, b], axis=1, join='inner')`: the rows of `a` whose timestamp is also
      in `b`, with both values (NaN values are kept). */
  function InnerJoin(a: Series, b: Series): (r: seq<Joined>)
    ensures |r| <= |a|
  {
    if a == [] then []
    else
      (if a[0].t in Keys(b) then [Joined(a[0].t, a[0].v, ValueAt(b, a[0].t))] else [])
      + InnerJoin(a[1..], b)
  }

  /** What the inner join promises: index order, the intersection of the indexes, and
      both sides' values. */
  ghost predicate IsInnerJoin(a: Series, b: Series, r: seq<Joined>) {
    && (forall i, j :: 0 <= i < j < |r| ==> r[i].t < r[j].t)
    && JoinedTimes(r) == Keys(a) * Keys(b)
    && (forall k :: 0 <= k < |r| ==> r[k].x == ValueAt(a, r[k].t) && r[k].y == ValueAt(b, r[k].t))
  }

  lemma {:induction false} InnerJoinCorrect(a: Series, b: Series)
    requires Ordered(a)
    ensures IsInnerJoin(a, b, InnerJoin(a, b))
  {
    if a != [] {
      OrderedTail(a);
      InnerJoinCorrect(a[1..], b);
      if a[0].t in Keys(b) {
        InnerStepKeep(a, b, InnerJoin(a[1..], b));
      } else {
        assert InnerJoin(a, b) == InnerJoin(a[1..], b);
        InnerStepSkip(a, b, InnerJoin(a[1..], b));
      }
    }
  }

  lemma InnerTailFacts(a: Series, b: Series, rest: seq<Joined>)
    requires a != [] && Ordered(a) && IsInnerJoin(a[1..], b, rest)
    ensures forall k :: 0 <= k < |rest| ==> a[0].t < rest[k].t && ValueAt(a, rest[k].t) == ValueAt(a[1..], rest[k].t)
    ensures Keys(a) == {a[0].t} + Keys(a[1..])
  {
    OrderedTail(a);
    KeysTail(a);
    forall k | 0 <= k < |rest| ensures a[0].t < rest[k].t {
      assert rest[k].t in JoinedTimes(rest);
    }
  }

  lemma InnerStepSkip(a: Series, b: Series, rest: seq<Joined>)
    requires a != [] && Ordered(a) && IsInnerJoin(a[1..], b, rest) && a[0].t !in Keys(b)
    ensures IsInnerJoin(a, b, rest)
  {
    InnerTailFacts(a, b, rest);
  }

  lemma InnerStepKeep(a: Series, b: Series, rest: seq<Joined>)
    requires a != [] && Ordered(a) && IsInnerJoin(a[1..], b, rest) && a[0].t in Keys(b)
    ensures IsInnerJoin(a, b, [Joined(a[0].t, a[0].v, ValueAt(b, a[0].t))] + rest)
  {
    InnerTailFacts(a, b, rest);
    var h := Joined(a[0].t, a[0].v, ValueAt(b, a[0].t));
    JoinedTimesCons(h, rest);
    var r := [h] + rest;
    forall i, j | 0 <= i < j < |r| ensures r[i].t < r[j].t {
      if i > 0 { assert r[i] == rest[i - 1]; }
      assert r[j] == rest[j - 1];
    }
    forall k | 0 <= k < |r| ensures r[k].x == ValueAt(a, r[k].t) && r[k].y == ValueAt(b, r[k].t) {
      if k > 0 { assert r[k] == rest[k - 1]; }
    }
  }
}
