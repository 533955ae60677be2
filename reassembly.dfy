/** The "select per group, transform, concatenate, sort by index" pattern that the
    sector and time-of-day loops use: each loop iteration filters the rows with a
    boolean mask, transforms the selection and appends it to the result, and the
    concatenation is finally sorted by timestamp. */
module Reassembly {
  import opened Wrappers
  import opened Sorting

  /** The rows of `s` that group `g` selects, each transformed by that group's rule,
      in input order. */
  function Part<A, B>(s: seq<A>, g: int, sel: (int, A) -> bool, f: (int, A) -> B): (r: seq<B>)
    ensures |r| <= |s|
  {
    if s == [] then []
    else (if sel(g, s[0]) then [f(g, s[0])] else []) + Part(s[1..], g, sel, f)
  }

  /** A group that selects no row contributes nothing. */
  lemma {:induction false} PartOfUnselected<A, B>(s: seq<A>, g: int, sel: (int, A) -> bool, f: (int, A) -> B)
    requires forall x :: x in s ==> !sel(g, x)
    ensures Part(s, g, sel, f) == []
  {
    if s != [] {
      assert s[0] in s;
      assert forall x :: x in s[1..] ==> x in s;
      PartOfUnselected(s[1..], g, sel, f);
    }
  }

  /** The parts of groups `lo`, ..., `hi - 1`, concatenated in loop order. */
  function Parts<A, B>(s: seq<A>, lo: int, hi: int, sel: (int, A) -> bool, f: (int, A) -> B): seq<B>
    decreases hi - lo
  {
    if hi <= lo then [] else Parts(s, lo, hi - 1, sel, f) + Part(s, hi - 1, sel, f)
  }

  /** What a single row contributes over all groups `lo`, ..., `hi - 1`. */
  function Emission<A, B>(x: A, lo: int, hi: int, sel: (int, A) -> bool, f: (int, A) -> B): seq<B>
    decreases hi - lo
  {
    if hi <= lo then []
    else Emission(x, lo, hi - 1, sel, f) + (if sel(hi - 1, x) then [f(hi - 1, x)] else [])
  }

  /** The contributions row by row, in input order. */
  function PerRow<A, B>(s: seq<A>, lo: int, hi: int, sel: (int, A) -> bool, f: (int, A) -> B): seq<B> {
    if s == [] then [] else Emission(s[0], lo, hi, sel, f) + PerRow(s[1..], lo, hi, sel, f)
  }

  lemma {:induction false} PartsOfEmpty<A, B>(lo: int, hi: int, sel: (int, A) -> bool, f: (int, A) -> B)
    ensures Parts([], lo, hi, sel, f) == []
    decreases hi - lo
  {
    if hi > lo {
      PartsOfEmpty(lo, hi - 1, sel, f);
    }
  }

  lemma {:induction false} PartsCons<A, B>(s: seq<A>, lo: int, hi: int, sel: (int, A) -> bool, f: (int, A) -> B)
    requires s != []
    ensures multiset(Parts(s, lo, hi, sel, f))
         == multiset(Emission(s[0], lo, hi, sel, f)) + multiset(Parts(s[1..], lo, hi, sel, f))
    decreases hi - lo
  {
    if hi > lo {
      PartsCons(s, lo, hi - 1, sel, f);
    }
  }

  /** The loop's concatenation holds exactly the per-row contributions, in some order. */
  lemma {:induction false} PartsPermutesPerRow<A, B>(s: seq<A>, lo: int, hi: int, sel: (int, A) -> bool, f: (int, A) -> B)
    ensures multiset(Parts(s, lo, hi, sel, f)) == multiset(PerRow(s, lo, hi, sel, f))
  {
    if s == [] {
      PartsOfEmpty(lo, hi, sel, f);
    } else {
      PartsCons(s, lo, hi, sel, f);
      PartsPermutesPerRow(s[1..], lo, hi, sel, f);
    }
  }

  /** The mapping row by row when each row belongs to at most one group, `grp(x)`:
      rows with a group are transformed by it, rows without one are dropped. */
  function Assigned<A, B>(s: seq<A>, grp: A -> Option<int>, f: (int, A) -> B): (r: seq<B>)
    ensures |r| <= |s|
  {
    if s == [] then []
    else (if grp(s[0]).Some? then [f(grp(s[0]).value, s[0])] else []) + Assigned(s[1..], grp, f)
  }

  /** When every row has a group, nothing is dropped: the mapping is row by row. */
  lemma {:induction false} AssignedTotal<A, B>(s: seq<A>, grp: A -> Option<int>, f: (int, A) -> B)
    requires forall x :: x in s ==> grp(x).Some?
    ensures |Assigned(s, grp, f)| == |s|
    ensures forall k :: 0 <= k < |s| ==> Assigned(s, grp, f)[k] == f(grp(s[k]).value, s[k])
  {
    if s != [] {
      assert s[0] in s;
      assert forall x :: x in s[1..] ==> x in s;
      AssignedTotal(s[1..], grp, f);
      forall k | 1 <= k < |s| ensures Assigned(s, grp, f)[k] == f(grp(s[k]).value, s[k]) {
        assert s[1..][k - 1] == s[k];
      }
    }
  }

  /** `grp` names the one group that selects each row, if any. */
  ghost predicate GroupOf<A>(s: seq<A>, lo: int, hi: int, sel: (int, A) -> bool, grp: A -> Option<int>) {
    forall x, g :: x in s && lo <= g < hi ==> (sel(g, x) <==> grp(x) == Some(g))
  }

  ghost predicate GroupsInRange<A>(s: seq<A>, lo: int, hi: int, grp: A -> Option<int>) {
    forall x :: x in s && grp(x).Some? ==> lo <= grp(x).value < hi
  }

  lemma {:induction false} EmissionOfGroup<A, B>(x: A, lo: int, hi: int, sel: (int, A) -> bool, f: (int, A) -> B, grp: A -> Option<int>)
    requires forall g :: lo <= g < hi ==> (sel(g, x) <==> grp(x) == Some(g))
    ensures Emission(x, lo, hi, sel, f)
         == if grp(x).Some? && lo <= grp(x).value < hi then [f(grp(x).value, x)] else []
    decreases hi - lo
  {
    if hi > lo {
      EmissionOfGroup(x, lo, hi - 1, sel, f, grp);
    }
  }

  lemma {:induction false} PerRowIsAssigned<A, B>(s: seq<A>, lo: int, hi: int, sel: (int, A) -> bool, f: (int, A) -> B, grp: A -> Option<int>)
    requires GroupOf(s, lo, hi, sel, grp) && GroupsInRange(s, lo, hi, grp)
    ensures PerRow(s, lo, hi, sel, f) == Assigned(s, grp, f)
  {
    if s != [] {
      assert s[0] in s;
      EmissionOfGroup(s[0], lo, hi, sel, f, grp);
      assert forall x :: x in s[1..] ==> x in s;
      PerRowIsAssigned(s[1..], lo, hi, sel, f, grp);
    }
  }

  lemma {:induction false} AssignedKeys<A, B>(s: seq<A>, grp: A -> Option<int>, f: (int, A) -> B, keyA: A -> real, key: B -> real, y: B)
    requires forall g, x :: key(f(g, x)) == keyA(x)
    requires y in Assigned(s, grp, f)
    ensures exists i :: 0 <= i < |s| && key(y) == keyA(s[i])
  {
    var head := if grp(s[0]).Some? then [f(grp(s[0]).value, s[0])] else [];
    if y in head {
      var g := grp(s[0]).value;
      assert y == f(g, s[0]);
      assert key(f(g, s[0])) == keyA(s[0]);
      assert 0 < |s| && key(y) == keyA(s[0]);
    } else {
      AssignedKeys(s[1..], grp, f, keyA, key, y);
      var i :| 0 <= i < |s[1..]| && key(y) == keyA(s[1..][i]);
      assert s[1..][i] == s[i + 1];
    }
  }

  /** Transforms that keep the timestamp turn a time-ordered input into a time-ordered
      per-row result. */
  lemma {:induction false} AssignedStrictlySorted<A, B>(s: seq<A>, grp: A -> Option<int>, f: (int, A) -> B, keyA: A -> real, key: B -> real)
    requires StrictlySortedBy(s, keyA)
    requires forall g, x :: key(f(g, x)) == keyA(x)
    ensures StrictlySortedBy(Assigned(s, grp, f), key)
  {
    if s != [] {
      var rest := Assigned(s[1..], grp, f);
      assert StrictlySortedBy(s[1..], keyA) by {
        forall i, j | 0 <= i < j < |s[1..]| ensures keyA(s[1..][i]) < keyA(s[1..][j]) {
          assert s[1..][i] == s[i + 1] && s[1..][j] == s[j + 1];
        }
      }
      AssignedStrictlySorted(s[1..], grp, f, keyA, key);
      if grp(s[0]).Some? {
        var r := [f(grp(s[0]).value, s[0])] + rest;
        forall i, j | 0 <= i < j < |r| ensures key(r[i]) < key(r[j]) {
          if i == 0 {
            assert r[j] == rest[j - 1];
            AssignedKeys(s[1..], grp, f, keyA, key, r[j]);
            var k :| 0 <= k < |s[1..]| && key(r[j]) == keyA(s[1..][k]);
            assert s[1..][k] == s[k + 1];
          } else {
            assert r[i] == rest[i - 1] && r[j] == rest[j - 1];
          }
        }
      }
    }
  }

  /** Main reassembly theorem: when every row belongs to at most one group, every
      transform keeps the row's timestamp and the input is strictly time-ordered, the
      sorted concatenation of the parts is the per-row mapping in input order. */
  lemma SortedPartsAreAssigned<A, B>(s: seq<A>, lo: int, hi: int, sel: (int, A) -> bool, f: (int, A) -> B,
                                     grp: A -> Option<int>, keyA: A -> real, key: B -> real)
    requires GroupOf(s, lo, hi, sel, grp) && GroupsInRange(s, lo, hi, grp)
    requires StrictlySortedBy(s, keyA)
    requires forall g, x :: key(f(g, x)) == keyA(x)
    ensures SortBy(Parts(s, lo, hi, sel, f), key) == Assigned(s, grp, f)
  {
    PartsPermutesPerRow(s, lo, hi, sel, f);
    PerRowIsAssigned(s, lo, hi, sel, f, grp);
    AssignedStrictlySorted(s, grp, f, keyA, key);
    SortBySorted(Parts(s, lo, hi, sel, f), key);
    SortedPermutationUnique(SortBy(Parts(s, lo, hi, sel, f), key), Assigned(s, grp, f), key);
  }

  /** Whatever the groups, the result is time-ordered and holds each row's contributions. */
  lemma SortedPartsArePermutation<A, B>(s: seq<A>, lo: int, hi: int, sel: (int, A) -> bool, f: (int, A) -> B, key: B -> real)
    ensures SortedBy(SortBy(Parts(s, lo, hi, sel, f), key), key)
    ensures multiset(SortBy(Parts(s, lo, hi, sel, f), key)) == multiset(PerRow(s, lo, hi, sel, f))
  {
    SortBySorted(Parts(s, lo, hi, sel, f), key);
    PartsPermutesPerRow(s, lo, hi, sel, f);
  }

  /** One more group appends that group's part. */
  lemma PartsStep<A, B>(s: seq<A>, lo: int, hi: int, sel: (int, A) -> bool, f: (int, A) -> B)
    requires lo <= hi
    ensures Parts(s, lo, hi + 1, sel, f) == Parts(s, lo, hi, sel, f) + Part(s, hi, sel, f)
  {
  }

  /** The loop's partial result is a prefix of its final result. */
  lemma {:induction false} PartsPrefix<A, B>(s: seq<A>, lo: int, m: int, hi: int, sel: (int, A) -> bool, f: (int, A) -> B)
    requires lo <= m <= hi
    ensures Parts(s, lo, m, sel, f) <= Parts(s, lo, hi, sel, f)
    decreases hi - m
  {
    if m < hi {
      PartsPrefix(s, lo, m, hi - 1, sel, f);
    }
  }
}
