/** Order-preserving selection from a sequence. */
module Filters {
  import opened Bytes

  function Keep<T>(x: T, p: T -> bool): seq<T> {
    if p(x) then [x] else []
  }

  function Filter<T>(s: seq<T>, p: T -> bool): seq<T> {
    if s == [] then [] else Filter(s[..|s| - 1], p) + Keep(s[|s| - 1], p)
  }

  lemma FilterSnoc<T>(s: seq<T>, x: T, p: T -> bool)
    ensures Filter(s + [x], p) == Filter(s, p) + Keep(x, p)
  {
  }

  lemma {:induction false} FilterConcat<T>(a: seq<T>, b: seq<T>, p: T -> bool)
    ensures Filter(a + b, p) == Filter(a, p) + Filter(b, p)
    decreases |b|
  {
    if b == [] {
      assert a + b == a;
    } else {
      var n := |b| - 1;
      calc {
        Filter(a + b, p);
        { assert a + b == (a + b[..n]) + [b[n]]; FilterSnoc(a + b[..n], b[n], p); }
        Filter(a + b[..n], p) + Keep(b[n], p);
        { FilterConcat(a, b[..n], p); }
        Filter(a, p) + Filter(b[..n], p) + Keep(b[n], p);
        { Regroup(Filter(a, p), Filter(b[..n], p), Keep(b[n], p)); }
        Filter(a, p) + Filter(b, p);
      }
    }
  }

  lemma {:induction false} FilterNone<T>(s: seq<T>, p: T -> bool)
    requires forall i :: 0 <= i < |s| ==> !p(s[i])
    ensures Filter(s, p) == []
    decreases |s|
  {
    if s != [] {
      FilterNone(s[..|s| - 1], p);
    }
  }

  lemma {:induction false} FilterAll<T>(s: seq<T>, p: T -> bool)
    requires forall i :: 0 <= i < |s| ==> p(s[i])
    ensures Filter(s, p) == s
    decreases |s|
  {
    if s != [] {
      var n := |s| - 1;
      FilterAll(s[..n], p);
      assert s == s[..n] + [s[n]];
    }
  }

  /** A predicate that turns true once and stays true selects a suffix. */
  lemma FilterSuffix<T>(s: seq<T>, k: nat, p: T -> bool)
    requires k <= |s|
    requires forall i :: 0 <= i < k ==> !p(s[i])
    requires forall i :: k <= i < |s| ==> p(s[i])
    ensures Filter(s, p) == s[k..]
  {
    SplitAt(s, k);
    FilterParts(s[..k], s[k..], p);
  }

  lemma SplitAt<T>(s: seq<T>, k: nat)
    requires k <= |s|
    ensures s == s[..k] + s[k..]
  {
  }

  lemma {:induction false} FilterParts<T>(a: seq<T>, b: seq<T>, p: T -> bool)
    requires forall i :: 0 <= i < |a| ==> !p(a[i])
    requires forall i :: 0 <= i < |b| ==> p(b[i])
    ensures Filter(a + b, p) == b
  {
    FilterConcat(a, b, p);
    FilterNone(a, p);
    FilterAll(b, p);
    assert [] + b == b;
  }

  lemma {:induction false} FilterMembers<T(!new)>(s: seq<T>, p: T -> bool)
    ensures forall x :: x in Filter(s, p) <==> x in s && p(x)
    decreases |s|
  {
    if s != [] {
      var n := |s| - 1;
      FilterMembers(s[..n], p);
      assert s == s[..n] + [s[n]];
    }
  }

  /** `kept` are the elements of `s` at the positions `at`, which are those where `p` holds, in order. */
  ghost predicate KeptAt<T>(kept: seq<T>, s: seq<T>, p: T -> bool, at: seq<nat>) {
    && |at| == |kept|
    && (forall i, j :: 0 <= i < j < |at| ==> at[i] < at[j])
    && (forall k :: 0 <= k < |at| ==> at[k] < |s| && p(s[at[k]]) && kept[k] == s[at[k]])
    && forall i: nat {:trigger i in at} :: i < |s| && p(s[i]) ==> i in at
  }

  lemma KeptAtSkip<T>(kept: seq<T>, s: seq<T>, x: T, p: T -> bool, at: seq<nat>)
    requires KeptAt(kept, s, p, at) && !p(x)
    ensures KeptAt(kept, s + [x], p, at)
  {
  }

  lemma KeptAtTake<T>(kept: seq<T>, s: seq<T>, x: T, p: T -> bool, at: seq<nat>)
    requires KeptAt(kept, s, p, at) && p(x)
    ensures KeptAt(kept + [x], s + [x], p, at + [|s|])
  {
    var at' := at + [|s|];
    forall i: nat | i < |s + [x]| && p((s + [x])[i]) ensures i in at' {
      if i == |s| {
        assert at'[|at|] == i;
      } else {
        assert i in at;
      }
    }
  }

  function Positions<T>(s: seq<T>, p: T -> bool): seq<nat> {
    if s == [] then []
    else
      var n := |s| - 1;
      if p(s[n]) then Positions(s[..n], p) + [n] else Positions(s[..n], p)
  }

  /** Exactly the elements at the positions where `p` holds are kept, in order. */
  lemma {:induction false} FilterKeeps<T>(s: seq<T>, p: T -> bool)
    ensures KeptAt(Filter(s, p), s, p, Positions(s, p))
    decreases |s|
  {
    if s != [] {
      var init, x := s[..|s| - 1], s[|s| - 1];
      FilterKeeps(init, p);
      InitLast(s);
      if p(x) {
        KeptAtTake(Filter(init, p), init, x, p, Positions(init, p));
      } else {
        KeptAtSkip(Filter(init, p), init, x, p, Positions(init, p));
      }
      assert Filter(init, p) + [] == Filter(init, p);
    }
  }

  // ------------------------------------------------------- ascending lists

  /** Strictly ascending by `rank`. */
  ghost predicate Ascending<T>(s: seq<T>, rank: T -> int) {
    forall i, j :: 0 <= i < j < |s| ==> rank(s[i]) < rank(s[j])
  }

  lemma {:induction false} FilterAscending<T(!new)>(s: seq<T>, p: T -> bool, rank: T -> int)
    requires Ascending(s, rank)
    ensures Ascending(Filter(s, p), rank)
    decreases |s|
  {
    if s != [] {
      var n := |s| - 1;
      var kept := Filter(s[..n], p);
      FilterAscending(s[..n], p, rank);
      FilterMembers(s[..n], p);
      forall i | 0 <= i < |kept| ensures rank(kept[i]) < rank(s[n]) {
        var x := kept[i];
        assert x in kept;
        assert x in s[..n];
        var j :| 0 <= j < n && s[j] == x;
      }
    }
  }

  /** The last element of an ascending list is the only one of its rank, and the greatest. */
  lemma AscendingLast<T>(s: seq<T>, rank: T -> int)
    requires s != [] && Ascending(s, rank)
    ensures var last := s[|s| - 1];
            && (forall x :: x in s ==> rank(x) <= rank(last) && (rank(x) == rank(last) ==> x == last))
            && (forall x :: x in s[..|s| - 1] <==> x in s && x != last)
  {
    var n := |s| - 1;
    forall x | x in s ensures rank(x) <= rank(s[n]) && (rank(x) == rank(s[n]) ==> x == s[n]) {
      var i :| 0 <= i < |s| && s[i] == x;
    }
    assert s == s[..n] + [s[n]];
  }

  /** A set has only one ascending list. */
  lemma {:induction false} AscendingUnique<T>(a: seq<T>, b: seq<T>, rank: T -> int)
    requires Ascending(a, rank) && Ascending(b, rank)
    requires forall x :: x in a <==> x in b
    ensures a == b
    decreases |a|
  {
    if b != [] {
      NotEmpty(b, a);
    }
    if a != [] {
      var m, n := |a| - 1, |b| - 1;
      NotEmpty(a, b);
      SameLast(a, b, rank);
      AscendingLast(a, rank);
      AscendingLast(b, rank);
      forall x ensures x in a[..m] <==> x in b[..n] {
        assert x in a <==> x in b;
      }
      AscendingUnique(a[..m], b[..n], rank);
      assert a == a[..m] + [a[m]] && b == b[..n] + [b[n]];
    }
  }

  lemma NotEmpty<T>(a: seq<T>, b: seq<T>)
    requires a != [] && forall x :: x in a ==> x in b
    ensures b != []
  {
    assert a[0] in b;
  }

  lemma SameLast<T>(a: seq<T>, b: seq<T>, rank: T -> int)
    requires Ascending(a, rank) && Ascending(b, rank) && a != [] && b != []
    requires forall x :: x in a <==> x in b
    ensures a[|a| - 1] == b[|b| - 1]
  {
    var x, y := a[|a| - 1], b[|b| - 1];
    AscendingLast(a, rank);
    AscendingLast(b, rank);
    assert x in a && y in b;
  }
}
