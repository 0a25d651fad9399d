/** `[...items].sort((a, b) => key(a) - key(b))`: the stable ascending sort that
    section 23.1.3.30 of ECMA-262 requires. */
module Sorting {
  import opened Sequences

  ghost predicate Sorted<T>(s: seq<T>, key: T -> real) {
    forall i, j :: 0 <= i < j < |s| ==> key(s[i]) <= key(s[j])
  }

  lemma SortedAppend<T>(s: seq<T>, x: T, key: T -> real)
    requires Sorted(s, key) && forall y :: y in s ==> key(y) <= key(x)
    ensures Sorted(s + [x], key)
  {
  }

  // The elements of s with one key, in their order in s.
  function Ties<T>(s: seq<T>, key: T -> real, v: real): seq<T> {
    if s == [] then []
    else
      var rest := Ties(s[..|s| - 1], key, v);
      if key(s[|s| - 1]) == v then rest + [s[|s| - 1]] else rest
  }

  // What the language standard promises of the result: ordered by key, and elements with
  // equal keys exactly as they stood before.
  ghost predicate IsStableSort<T>(s: seq<T>, r: seq<T>, key: T -> real) {
    && Sorted(r, key)
    && forall v :: Ties(r, key, v) == Ties(s, key, v)
  }

  function Insert<T>(s: seq<T>, x: T, key: T -> real): seq<T> {
    if s == [] || key(s[|s| - 1]) <= key(x) then s + [x]
    else Insert(s[..|s| - 1], x, key) + [s[|s| - 1]]
  }

  function StableSort<T>(s: seq<T>, key: T -> real): seq<T> {
    if s == [] then [] else Insert(StableSort(s[..|s| - 1], key), s[|s| - 1], key)
  }

  lemma {:induction false} InsertPermutes<T>(s: seq<T>, x: T, key: T -> real)
    ensures multiset(Insert(s, x, key)) == multiset(s) + multiset{x}
  {
    if s != [] && key(x) < key(s[|s| - 1]) {
      InsertPermutes(s[..|s| - 1], x, key);
      assert s == s[..|s| - 1] + [s[|s| - 1]];
    }
  }

  lemma {:induction false} InsertMembers<T>(s: seq<T>, x: T, key: T -> real)
    ensures forall y :: y in Insert(s, x, key) ==> y == x || y in s
  {
    if s != [] && key(x) < key(s[|s| - 1]) {
      InsertMembers(s[..|s| - 1], x, key);
    }
  }

  lemma {:induction false} InsertSorts<T>(s: seq<T>, x: T, key: T -> real)
    requires Sorted(s, key)
    ensures Sorted(Insert(s, x, key), key)
  {
    if s != [] && key(x) < key(s[|s| - 1]) {
      var front := s[..|s| - 1];
      InsertSorts(front, x, key);
      InsertMembers(front, x, key);
      var r := Insert(front, x, key);
      forall i | 0 <= i < |r| ensures key(r[i]) <= key(s[|s| - 1]) {
        assert r[i] in r;
      }
    }
  }

  lemma {:induction false} InsertTies<T>(s: seq<T>, x: T, key: T -> real, v: real)
    requires Sorted(s, key)
    ensures Ties(Insert(s, x, key), key, v) == if key(x) == v then Ties(s, key, v) + [x] else Ties(s, key, v)
  {
    if s == [] || key(s[|s| - 1]) <= key(x) {
      assert (s + [x])[..|s + [x]| - 1] == s;
    } else {
      var front, last := s[..|s| - 1], s[|s| - 1];
      InsertTies(front, x, key, v);
      var r := Insert(front, x, key) + [last];
      assert r[..|r| - 1] == Insert(front, x, key);
    }
  }

  lemma {:induction false} StableSortSorts<T>(s: seq<T>, key: T -> real)
    ensures Sorted(StableSort(s, key), key)
    ensures multiset(StableSort(s, key)) == multiset(s)
  {
    if s != [] {
      hide Sorted, Insert;
      var front, last := s[..|s| - 1], s[|s| - 1];
      StableSortSorts(front, key);
      InsertSorts(StableSort(front, key), last, key);
      InsertPermutes(StableSort(front, key), last, key);
      assert s == front + [last];
      assert multiset(s) == multiset(front) + multiset{last};
    }
  }

  lemma {:induction false} StableSortTies<T>(s: seq<T>, key: T -> real, v: real)
    ensures Ties(StableSort(s, key), key, v) == Ties(s, key, v)
  {
    if s != [] {
      StableSortTies(s[..|s| - 1], key, v);
      StableSortSorts(s[..|s| - 1], key);
      InsertTies(StableSort(s[..|s| - 1], key), s[|s| - 1], key, v);
    }
  }

  lemma SortedLast<T>(s: seq<T>, key: T -> real, x: T)
    requires Sorted(s, key) && x in s
    ensures key(x) <= key(s[|s| - 1])
  {
    var j :| 0 <= j < |s| && s[j] == x;
    if j < |s| - 1 {
      assert key(s[j]) <= key(s[|s| - 1]);
    }
  }

  lemma {:induction false} TiesMembers<T>(s: seq<T>, key: T -> real, x: T, v: real)
    ensures x in Ties(s, key, v) <==> x in s && key(x) == v
  {
    if s != [] {
      TiesMembers(s[..|s| - 1], key, x, v);
      assert s == s[..|s| - 1] + [s[|s| - 1]];
    }
  }

  // Two ordered sequences with the same ties end in the same element ...
  lemma SameTiesSameLast<T>(a: seq<T>, b: seq<T>, key: T -> real)
    requires a != [] && b != [] && Sorted(a, key) && Sorted(b, key)
    requires forall v :: Ties(a, key, v) == Ties(b, key, v)
    ensures a[|a| - 1] == b[|b| - 1]
  {
    var x, y := a[|a| - 1], b[|b| - 1];
    assert key(x) <= key(y) by {
      TiesMembers(a, key, x, key(x));
      TiesMembers(b, key, x, key(x));
      SortedLast(b, key, x);
    }
    assert key(y) <= key(x) by {
      TiesMembers(b, key, y, key(y));
      TiesMembers(a, key, y, key(y));
      SortedLast(a, key, y);
    }
    var ta, tb := Ties(a, key, key(x)), Ties(b, key, key(x));
    assert ta[|ta| - 1] == x;
    assert tb[|tb| - 1] == y;
  }

  // ... and agree on the ties of what is left.
  lemma SameTiesSameRest<T>(a: seq<T>, b: seq<T>, key: T -> real, v: real)
    requires a != [] && b != [] && a[|a| - 1] == b[|b| - 1]
    requires Ties(a, key, v) == Ties(b, key, v)
    ensures Ties(a[..|a| - 1], key, v) == Ties(b[..|b| - 1], key, v)
  {
    var ta, tb := Ties(a[..|a| - 1], key, v), Ties(b[..|b| - 1], key, v);
    if key(a[|a| - 1]) == v {
      assert (ta + [a[|a| - 1]])[..|ta|] == ta;
      assert (tb + [b[|b| - 1]])[..|tb|] == tb;
      assert |ta| + 1 == |tb| + 1;
    }
  }

  // ... so they are one sequence: the model does not depend on how the engine sorts.
  lemma {:induction false} StableSortIsUnique<T>(a: seq<T>, b: seq<T>, key: T -> real)
    requires Sorted(a, key) && Sorted(b, key)
    requires forall v :: Ties(a, key, v) == Ties(b, key, v)
    ensures a == b
  {
    if a == [] && b == [] {
    } else if a == [] {
      TiesMembers(b, key, b[|b| - 1], key(b[|b| - 1]));
    } else if b == [] {
      TiesMembers(a, key, a[|a| - 1], key(a[|a| - 1]));
    } else {
      SameTiesSameLast(a, b, key);
      var a', b' := a[..|a| - 1], b[..|b| - 1];
      forall v ensures Ties(a', key, v) == Ties(b', key, v) {
        SameTiesSameRest(a, b, key, v);
      }
      StableSortIsUnique(a', b', key);
      assert a == a' + [a[|a| - 1]] && b == b' + [b[|b| - 1]];
    }
  }

  // StableSort has what the standard promises, and nothing else has.
  lemma StableSortIsTheStandards<T>(s: seq<T>, r: seq<T>, key: T -> real)
    ensures IsStableSort(s, r, key) <==> r == StableSort(s, key)
  {
    StableSortSorts(s, key);
    forall v ensures Ties(StableSort(s, key), key, v) == Ties(s, key, v) {
      StableSortTies(s, key, v);
    }
    if IsStableSort(s, r, key) {
      StableSortIsUnique(r, StableSort(s, key), key);
    }
  }

  lemma InsertBefore<T>(s: seq<T>, last: T, x: T, key: T -> real)
    requires key(x) < key(last)
    ensures Insert(s + [last], x, key) == Insert(s, x, key) + [last]
  {
    assert (s + [last])[..|s|] == s;
  }

  lemma InsertFilterAtEnd<T>(s: seq<T>, x: T, key: T -> real, keep: T -> bool)
    requires Sorted(s, key) && (s == [] || key(s[|s| - 1]) <= key(x))
    ensures Filter(s + [x], keep) == if keep(x) then Insert(Filter(s, keep), x, key) else Filter(s, keep)
  {
    hide Filter, Sorted;
    var f := Filter(s, keep);
    FilterOneMore(s, x, keep);
    if f != [] {
      FilterMembers(s, keep, f[|f| - 1]);
      SortedLast(s, key, f[|f| - 1]);
    }
  }

  lemma {:induction false} InsertFilter<T>(s: seq<T>, x: T, key: T -> real, keep: T -> bool)
    requires Sorted(s, key)
    ensures Filter(Insert(s, x, key), keep) ==
            if keep(x) then Insert(Filter(s, keep), x, key) else Filter(s, keep)
  {
    hide Filter;
    if s == [] || key(s[|s| - 1]) <= key(x) {
      InsertFilterAtEnd(s, x, key, keep);
    } else {
      var front, last := s[..|s| - 1], s[|s| - 1];
      InsertFilter(front, x, key, keep);
      assert s == front + [last];
      FilterOneMore(front, last, keep);
      FilterOneMore(Insert(front, x, key), last, keep);
      if keep(last) {
        InsertBefore(Filter(front, keep), last, x, key);
      } else {
        assert Filter(front, keep) + [] == Filter(front, keep);
      }
    }
  }

  // Sorting and selecting commute.
  lemma {:induction false} StableSortFilter<T>(s: seq<T>, key: T -> real, keep: T -> bool)
    ensures Filter(StableSort(s, key), keep) == StableSort(Filter(s, keep), key)
  {
    if s != [] {
      var front, last := s[..|s| - 1], s[|s| - 1];
      StableSortFilter(front, key, keep);
      StableSortSorts(front, key);
      InsertFilter(StableSort(front, key), last, key, keep);
      if keep(last) {
        var f := Filter(s, keep);
        assert f[..|f| - 1] == Filter(front, keep);
      }
    }
  }

  lemma {:induction false} SortedIsFixed<T>(s: seq<T>, key: T -> real)
    requires Sorted(s, key)
    ensures StableSort(s, key) == s
  {
    if s != [] {
      var front, last := s[..|s| - 1], s[|s| - 1];
      SortedIsFixed(front, key);
      assert s == front + [last];
      if front != [] {
        assert key(s[|s| - 2]) <= key(last);
      }
    }
  }

  // Sorting the whole leaves a selection as it was exactly when that already stood in key order.
  lemma SelectionSurvivesExactlyIfSorted<T>(s: seq<T>, key: T -> real, keep: T -> bool)
    ensures Filter(StableSort(s, key), keep) == Filter(s, keep) <==> Sorted(Filter(s, keep), key)
    ensures Sorted(Filter(StableSort(s, key), keep), key)
  {
    StableSortFilter(s, key, keep);
    StableSortSorts(Filter(s, keep), key);
    if Sorted(Filter(s, keep), key) {
      SortedIsFixed(Filter(s, keep), key);
    }
  }

  // Nothing in a is greater than anything in b.
  ghost predicate NoGreater<T>(a: seq<T>, b: seq<T>, key: T -> real) {
    forall i, j :: 0 <= i < |a| && 0 <= j < |b| ==> key(a[i]) <= key(b[j])
  }

  lemma SortAppendsTheGreatest<T>(s: seq<T>, x: T, key: T -> real)
    requires forall i :: 0 <= i < |s| ==> key(s[i]) <= key(x)
    ensures StableSort(s + [x], key) == StableSort(s, key) + [x]
  {
    assert (s + [x])[..|s|] == s;
    StableSortSorts(s, key);
    var sorted := StableSort(s, key);
    if sorted != [] {
      assert sorted[|sorted| - 1] in multiset(sorted);
    }
  }

  lemma NoneBeforeIsGreater<T>(s: seq<T>, tail: seq<T>, key: T -> real)
    requires tail != [] && Sorted(tail, key) && NoGreater(s, tail, key)
    ensures var before, last := s + tail[..|tail| - 1], tail[|tail| - 1];
            forall i :: 0 <= i < |before| ==> key(before[i]) <= key(last)
  {
    var front, last := tail[..|tail| - 1], tail[|tail| - 1];
    forall i | 0 <= i < |s + front| ensures key((s + front)[i]) <= key(last) {
      if i < |s| {
        assert key(s[i]) <= key(tail[|tail| - 1]);
      } else {
        assert key(tail[i - |s|]) <= key(tail[|tail| - 1]);
      }
    }
  }

  // What comes later and is ordered, and has nothing greater before it, is left where it is.
  lemma {:induction false} SortLeavesTheTail<T>(s: seq<T>, tail: seq<T>, key: T -> real)
    requires Sorted(tail, key) && NoGreater(s, tail, key)
    ensures StableSort(s + tail, key) == StableSort(s, key) + tail
  {
    hide StableSort;
    if tail == [] {
      assert s + tail == s;
    } else {
      var front, last := tail[..|tail| - 1], tail[|tail| - 1];
      SortLeavesTheTail(s, front, key);
      NoneBeforeIsGreater(s, tail, key);
      SortAppendsTheGreatest(s + front, last, key);
      assert s + tail == (s + front) + [last];
      assert StableSort(s, key) + tail == (StableSort(s, key) + front) + [last];
    }
  }

  lemma StableSortLength<T>(s: seq<T>, key: T -> real)
    ensures |StableSort(s, key)| == |s|
  {
    StableSortSorts(s, key);
    assert |multiset(StableSort(s, key))| == |multiset(s)|;
  }

  // The last n are ordered, and nothing before them is greater than any of them.
  ghost predicate TailIsGreatest<T>(s: seq<T>, key: T -> real, n: nat) {
    var tail := LastN(s, n);
    Sorted(tail, key) && NoGreater(s[..|s| - |tail|], tail, key)
  }

  lemma SplitAtTail<T>(s: seq<T>, n: nat)
    ensures s == s[..|s| - |LastN(s, n)|] + LastN(s, n)
    ensures LastN(s, n) == s[|s| - |LastN(s, n)|..]
  {
  }

  lemma GreatestTailSurvives<T>(s: seq<T>, key: T -> real, n: nat)
    requires TailIsGreatest(s, key, n)
    ensures LastN(StableSort(s, key), n) == LastN(s, n)
  {
    var tail := LastN(s, n);
    var before := s[..|s| - |tail|];
    SplitAtTail(s, n);
    SortLeavesTheTail(before, tail, key);
    StableSortLength(before, key);
    LastNOfTail(StableSort(before, key), tail, n);
  }

  lemma LastNOfTail<T>(a: seq<T>, b: seq<T>, n: nat)
    requires |b| == n || (a == [] && |b| <= n)
    ensures LastN(a + b, n) == b
  {
  }

  lemma SurvivingTailIsGreatest<T>(s: seq<T>, key: T -> real, n: nat)
    requires LastN(StableSort(s, key), n) == LastN(s, n)
    ensures TailIsGreatest(s, key, n)
  {
    hide StableSort, LastN, Sorted, NoGreater;
    StableSortLength(s, key);
    var sorted, tail := StableSort(s, key), LastN(s, n);
    var before, below := s[..|s| - |tail|], sorted[..|s| - |tail|];
    SplitAtTail(s, n);
    SplitAtTail(sorted, n);
    StableSortSorts(s, key);
    SortedSplit(sorted, key, |before|);
    SameRest(s, sorted, before, below, tail);
    NoGreaterInAnyOrder(before, below, tail, key);
  }

  lemma NoGreaterInAnyOrder<T>(a: seq<T>, b: seq<T>, tail: seq<T>, key: T -> real)
    requires multiset(a) == multiset(b) && NoGreater(b, tail, key)
    ensures NoGreater(a, tail, key)
  {
    forall i, j | 0 <= i < |a| && 0 <= j < |tail| ensures key(a[i]) <= key(tail[j]) {
      assert a[i] in multiset(b);
      var k :| 0 <= k < |b| && b[k] == a[i];
    }
  }

  lemma SameRest<T>(s: seq<T>, r: seq<T>, a: seq<T>, b: seq<T>, tail: seq<T>)
    requires s == a + tail && r == b + tail && multiset(s) == multiset(r)
    ensures multiset(a) == multiset(b)
  {
    assert multiset(a) == multiset(s) - multiset(tail);
    assert multiset(b) == multiset(r) - multiset(tail);
  }

  lemma SortedSplit<T>(s: seq<T>, key: T -> real, k: nat)
    requires Sorted(s, key) && k <= |s|
    ensures Sorted(s[k..], key) && NoGreater(s[..k], s[k..], key)
  {
  }

  // Exactly then the last n of the sorted whole are the last n as they came.
  lemma TailSurvivesExactlyIfGreatest<T>(s: seq<T>, key: T -> real, n: nat)
    ensures LastN(StableSort(s, key), n) == LastN(s, n) <==> TailIsGreatest(s, key, n)
  {
    if TailIsGreatest(s, key, n) {
      GreatestTailSurvives(s, key, n);
    }
    if LastN(StableSort(s, key), n) == LastN(s, n) {
      SurvivingTailIsGreatest(s, key, n);
    }
  }

  lemma {:induction false} FilterSorted<T>(s: seq<T>, key: T -> real, keep: T -> bool)
    requires Sorted(s, key)
    ensures Sorted(Filter(s, keep), key)
  {
    if s != [] {
      var front := s[..|s| - 1];
      FilterSorted(front, key, keep);
      var f := Filter(front, keep);
      forall i | 0 <= i < |f| ensures key(f[i]) <= key(s[|s| - 1]) {
        FilterMembers(front, keep, f[i]);
        SortedLast(s, key, f[i]);
      }
    }
  }
}
