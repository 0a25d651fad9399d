/** Latency percentiles, in exact arithmetic: runner-kit/src/stats.ts and the Python copy in
    runner-kit-py/lab_runner/__init__.py. */
module Percentiles {
  import opened Options
  import opened Sorting

  function Itself(x: real): real { x }

  function Ascending(values: seq<real>): seq<real> {
    StableSort(values, Itself)
  }

  function Ceil(x: real): int {
    -((-x).Floor)
  }

  function ClampedRank(rank: int, n: nat): (index: nat)
    requires 0 < n
    ensures index < n
    ensures 1 <= rank <= n ==> index == rank - 1
  {
    var low := if rank - 1 < 0 then 0 else rank - 1;
    if n - 1 < low then n - 1 else low
  }

  // Math.ceil((p / 100) * sorted.length)
  function Rank(p: real, n: nat): int {
    Ceil(p / 100.0 * n as real)
  }

  function NearestRank(sorted: seq<real>, p: real): real
    requires sorted != []
  {
    sorted[ClampedRank(Rank(p, |sorted|), |sorted|)]
  }

  // Python: -(-p * len(sorted) // 100), with // rounding down.
  function NearestRankPy(sorted: seq<real>, p: real): real
    requires sorted != []
  {
    sorted[ClampedRank(-((-p * |sorted| as real / 100.0).Floor), |sorted|)]
  }

  function Percentile(values: seq<real>, p: real): Option<real> {
    if values == [] then None else Some(NearestRank(SortedNonEmpty(values), p))
  }

  function SortedNonEmpty(values: seq<real>): (r: seq<real>)
    requires values != []
    ensures r == Ascending(values) && r != []
  {
    AscendingIsSorted(values);
    Ascending(values)
  }

  datatype LatencySummary = LatencySummary(count: nat, p50: real, p95: real, p99: real, max: real)

  function Summarize(values: seq<real>): Option<LatencySummary> {
    if values == [] then None
    else
      var sorted := SortedNonEmpty(values);
      Some(LatencySummary(|sorted|, NearestRank(sorted, 50.0), NearestRank(sorted, 95.0),
                          NearestRank(sorted, 99.0), sorted[|sorted| - 1]))
  }

  // How many of the samples are below, and how many are not above, a value.
  function Below(values: seq<real>, v: real): nat {
    if values == [] then 0
    else Below(values[..|values| - 1], v) + (if values[|values| - 1] < v then 1 else 0)
  }

  function NotAbove(values: seq<real>, v: real): nat {
    if values == [] then 0
    else NotAbove(values[..|values| - 1], v) + (if values[|values| - 1] <= v then 1 else 0)
  }

  // v is the p-th percentile: at least p percent of the samples are <= v, fewer are < v.
  ghost predicate IsPercentile(values: seq<real>, p: real, v: real) {
    && v in values
    && p * |values| as real <= 100.0 * NotAbove(values, v) as real
    && 100.0 * Below(values, v) as real < p * |values| as real
  }

  lemma AscendingIsSorted(values: seq<real>)
    ensures Sorted(Ascending(values), Itself)
    ensures multiset(Ascending(values)) == multiset(values)
    ensures |Ascending(values)| == |values|
  {
    StableSortSorts(values, Itself);
    assert |multiset(Ascending(values))| == |multiset(values)|;
  }

  // Counting sees only the multiset.
  lemma {:induction false} CountsOfInsert(s: seq<real>, x: real, v: real)
    ensures Below(Insert(s, x, Itself), v) == Below(s, v) + (if x < v then 1 else 0)
    ensures NotAbove(Insert(s, x, Itself), v) == NotAbove(s, v) + (if x <= v then 1 else 0)
  {
    var r := Insert(s, x, Itself);
    if s == [] || Itself(s[|s| - 1]) <= Itself(x) {
      assert r[..|r| - 1] == s;
    } else {
      CountsOfInsert(s[..|s| - 1], x, v);
      assert r[..|r| - 1] == Insert(s[..|s| - 1], x, Itself);
    }
  }

  lemma {:induction false} CountsOfAscending(values: seq<real>, v: real)
    ensures Below(Ascending(values), v) == Below(values, v)
    ensures NotAbove(Ascending(values), v) == NotAbove(values, v)
  {
    if values != [] {
      CountsOfAscending(values[..|values| - 1], v);
      CountsOfInsert(Ascending(values[..|values| - 1]), values[|values| - 1], v);
    }
  }

  lemma SortedAt(s: seq<real>, i: nat, j: nat)
    requires Sorted(s, Itself) && i <= j < |s|
    ensures s[i] <= s[j]
  {
    if i < j {
      assert Itself(s[i]) <= Itself(s[j]);
    }
  }

  // In a sorted sequence the element at k has at most k samples below it and more than k not above it.
  lemma {:induction false} CountsAtIndex(s: seq<real>, k: nat)
    requires Sorted(s, Itself) && k < |s|
    ensures Below(s, s[k]) <= k < NotAbove(s, s[k])
  {
    var front := s[..|s| - 1];
    SortedAt(s, k, |s| - 1);
    if k < |front| {
      CountsAtIndex(front, k);
    } else {
      forall i | 0 <= i < |s| ensures s[i] <= s[k] {
        SortedAt(s, i, k);
      }
      AllNotAbove(s, s[k]);
      BelowLength(front, s[k]);
    }
  }

  lemma {:induction false} AllNotAbove(s: seq<real>, v: real)
    requires forall i :: 0 <= i < |s| ==> s[i] <= v
    ensures NotAbove(s, v) == |s|
  {
    if s != [] {
      AllNotAbove(s[..|s| - 1], v);
    }
  }

  lemma {:induction false} BelowLength(s: seq<real>, v: real)
    ensures Below(s, v) <= |s|
  {
    if s != [] {
      BelowLength(s[..|s| - 1], v);
    }
  }

  // Samples not above a smaller value are below a greater one.
  lemma {:induction false} CountsGrow(s: seq<real>, v: real, w: real)
    requires v < w
    ensures NotAbove(s, v) <= Below(s, w)
  {
    if s != [] {
      CountsGrow(s[..|s| - 1], v, w);
    }
  }

  lemma CeilBounds(x: real)
    ensures x <= Ceil(x) as real < x + 1.0
  {
  }

  lemma RankInRange(p: real, n: nat)
    requires 0.0 < p <= 100.0 && 0 < n
    ensures var rank := Rank(p, n);
            && 1 <= rank <= n
            && p * n as real <= 100.0 * rank as real
            && 100.0 * (rank - 1) as real < p * n as real
  {
    var x := p / 100.0 * n as real;
    assert 100.0 * x == p * n as real;
    assert 0.0 < x by { assert 0.0 < p * n as real; }
    assert x <= n as real by { assert (100.0 - p) * n as real >= 0.0; }
    CeilBounds(x);
  }

  // The element at a rank, by the rank's bounds alone.
  lemma RankedIsPercentile(values: seq<real>, p: real, rank: nat)
    requires 1 <= rank <= |values|
    requires p * |values| as real <= 100.0 * rank as real && 100.0 * (rank - 1) as real < p * |values| as real
    ensures |Ascending(values)| == |values| && IsPercentile(values, p, Ascending(values)[rank - 1])
  {
    AscendingIsSorted(values);
    var u := Ascending(values)[rank - 1];
    CountsAtIndex(Ascending(values), rank - 1);
    CountsOfAscending(values, u);
    assert u in multiset(Ascending(values));
  }

  lemma PercentileIsUnique(values: seq<real>, p: real, v: real, w: real)
    requires IsPercentile(values, p, v) && IsPercentile(values, p, w)
    ensures v == w
  {
    if v < w {
      CountsGrow(values, v, w);
    } else if w < v {
      CountsGrow(values, w, v);
    }
  }

  // The nearest-rank result is a percentile, and the only value that is one, so it does not
  // depend on the order the samples came in.
  lemma PercentileIsExact(values: seq<real>, p: real, v: real)
    requires values != [] && 0.0 < p <= 100.0
    ensures Percentile(values, p) == Some(v) <==> IsPercentile(values, p, v)
  {
    var rank := Rank(p, |values|);
    RankInRange(p, |values|);
    RankedIsPercentile(values, p, rank);
    var u := Ascending(values)[rank - 1];
    assert Percentile(values, p) == Some(u);
    if IsPercentile(values, p, v) {
      PercentileIsUnique(values, p, u, v);
    }
  }

  // Outside its range a percentage gives the least or the greatest sample, and no samples give nothing.
  lemma PercentileOutsideItsRange(values: seq<real>, p: real)
    ensures values == [] ==> Percentile(values, p) == None && Summarize(values) == None
    ensures values != [] && p <= 0.0 ==>
              Percentile(values, p).value in values && forall x :: x in values ==> Percentile(values, p).value <= x
    ensures values != [] && 100.0 <= p ==>
              Percentile(values, p).value in values && forall x :: x in values ==> x <= Percentile(values, p).value
  {
    if values != [] {
      var sorted, n := Ascending(values), |values|;
      AscendingIsSorted(values);
      LastIsGreatest(values);
      FirstIsLeast(values);
      RankOutside(p, n);
    }
  }

  lemma FirstIsLeast(values: seq<real>)
    requires values != []
    ensures |Ascending(values)| == |values|
    ensures Ascending(values)[0] in values && forall x :: x in values ==> Ascending(values)[0] <= x
  {
    AscendingIsSorted(values);
    var sorted := Ascending(values);
    assert sorted[0] in multiset(sorted);
    forall x | x in values ensures sorted[0] <= x {
      assert x in multiset(values);
      var i :| 0 <= i < |sorted| && sorted[i] == x;
      SortedAt(sorted, 0, i);
    }
  }

  lemma RankOutside(p: real, n: nat)
    requires 0 < n
    ensures p <= 0.0 ==> Rank(p, n) <= 0 && ClampedRank(Rank(p, n), n) == 0
    ensures 100.0 <= p ==> n <= Rank(p, n) && ClampedRank(Rank(p, n), n) == n - 1
  {
    var x := p / 100.0 * n as real;
    CeilBounds(x);
    if p <= 0.0 {
      ScaledOrder(p / 100.0, 0.0, n as real);
    } else if 100.0 <= p {
      ScaledOrder(1.0, p / 100.0, n as real);
      assert n as real <= x && x <= Rank(p, n) as real;
      assert n <= Rank(p, n);
    }
  }

  // The two languages round the same rank.
  lemma FormulasAgree(sorted: seq<real>, p: real)
    requires sorted != []
    ensures NearestRankPy(sorted, p) == NearestRank(sorted, p)
  {
    SameQuotient(p, |sorted| as real);
  }

  lemma SameQuotient(p: real, n: real)
    ensures -p * n / 100.0 == -(p / 100.0 * n)
  {
    assert -p * n == -(p * n);
    assert p / 100.0 * n == p * n / 100.0;
  }

  lemma ScaledOrder(p: real, q: real, n: real)
    requires p <= q && 0.0 <= n
    ensures p * n <= q * n
  {
    assert 0.0 <= (q - p) * n;
  }

  // A greater percentage gives no smaller sample, and none is above the last.
  lemma NearestRankAscends(sorted: seq<real>, p: real, q: real)
    requires Sorted(sorted, Itself) && sorted != [] && 0.0 < p <= q <= 100.0
    ensures NearestRank(sorted, p) <= NearestRank(sorted, q) <= sorted[|sorted| - 1]
  {
    var n := |sorted|;
    RankInRange(p, n);
    RankInRange(q, n);
    var a, b := Rank(p, n), Rank(q, n);
    ScaledOrder(p, q, n as real);
    assert a <= b;
    SortedAt(sorted, a - 1, b - 1);
    SortedAt(sorted, b - 1, n - 1);
  }

  lemma LastIsGreatest(values: seq<real>)
    requires values != []
    ensures |Ascending(values)| == |values|
    ensures var last := Ascending(values)[|values| - 1]; last in values && forall x :: x in values ==> x <= last
  {
    AscendingIsSorted(values);
    var sorted := Ascending(values);
    assert sorted[|values| - 1] in multiset(sorted);
    forall x | x in values ensures x <= sorted[|values| - 1] {
      assert x in multiset(values);
      SortedLast(sorted, Itself, x);
    }
  }

  // The percentiles of a summary ascend to its maximum.
  lemma SummaryAscends(values: seq<real>)
    requires values != []
    ensures var s := Summarize(values).value;
            && IsPercentile(values, 50.0, s.p50)
            && IsPercentile(values, 95.0, s.p95)
            && IsPercentile(values, 99.0, s.p99)
            && s.p50 <= s.p95 <= s.p99 <= s.max
            && s.count == |values| && s.max in values && forall x :: x in values ==> x <= s.max
  {
    var sorted, s := Ascending(values), Summarize(values).value;
    AscendingIsSorted(values);
    PercentileIsExact(values, 50.0, s.p50);
    PercentileIsExact(values, 95.0, s.p95);
    PercentileIsExact(values, 99.0, s.p99);
    NearestRankAscends(sorted, 50.0, 95.0);
    NearestRankAscends(sorted, 95.0, 99.0);
    LastIsGreatest(values);
  }

  function Flattened(reports: seq<seq<real>>): seq<real> {
    if reports == [] then [] else Flattened(reports[..|reports| - 1]) + reports[|reports| - 1]
  }

  // The window of samples between two drains.
  class SampleWindow {
    var values: seq<real>
    ghost var added: seq<real>    // every sample there has been
    ghost var reported: seq<seq<real>>  // what each drain gave

    // Each sample is in exactly one report, or waits for the next one, in the order it came.
    ghost predicate Valid()
      reads this
    {
      added == Flattened(reported) + values
    }

    constructor ()
      ensures Valid() && added == [] && reported == []
    {
      values, added, reported := [], [], [];
    }

    method Add(value: real)
      requires Valid()
      modifies this
      ensures Valid() && added == old(added) + [value] && reported == old(reported)
    {
      values := values + [value];
      added := added + [value];
    }

    // What is drained is what was added since the last drain.
    method Drain() returns (drained: seq<real>)
      requires Valid()
      modifies this
      ensures Valid() && added == old(added) && reported == old(reported) + [drained]
      ensures added == Flattened(reported) && values == []
    {
      drained := values;
      values := [];
      reported := reported + [drained];
      assert reported[..|reported| - 1] == old(reported);
    }
  }
}
