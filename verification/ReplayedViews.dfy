/** Part by part, exactly when a recording replayed to its end shows what the live view showed. The
    live view shows what arrived last; the replay shows what has the greatest time. */
module ReplayedViews {
  import opened Options
  import opened Contract
  import opened Sequences
  import opened Sorting
  import opened DemoStates
  import opened ReplayFolds
  import opened Traces

  function Replayed(m: Manifest, es: seq<Event>): DemoState {
    FromScratch(m, StableSort(es, TimeOf), MaxTime(es))
  }

  // es[j] is of the greatest time of its kind, and the last to arrive of those.
  ghost predicate LatestInTime(es: seq<Event>, j: int, kind: Event -> bool) {
    && 0 <= j < |es| && kind(es[j])
    && forall k :: 0 <= k < |es| && kind(es[k]) ==> es[k].t <= es[j].t && (j < k ==> es[k].t < es[j].t)
  }

  lemma {:induction false} SomeLatest(es: seq<Event>, kind: Event -> bool) returns (i: nat, j: nat)
    requires !NoneOf(es, kind)
    ensures Latest(es, i, kind) && LatestInTime(es, j, kind)
  {
    var front, last := es[..|es| - 1], es[|es| - 1];
    if NoneOf(front, kind) {
      i, j := |front|, |front|;
      assert forall k :: 0 <= k < |front| ==> front[k] == es[k];
    } else {
      i, j := SomeLatest(front, kind);
      if kind(last) {
        i := |front|;
        if es[j].t <= last.t { j := |front|; }
      }
    }
  }

  // Where an insertion leaves the last of a kind.
  lemma {:induction false} InsertedBefore(s: seq<Event>, x: Event, p: nat, kind: Event -> bool) returns (q: nat)
    requires Sorted(s, TimeOf) && Latest(s, p, kind) && (kind(x) ==> x.t < s[p].t)
    ensures Latest(Insert(s, x, TimeOf), q, kind) && Insert(s, x, TimeOf)[q] == s[p]
  {
    var front, last := s[..|s| - 1], s[|s| - 1];
    if last.t <= x.t {
      assert p < |s| - 1 ==> TimeOf(s[p]) <= TimeOf(last);
      q := p;
    } else if p == |s| - 1 {
      q := |Insert(front, x, TimeOf)|;
    } else {
      q := InsertedBefore(front, x, p, kind);
    }
  }

  lemma {:induction false} InsertedLast(s: seq<Event>, x: Event, kind: Event -> bool) returns (q: nat)
    requires Sorted(s, TimeOf) && kind(x) && forall y :: y in s && kind(y) ==> y.t <= x.t
    ensures Latest(Insert(s, x, TimeOf), q, kind) && Insert(s, x, TimeOf)[q] == x
  {
    if s == [] || s[|s| - 1].t <= x.t {
      q := |s|;
    } else {
      q := InsertedLast(s[..|s| - 1], x, kind);
      assert s[|s| - 1] in s;
    }
  }

  // After sorting, the last of a kind is the one of the greatest time.
  lemma {:induction false} SortingPutsItLast(es: seq<Event>, j: nat, kind: Event -> bool) returns (p: nat)
    requires LatestInTime(es, j, kind)
    ensures Latest(StableSort(es, TimeOf), p, kind) && StableSort(es, TimeOf)[p] == es[j]
  {
    var front, last := es[..|es| - 1], es[|es| - 1];
    StableSortSorts(front, TimeOf);
    SortKeepsEvents(front);
    if j == |front| {
      forall y | y in StableSort(front, TimeOf) && kind(y) ensures y.t <= last.t {
        var k :| 0 <= k < |front| && front[k] == y;
        assert es[k] == y;
      }
      p := InsertedLast(StableSort(front, TimeOf), last, kind);
    } else {
      assert LatestInTime(front, j, kind);
      p := SortingPutsItLast(front, j, kind);
      p := InsertedBefore(StableSort(front, TimeOf), last, p, kind);
    }
  }

  // What the last to arrive says is what the one of the greatest time says, if there is any.
  ghost predicate Agree<T>(es: seq<Event>, kind: Event -> bool, says: Event -> T) {
    NoneOf(es, kind) || exists i, j :: Latest(es, i, kind) && LatestInTime(es, j, kind) && says(es[i]) == says(es[j])
  }

  lemma SameLatest(es: seq<Event>, kind: Event -> bool, i: int, i': int, j: int, j': int)
    requires Latest(es, i, kind) && Latest(es, i', kind) && LatestInTime(es, j, kind) && LatestInTime(es, j', kind)
    ensures i == i' && j == j'
  {
  }

  // For anything a view shows by the last event of a kind.
  lemma AgreeExactly<T>(es: seq<Event>, kind: Event -> bool, says: Event -> T, nothing: T, live: T, replay: T)
    requires NoneOf(es, kind) ==> live == nothing
    requires forall i :: Latest(es, i, kind) ==> live == says(es[i])
    requires var sorted := StableSort(es, TimeOf); NoneOf(sorted, kind) ==> replay == nothing
    requires var sorted := StableSort(es, TimeOf); forall p :: Latest(sorted, p, kind) ==> replay == says(sorted[p])
    ensures replay == live <==> Agree(es, kind, says)
  {
    var sorted := StableSort(es, TimeOf);
    if NoneOf(es, kind) {
      SortKeepsEvents(es);
      forall k | 0 <= k < |sorted| ensures !kind(sorted[k]) {
        assert sorted[k] in sorted;
      }
    } else {
      var i, j := SomeLatest(es, kind);
      var p := SortingPutsItLast(es, j, kind);
      if Agree(es, kind, says) {
        var i', j' :| Latest(es, i', kind) && LatestInTime(es, j', kind) && says(es[i']) == says(es[j']);
        SameLatest(es, kind, i, i', j, j');
      }
    }
  }

  ghost function StatusOf(): Event -> Option<NodeStatus> { (e: Event) => if e.Node? then Some(e.status) else None }
  ghost function NoteOf(): Event -> Option<string> { (e: Event) => if e.Node? then e.note else None }
  ghost function PhaseOf(): Event -> Option<string> { (e: Event) => if e.Phase? then Some(e.phase) else None }
  ghost function VerdictOf(): Event -> Option<CheckState> {
    (e: Event) => if e.Check? then Some(CheckState(e.verdict, e.observed)) else None
  }

  lemma ShownStatus(m: Manifest, es: seq<Event>, node: string)
    ensures NoneOf(es, OfNode(node)) ==>
              Lookup(Fold(m, es).nodes, node) == if node in m.nodes then Some(Idle) else None
    ensures forall i :: Latest(es, i, OfNode(node)) ==> Lookup(Fold(m, es).nodes, node) == StatusOf()(es[i])
  {
    if NoneOf(es, OfNode(node)) {
      FoldShowsNoStatus(m, es, node);
    }
    forall i | Latest(es, i, OfNode(node)) ensures Lookup(Fold(m, es).nodes, node) == StatusOf()(es[i]) {
      FoldShowsTheLatestStatus(m, es, node, i);
    }
  }

  // A node's replayed status is the live one exactly when the last report to arrive and the last
  // in time say the same.
  lemma ReplayedStatus(m: Manifest, es: seq<Event>, node: string)
    ensures Lookup(Replayed(m, es).nodes, node) == Lookup(Fold(m, es).nodes, node) <==>
            Agree(es, OfNode(node), StatusOf())
  {
    WholeTraceAtItsEnd(m, es);
    ShownStatus(m, es, node);
    ShownStatus(m, StableSort(es, TimeOf), node);
    AgreeExactly(es, OfNode(node), StatusOf(), if node in m.nodes then Some(Idle) else None,
                 Lookup(Fold(m, es).nodes, node), Lookup(Replayed(m, es).nodes, node));
  }

  lemma ShownNote(m: Manifest, es: seq<Event>, node: string)
    ensures NoneOf(es, NotedNode(node)) ==> Lookup(Fold(m, es).nodeNotes, node) == None
    ensures forall i :: Latest(es, i, NotedNode(node)) ==> Lookup(Fold(m, es).nodeNotes, node) == NoteOf()(es[i])
  {
    if NoneOf(es, NotedNode(node)) {
      FoldShowsNoNote(m, es, node);
    }
    forall i | Latest(es, i, NotedNode(node)) ensures Lookup(Fold(m, es).nodeNotes, node) == NoteOf()(es[i]) {
      FoldShowsTheLatestNote(m, es, node, i);
    }
  }

  lemma ReplayedNote(m: Manifest, es: seq<Event>, node: string)
    ensures Lookup(Replayed(m, es).nodeNotes, node) == Lookup(Fold(m, es).nodeNotes, node) <==>
            Agree(es, NotedNode(node), NoteOf())
  {
    WholeTraceAtItsEnd(m, es);
    ShownNote(m, es, node);
    ShownNote(m, StableSort(es, TimeOf), node);
    AgreeExactly(es, NotedNode(node), NoteOf(), None,
                 Lookup(Fold(m, es).nodeNotes, node), Lookup(Replayed(m, es).nodeNotes, node));
  }

  lemma ShownCheck(m: Manifest, es: seq<Event>, id: string)
    ensures NoneOf(es, OfCheck(id)) ==>
              Lookup(Fold(m, es).checks, id) == if id in m.checks then Some(CheckState(Pending, None)) else None
    ensures forall i :: Latest(es, i, OfCheck(id)) ==> Lookup(Fold(m, es).checks, id) == VerdictOf()(es[i])
  {
    if NoneOf(es, OfCheck(id)) {
      FoldShowsNoCheck(m, es, id);
    }
    forall i | Latest(es, i, OfCheck(id)) ensures Lookup(Fold(m, es).checks, id) == VerdictOf()(es[i]) {
      FoldShowsTheLatestCheck(m, es, id, i);
    }
  }

  lemma ReplayedCheck(m: Manifest, es: seq<Event>, id: string)
    ensures Lookup(Replayed(m, es).checks, id) == Lookup(Fold(m, es).checks, id) <==>
            Agree(es, OfCheck(id), VerdictOf())
  {
    WholeTraceAtItsEnd(m, es);
    ShownCheck(m, es, id);
    ShownCheck(m, StableSort(es, TimeOf), id);
    AgreeExactly(es, OfCheck(id), VerdictOf(), if id in m.checks then Some(CheckState(Pending, None)) else None,
                 Lookup(Fold(m, es).checks, id), Lookup(Replayed(m, es).checks, id));
  }

  lemma ShownPhase(m: Manifest, es: seq<Event>)
    ensures NoneOf(es, OfPhase()) ==> Fold(m, es).phase == None
    ensures forall i :: Latest(es, i, OfPhase()) ==> Fold(m, es).phase == PhaseOf()(es[i])
  {
    if NoneOf(es, OfPhase()) {
      FoldShowsNoPhase(m, es);
    }
    forall i | Latest(es, i, OfPhase()) ensures Fold(m, es).phase == PhaseOf()(es[i]) {
      FoldShowsTheLatestPhase(m, es, i);
    }
  }

  lemma ReplayedPhase(m: Manifest, es: seq<Event>)
    ensures Replayed(m, es).phase == Fold(m, es).phase <==> Agree(es, OfPhase(), PhaseOf())
  {
    WholeTraceAtItsEnd(m, es);
    ShownPhase(m, es);
    ShownPhase(m, StableSort(es, TimeOf));
    AgreeExactly(es, OfPhase(), PhaseOf(), None, Fold(m, es).phase, Replayed(m, es).phase);
  }

  // The log panel in full: it shows the same entries in the same order exactly when the last 200 to
  // arrive are in time order and none before them is later than any of them.
  lemma ReplayedLogPanel(m: Manifest, es: seq<Event>)
    ensures Replayed(m, es).logs == Fold(m, es).logs <==> TailIsGreatest(Filter(es, IsLog), TimeOf, 200)
  {
    ReplayedLogs(m, es);
    FoldKeepsTheLastLogs(m, es);
    TailSurvivesExactlyIfGreatest(Filter(es, IsLog), TimeOf, LOG_LIMIT);
  }

  ghost function OfFlow(edge: string): Event -> bool { (e: Event) => e.Flow? && e.edge == edge }

  lemma {:induction false} SamplesOfTheEdge(es: seq<Event>, edge: string)
    ensures var own, samples := Filter(es, OfFlow(edge)), FlowSamples(es, edge);
            && |samples| == |own|
            && forall i :: 0 <= i < |own| ==> own[i] == Flow(samples[i].t, edge, samples[i].count)
  {
    if es != [] {
      SamplesOfTheEdge(es[..|es| - 1], edge);
    }
  }

  lemma SameSamples(a: seq<Event>, b: seq<Event>, edge: string, n: nat)
    ensures LastN(FlowSamples(a, edge), n) == LastN(FlowSamples(b, edge), n) <==>
            LastN(Filter(a, OfFlow(edge)), n) == LastN(Filter(b, OfFlow(edge)), n)
  {
    SamplesOfTheEdge(a, edge);
    SamplesOfTheEdge(b, edge);
    SameTail(Filter(a, OfFlow(edge)), Filter(b, OfFlow(edge)), FlowSamples(a, edge), FlowSamples(b, edge), edge, n);
  }

  lemma SameTail(a: seq<Event>, b: seq<Event>, x: seq<FlowSample>, y: seq<FlowSample>, edge: string, n: nat)
    requires |x| == |a| && forall i :: 0 <= i < |a| ==> a[i] == Flow(x[i].t, edge, x[i].count)
    requires |y| == |b| && forall i :: 0 <= i < |b| ==> b[i] == Flow(y[i].t, edge, y[i].count)
    ensures LastN(x, n) == LastN(y, n) <==> LastN(a, n) == LastN(b, n)
  {
    SameFlows(LastN(a, n), LastN(b, n), LastN(x, n), LastN(y, n), edge);
  }

  lemma SameFlows(a: seq<Event>, b: seq<Event>, x: seq<FlowSample>, y: seq<FlowSample>, edge: string)
    requires |x| == |a| && forall i :: 0 <= i < |a| ==> a[i] == Flow(x[i].t, edge, x[i].count)
    requires |y| == |b| && forall i :: 0 <= i < |b| ==> b[i] == Flow(y[i].t, edge, y[i].count)
    ensures x == y <==> a == b
  {
    if a == b {
      forall i | 0 <= i < |x| ensures x[i] == y[i] {
        assert a[i] == b[i];
      }
    }
  }

  // Likewise the samples of an edge, with the last 30.
  lemma ReplayedFlow(m: Manifest, es: seq<Event>, edge: string)
    ensures Lookup(Replayed(m, es).flows, edge) == Lookup(Fold(m, es).flows, edge) <==>
            TailIsGreatest(Filter(es, OfFlow(edge)), TimeOf, 30)
  {
    var sorted, own := StableSort(es, TimeOf), Filter(es, OfFlow(edge));
    WholeTraceAtItsEnd(m, es);
    FoldKeepsTheLastSamples(m, es, edge);
    FoldKeepsTheLastSamples(m, sorted, edge);
    StableSortFilter(es, TimeOf, OfFlow(edge));
    StableSortLength(own, TimeOf);
    SamplesOfTheEdge(es, edge);
    SamplesOfTheEdge(sorted, edge);
    SameSamples(sorted, es, edge, FLOW_LIMIT);
    TailSurvivesExactlyIfGreatest(own, TimeOf, FLOW_LIMIT);
  }
}
