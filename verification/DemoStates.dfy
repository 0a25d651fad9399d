/** The browser's view of a demo, folded from its events: ui/src/state/demo-state.ts. */
module DemoStates {
  import opened Options
  import opened Sequences
  import opened Contract

  datatype SeriesPoint = SeriesPoint(t: Time, value: real)
  datatype FlowSample = FlowSample(t: Time, count: nat)
  datatype CheckState = CheckState(verdict: CheckStatus, observed: Option<string>)

  datatype DemoState = DemoState(
    t: real,
    phase: Option<string>,
    nodes: map<string, NodeStatus>,
    nodeNotes: map<string, string>,
    metrics: map<string, seq<SeriesPoint>>,
    flows: map<string, seq<FlowSample>>,
    checks: map<string, CheckState>,
    logs: seq<Event>,
    controls: seq<Event>)

  const LOG_LIMIT: nat := 200
  const FLOW_LIMIT: nat := 30

  function Lookup<V>(m: map<string, V>, id: string): Option<V> {
    if id in m then Some(m[id]) else None
  }

  function Append<T>(items: Option<seq<T>>, item: T, limit: Option<nat>): seq<T> {
    var all := items.GetOr([]) + [item];
    if limit.Some? then LastN(all, limit.value) else all
  }

  function InitialState(m: Manifest): DemoState {
    DemoState(
      0.0, None,
      map id | id in m.nodes :: Idle,
      map[], map[], map[],
      map id | id in m.checks :: CheckState(Pending, None),
      [], [])
  }

  function ReduceEvent(s: DemoState, e: Event): DemoState {
    var next := s.(t := Max(s.t, e.t));
    match e
    case Metric(t, id, value) =>
      next.(metrics := s.metrics[id := Append(Lookup(s.metrics, id), SeriesPoint(t, value), None)])
    case Flow(t, edge, count) =>
      next.(flows := s.flows[edge := Append(Lookup(s.flows, edge), FlowSample(t, count), Some(FLOW_LIMIT))])
    case Node(_, node, status, note) =>
      next.(nodes := s.nodes[node := status],
            nodeNotes := if note == None then s.nodeNotes else s.nodeNotes[node := note.value])
    case Phase(_, phase) => next.(phase := Some(phase))
    case Check(_, id, verdict, observed) => next.(checks := s.checks[id := CheckState(verdict, observed)])
    case Log(_, _, _, _) => next.(logs := Append(Some(s.logs), e, Some(LOG_LIMIT)))
    case Control(_, _) => next.(controls := Append(Some(s.controls), e, None))
  }

  // `events.reduce(reduceEvent, s)`
  function Reduce(s: DemoState, es: seq<Event>): DemoState {
    if es == [] then s else ReduceEvent(Reduce(s, es[..|es| - 1]), es[|es| - 1])
  }

  function Fold(m: Manifest, es: seq<Event>): DemoState {
    Reduce(InitialState(m), es)
  }

  function AtOrBefore(es: seq<Event>, until: real): (r: seq<Event>) {
    if es == [] then []
    else
      var rest := AtOrBefore(es[..|es| - 1], until);
      if es[|es| - 1].t <= until then rest + [es[|es| - 1]] else rest
  }

  // `foldEvents`; None is the default of no time limit.
  function FoldEvents(m: Manifest, es: seq<Event>, until: Option<real>): DemoState {
    Fold(m, if until.Some? then AtOrBefore(es, until.value) else es)
  }

  lemma {:induction false} ReduceConcat(s: DemoState, a: seq<Event>, b: seq<Event>)
    ensures Reduce(s, a + b) == Reduce(Reduce(s, a), b)
  {
    if b == [] {
      assert a + b == a;
    } else {
      var front, last := b[..|b| - 1], b[|b| - 1];
      ReduceConcat(s, a, front);
      assert b == front + [last];
      assert a + b == (a + front) + [last];
      ReduceOneOf(s, a + front, last, a + b);
      ReduceOneOf(Reduce(s, a), front, last, b);
    }
  }

  lemma ReduceOneOf(s: DemoState, es: seq<Event>, e: Event, all: seq<Event>)
    requires all == es + [e]
    ensures Reduce(s, all) == ReduceEvent(Reduce(s, es), e)
  {
    assert all[..|all| - 1] == es;
  }

  lemma ReduceOne(s: DemoState, es: seq<Event>, e: Event)
    ensures Reduce(s, es + [e]) == ReduceEvent(Reduce(s, es), e)
  {
    assert (es + [e])[..|es|] == es;
  }

  /* What the folded state says about the events, with no mention of the reducer. */

  function MetricPoints(es: seq<Event>, id: string): seq<SeriesPoint> {
    if es == [] then []
    else
      var rest, e := MetricPoints(es[..|es| - 1], id), es[|es| - 1];
      if e.Metric? && e.id == id then rest + [SeriesPoint(e.t, e.value)] else rest
  }

  function FlowSamples(es: seq<Event>, edge: string): seq<FlowSample> {
    if es == [] then []
    else
      var rest, e := FlowSamples(es[..|es| - 1], edge), es[|es| - 1];
      if e.Flow? && e.edge == edge then rest + [FlowSample(e.t, e.count)] else rest
  }

  // es[i] is the last event of its kind.
  ghost predicate Latest(es: seq<Event>, i: int, kind: Event -> bool) {
    0 <= i < |es| && kind(es[i]) && forall j :: i < j < |es| ==> !kind(es[j])
  }

  ghost predicate NoneOf(es: seq<Event>, kind: Event -> bool) {
    forall j :: 0 <= j < |es| ==> !kind(es[j])
  }

  ghost function OfNode(node: string): Event -> bool { (e: Event) => e.Node? && e.node == node }
  ghost function NotedNode(node: string): Event -> bool { (e: Event) => e.Node? && e.node == node && e.note.Some? }
  ghost function OfPhase(): Event -> bool { (e: Event) => e.Phase? }
  ghost function OfCheck(id: string): Event -> bool { (e: Event) => e.Check? && e.id == id }

  /* One step, field by field. */

  lemma LogsAfter(s: DemoState, e: Event)
    ensures ReduceEvent(s, e).logs == if IsLog(e) then LastN(s.logs + [e], LOG_LIMIT) else s.logs
    ensures ReduceEvent(s, e).controls == if IsControl(e) then s.controls + [e] else s.controls
  {
  }

  lemma SeriesAfter(s: DemoState, e: Event, id: string)
    ensures Lookup(ReduceEvent(s, e).metrics, id) ==
            if e.Metric? && e.id == id then Some(Lookup(s.metrics, id).GetOr([]) + [SeriesPoint(e.t, e.value)])
            else Lookup(s.metrics, id)
    ensures Lookup(ReduceEvent(s, e).flows, id) ==
            if e.Flow? && e.edge == id
            then Some(LastN(Lookup(s.flows, id).GetOr([]) + [FlowSample(e.t, e.count)], FLOW_LIMIT))
            else Lookup(s.flows, id)
  {
  }

  lemma {:induction false} FoldKeepsTheLastLogs(m: Manifest, es: seq<Event>)
    ensures Fold(m, es).logs == LastN(Filter(es, IsLog), 200)
  {
    if es != [] {
      var front, e := es[..|es| - 1], es[|es| - 1];
      FoldKeepsTheLastLogs(m, front);
      LogsAfter(Fold(m, front), e);
      LastNOfWindow(Filter(front, IsLog), e, LOG_LIMIT);
    }
  }

  lemma {:induction false} FoldKeepsEveryControl(m: Manifest, es: seq<Event>)
    ensures Fold(m, es).controls == Filter(es, IsControl)
  {
    if es != [] {
      FoldKeepsEveryControl(m, es[..|es| - 1]);
      LogsAfter(Fold(m, es[..|es| - 1]), es[|es| - 1]);
    }
  }

  lemma {:induction false} FoldKeepsEveryPoint(m: Manifest, es: seq<Event>, id: string)
    ensures Lookup(Fold(m, es).metrics, id) ==
            if MetricPoints(es, id) == [] then None else Some(MetricPoints(es, id))
  {
    if es != [] {
      FoldKeepsEveryPoint(m, es[..|es| - 1], id);
      SeriesAfter(Fold(m, es[..|es| - 1]), es[|es| - 1], id);
    }
  }

  lemma {:induction false} FoldKeepsTheLastSamples(m: Manifest, es: seq<Event>, edge: string)
    ensures Lookup(Fold(m, es).flows, edge) ==
            if FlowSamples(es, edge) == [] then None else Some(LastN(FlowSamples(es, edge), 30))
  {
    if es != [] {
      var front, e := es[..|es| - 1], es[|es| - 1];
      FoldKeepsTheLastSamples(m, front, edge);
      SeriesAfter(Fold(m, front), e, edge);
      if e.Flow? && e.edge == edge {
        LastNOfWindow(FlowSamples(front, edge), FlowSample(e.t, e.count), FLOW_LIMIT);
      }
    }
  }

  lemma StatusAfter(s: DemoState, e: Event, node: string)
    ensures Lookup(ReduceEvent(s, e).nodes, node) ==
            if e.Node? && e.node == node then Some(e.status) else Lookup(s.nodes, node)
  {
  }

  lemma {:induction false} FoldShowsTheLatestStatus(m: Manifest, es: seq<Event>, node: string, i: int)
    requires Latest(es, i, OfNode(node))
    ensures Lookup(Fold(m, es).nodes, node) == Some(es[i].status)
  {
    var front, e := es[..|es| - 1], es[|es| - 1];
    StatusAfter(Fold(m, front), e, node);
    if i < |es| - 1 {
      FoldShowsTheLatestStatus(m, front, node, i);
      assert !OfNode(node)(e);
    }
  }

  lemma {:induction false} FoldShowsNoStatus(m: Manifest, es: seq<Event>, node: string)
    requires NoneOf(es, OfNode(node))
    ensures Lookup(Fold(m, es).nodes, node) == if node in m.nodes then Some(Idle) else None
  {
    if es != [] {
      var front, e := es[..|es| - 1], es[|es| - 1];
      StatusAfter(Fold(m, front), e, node);
      FoldShowsNoStatus(m, front, node);
      assert !OfNode(node)(e);
    }
  }

  lemma NoteAfter(s: DemoState, e: Event, node: string)
    ensures Lookup(ReduceEvent(s, e).nodeNotes, node) ==
            if e.Node? && e.node == node && e.note.Some? then e.note else Lookup(s.nodeNotes, node)
  {
  }

  lemma {:induction false} FoldShowsTheLatestNote(m: Manifest, es: seq<Event>, node: string, i: int)
    requires Latest(es, i, NotedNode(node))
    ensures Lookup(Fold(m, es).nodeNotes, node) == es[i].note
  {
    var front, e := es[..|es| - 1], es[|es| - 1];
    NoteAfter(Fold(m, front), e, node);
    if i < |es| - 1 {
      FoldShowsTheLatestNote(m, front, node, i);
      assert !NotedNode(node)(e);
    }
  }

  lemma {:induction false} FoldShowsNoNote(m: Manifest, es: seq<Event>, node: string)
    requires NoneOf(es, NotedNode(node))
    ensures Lookup(Fold(m, es).nodeNotes, node) == None
  {
    if es != [] {
      var front, e := es[..|es| - 1], es[|es| - 1];
      NoteAfter(Fold(m, front), e, node);
      FoldShowsNoNote(m, front, node);
      assert !NotedNode(node)(e);
    }
  }

  lemma CheckAfter(s: DemoState, e: Event, id: string)
    ensures Lookup(ReduceEvent(s, e).checks, id) ==
            if e.Check? && e.id == id then Some(CheckState(e.verdict, e.observed)) else Lookup(s.checks, id)
  {
  }

  lemma {:induction false} FoldShowsTheLatestCheck(m: Manifest, es: seq<Event>, id: string, i: int)
    requires Latest(es, i, OfCheck(id))
    ensures Lookup(Fold(m, es).checks, id) == Some(CheckState(es[i].verdict, es[i].observed))
  {
    var front, e := es[..|es| - 1], es[|es| - 1];
    CheckAfter(Fold(m, front), e, id);
    if i < |es| - 1 {
      FoldShowsTheLatestCheck(m, front, id, i);
      assert !OfCheck(id)(e);
    }
  }

  lemma {:induction false} FoldShowsNoCheck(m: Manifest, es: seq<Event>, id: string)
    requires NoneOf(es, OfCheck(id))
    ensures Lookup(Fold(m, es).checks, id) == if id in m.checks then Some(CheckState(Pending, None)) else None
  {
    if es != [] {
      var front, e := es[..|es| - 1], es[|es| - 1];
      CheckAfter(Fold(m, front), e, id);
      FoldShowsNoCheck(m, front, id);
      assert !OfCheck(id)(e);
    }
  }

  lemma PhaseAfter(s: DemoState, e: Event)
    ensures ReduceEvent(s, e).phase == if e.Phase? then Some(e.phase) else s.phase
  {
  }

  lemma {:induction false} FoldShowsTheLatestPhase(m: Manifest, es: seq<Event>, i: int)
    requires Latest(es, i, OfPhase())
    ensures Fold(m, es).phase == Some(es[i].phase)
  {
    var front, e := es[..|es| - 1], es[|es| - 1];
    PhaseAfter(Fold(m, front), e);
    if i < |es| - 1 {
      FoldShowsTheLatestPhase(m, front, i);
      assert !OfPhase()(e);
    }
  }

  lemma {:induction false} FoldShowsNoPhase(m: Manifest, es: seq<Event>)
    requires NoneOf(es, OfPhase())
    ensures Fold(m, es).phase == None
  {
    if es != [] {
      var front, e := es[..|es| - 1], es[|es| - 1];
      PhaseAfter(Fold(m, front), e);
      FoldShowsNoPhase(m, front);
      assert !OfPhase()(e);
    }
  }

  lemma ReduceTime(s: DemoState, e: Event)
    ensures ReduceEvent(s, e).t == Max(s.t, e.t)
  {
  }

  // The clock of the state is the greatest event time, or 0.
  lemma {:induction false} FoldTimeBounds(m: Manifest, es: seq<Event>, i: nat)
    ensures 0.0 <= Fold(m, es).t
    ensures i < |es| ==> es[i].t <= Fold(m, es).t
  {
    if es != [] {
      FoldTimeBounds(m, es[..|es| - 1], i);
      ReduceTime(Fold(m, es[..|es| - 1]), es[|es| - 1]);
    }
  }

  lemma {:induction false} FoldTimeIsAttained(m: Manifest, es: seq<Event>) returns (i: nat)
    requires Fold(m, es).t != 0.0
    ensures i < |es| && es[i].t == Fold(m, es).t
  {
    ReduceTime(Fold(m, es[..|es| - 1]), es[|es| - 1]);
    i := |es| - 1;
    if es[i].t != Fold(m, es).t {
      i := FoldTimeIsAttained(m, es[..|es| - 1]);
    }
  }
}
