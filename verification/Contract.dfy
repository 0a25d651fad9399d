/** The event vocabulary runners, relay and browser share: contract/src/events.ts and manifest.ts.
    A value of these types is one the zod schemas accept. */
module Contract {
  import opened Options

  type Time = t: real | 0.0 <= t

  datatype NodeStatus = Idle | Starting | Healthy | Busy | Degraded | Down | Done
  datatype CheckStatus = Pending | Pass | Fail
  datatype LogLevel = Info | Warn | Error

  datatype Event =
    | Metric(t: Time, id: string, value: real)
    | Flow(t: Time, edge: string, count: nat)
    | Node(t: Time, node: string, status: NodeStatus, note: Option<string>)
    | Phase(t: Time, phase: string)
    | Check(t: Time, id: string, verdict: CheckStatus, observed: Option<string>)
    | Log(t: Time, level: LogLevel, msg: string, about: Option<string>)
    | Control(t: Time, id: string)

  // The parts of a manifest that events refer to, the ids of each collection, and the rest of its text.
  datatype Manifest = Manifest(
    id: string,
    metrics: seq<string>,
    edges: seq<string>,
    nodes: seq<string>,
    phases: seq<string>,
    checks: seq<string>,
    controls: seq<string>,
    rest: string)

  // `parseEventLine`: an accepted event or the reason for rejecting the line.
  datatype ParsedLine = Parsed(event: Event) | Rejected(error: string)

  function TimeOf(e: Event): real { e.t }
  predicate IsLog(e: Event) { e.Log? }
  predicate IsControl(e: Event) { e.Control? }
  predicate IsPhase(e: Event) { e.Phase? }
  // What only a runner's accepted events can carry.
  predicate IsSignal(e: Event) { !e.Log? && !e.Control? }

  function EventReferenceErrors(m: Manifest, e: Event): seq<string> {
    match e
    case Metric(_, id, _) => if id in m.metrics then [] else ["unknown metric: " + id]
    case Flow(_, edge, _) => if edge in m.edges then [] else ["unknown edge: " + edge]
    case Node(_, node, _, _) => if node in m.nodes then [] else ["unknown node: " + node]
    case Phase(_, phase) => if phase in m.phases then [] else ["unknown phase: " + phase]
    case Check(_, id, _, _) => if id in m.checks then [] else ["unknown check: " + id]
    case Control(_, id) => if id in m.controls then [] else ["unknown control: " + id]
    case Log(_, _, _, about) =>
      if about == None || about.value in m.nodes then [] else ["unknown node: " + about.value]
  }

  // Everything an event is about is listed in the manifest, in its own collection.
  predicate Known(m: Manifest, e: Event) {
    && (e.Metric? ==> e.id in m.metrics)
    && (e.Flow? ==> e.edge in m.edges)
    && (e.Node? ==> e.node in m.nodes)
    && (e.Phase? ==> e.phase in m.phases)
    && (e.Check? ==> e.id in m.checks)
    && (e.Control? ==> e.id in m.controls)
    && (e.Log? && e.about.Some? ==> e.about.value in m.nodes)
  }

  // What an event is about, as a message names it.
  function Subject(e: Event): string {
    match e
    case Metric(_, id, _) => "metric: " + id
    case Flow(_, edge, _) => "edge: " + edge
    case Node(_, node, _, _) => "node: " + node
    case Phase(_, phase) => "phase: " + phase
    case Check(_, id, _, _) => "check: " + id
    case Control(_, id) => "control: " + id
    case Log(_, _, _, about) => "node: " + about.GetOr("")
  }

  // An event has exactly one reference error if it is not known, and none if it is.
  lemma ReferenceErrorsOfTheUnknown(m: Manifest, e: Event)
    ensures EventReferenceErrors(m, e) == if Known(m, e) then [] else ["unknown " + Subject(e)]
  {
    match e
    case Metric(_, id, _) => Glued("unknown ", "metric: ", "unknown metric: ", id);
    case Flow(_, edge, _) => Glued("unknown ", "edge: ", "unknown edge: ", edge);
    case Node(_, node, _, _) => Glued("unknown ", "node: ", "unknown node: ", node);
    case Phase(_, phase) => Glued("unknown ", "phase: ", "unknown phase: ", phase);
    case Check(_, id, _, _) => Glued("unknown ", "check: ", "unknown check: ", id);
    case Control(_, id) => Glued("unknown ", "control: ", "unknown control: ", id);
    case Log(_, _, _, about) => Glued("unknown ", "node: ", "unknown node: ", about.GetOr(""));
  }

  lemma Glued(a: string, b: string, ab: string, c: string)
    requires a + b == ab
    ensures a + (b + c) == ab + c
  {
  }
}
