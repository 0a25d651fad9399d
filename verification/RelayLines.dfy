/** How the relay turns a runner's output and a viewer's requests into events:
    relay/src/lines.ts, the POST route of relay/src/server.ts and the sources wired in relay/src/run.ts. */
module RelayLines {
  import opened Options
  import opened Decimals
  import opened Contract
  import opened Sequences
  import opened Sorting

  function Warning(t: Time, msg: string): Event {
    Log(t, Warn, msg, None)
  }

  function Join(parts: seq<string>, separator: string): string {
    if parts == [] then ""
    else if |parts| == 1 then parts[0]
    else parts[0] + separator + Join(parts[1..], separator)
  }

  function ToLabEvent(m: Manifest, line: ParsedLine, t: Time): Event {
    match line
    case Rejected(error) => Warning(t, "invalid event: " + error)
    case Parsed(e) =>
      if e.Control? then Warning(t, "invalid event: runners may not emit control events")
      else if EventReferenceErrors(m, e) != [] then
        Warning(t, "invalid event: " + Join(EventReferenceErrors(m, e), "; "))
      else e
  }

  const CONTROL_ROUTE := "/control/"

  // The pattern ^\/control\/([a-z0-9-]+)$.
  function ControlIdFrom(path: string): Option<string> {
    if CONTROL_ROUTE <= path then
      var id := path[|CONTROL_ROUTE|..];
      if id != [] && forall i :: 0 <= i < |id| ==> IsDigit(id[i]) || 'a' <= id[i] <= 'z' || id[i] == '-'
      then Some(id) else None
    else None
  }

  // Everything that can reach the hub; `now` is the relay's clock, the runner's times are in the lines.
  datatype Input =
    | Stdout(line: ParsedLine, now: Time)
    | Stderr(text: string, now: Time)
    | Post(path: string, now: Time)

  function Published(m: Manifest, input: Input): Option<Event> {
    match input
    case Stdout(line, now) => Some(ToLabEvent(m, line, now))
    case Stderr(text, now) => Some(Warning(now, text))
    case Post(path, now) =>
      var id := ControlIdFrom(path);
      if id.Some? && id.value in m.controls then Some(Control(now, id.value)) else None
  }

  function AsSeq<T>(o: Option<T>): seq<T> {
    if o.Some? then [o.value] else []
  }

  // The hub's history after these inputs.
  function History(m: Manifest, inputs: seq<Input>): seq<Event> {
    if inputs == [] then []
    else History(m, inputs[..|inputs| - 1]) + AsSeq(Published(m, inputs[|inputs| - 1]))
  }

  // The lines the relay passes on as they are.
  predicate Accepted(m: Manifest, input: Input) {
    input.Stdout? && input.line.Parsed? && !input.line.event.Control? && Known(m, input.line.event)
  }

  function RunnerEvents(m: Manifest, inputs: seq<Input>): seq<Event> {
    if inputs == [] then []
    else
      var rest, input := RunnerEvents(m, inputs[..|inputs| - 1]), inputs[|inputs| - 1];
      if Accepted(m, input) then rest + [input.line.event] else rest
  }

  ghost predicate RelayClockNeverGoesBack(inputs: seq<Input>) {
    forall i, j :: 0 <= i < j < |inputs| ==> inputs[i].now <= inputs[j].now
  }

  // Only what the runner sent can be a signal, ...
  lemma {:induction false} SignalsAreTheRunners(m: Manifest, inputs: seq<Input>)
    ensures Filter(History(m, inputs), IsSignal) == Filter(RunnerEvents(m, inputs), IsSignal)
  {
    if inputs != [] {
      var front, input := inputs[..|inputs| - 1], inputs[|inputs| - 1];
      SignalsAreTheRunners(m, front);
      FilterConcat(History(m, front), AsSeq(Published(m, input)), IsSignal);
      var h := AsSeq(Published(m, input));
      assert h != [] ==> h[..0] == [];
      if input.Stdout? && input.line.Parsed? { ReferenceErrorsOfTheUnknown(m, input.line.event); }
      if Accepted(m, input) {
        FilterConcat(RunnerEvents(m, front), [input.line.event], IsSignal);
        assert h == [input.line.event];
      } else {
        assert Filter(h, IsSignal) == [];
      }
    }
  }

  // ... and every control carries the relay's clock, so controls stand in time order.
  lemma {:induction false} ControlsCarryTheRelayClock(m: Manifest, inputs: seq<Input>, e: Event, now: real)
    requires e in History(m, inputs) && e.Control?
    requires forall i :: 0 <= i < |inputs| ==> inputs[i].now <= now
    ensures e.t <= now
  {
    var front, input := inputs[..|inputs| - 1], inputs[|inputs| - 1];
    if e in History(m, front) {
      ControlsCarryTheRelayClock(m, front, e, now);
    } else {
      assert e in AsSeq(Published(m, input));
    }
  }

  lemma ControlsAreNoLater(m: Manifest, inputs: seq<Input>, now: real)
    requires forall i :: 0 <= i < |inputs| ==> inputs[i].now <= now
    ensures forall c :: c in Filter(History(m, inputs), IsControl) ==> TimeOf(c) <= now
  {
    forall c | c in Filter(History(m, inputs), IsControl) ensures TimeOf(c) <= now {
      FilterMembers(History(m, inputs), IsControl, c);
      ControlsCarryTheRelayClock(m, inputs, c, now);
    }
  }

  lemma {:induction false} ControlsAreInTimeOrder(m: Manifest, inputs: seq<Input>)
    requires RelayClockNeverGoesBack(inputs)
    ensures Sorted(Filter(History(m, inputs), IsControl), TimeOf)
  {
    if inputs != [] {
      var front, input := inputs[..|inputs| - 1], inputs[|inputs| - 1];
      ControlsAreInTimeOrder(m, front);
      ControlsAreNoLater(m, front, input.now);
      OneMoreKeepsOrder(History(m, front), Published(m, input), input.now);
      OnlyPostsAreControls(m, input);
    }
  }

  lemma OnlyPostsAreControls(m: Manifest, input: Input)
    ensures Published(m, input).Some? && IsControl(Published(m, input).value) ==>
              Published(m, input).value.t == input.now
  {
  }

  lemma OneMoreKeepsOrder(before: seq<Event>, published: Option<Event>, now: real)
    requires Sorted(Filter(before, IsControl), TimeOf)
    requires forall c :: c in Filter(before, IsControl) ==> TimeOf(c) <= now
    requires published.Some? && IsControl(published.value) ==> published.value.t == now
    ensures Sorted(Filter(before + AsSeq(published), IsControl), TimeOf)
  {
    if published.Some? {
      FilterOneMore(before, published.value, IsControl);
      if IsControl(published.value) {
        SortedAppend(Filter(before, IsControl), published.value, TimeOf);
      }
    } else {
      assert before + [] == before;
    }
  }

  // What the relay makes of a line its runner prints.
  lemma LineIsPassedOnOrReported(m: Manifest, line: ParsedLine, now: Time)
    ensures var e := ToLabEvent(m, line, now);
            && (line.Rejected? ==> e == Log(now, Warn, "invalid event: " + line.error, None))
            && (line.Parsed? && line.event.Control? ==>
                  e == Log(now, Warn, "invalid event: runners may not emit control events", None))
            && (line.Parsed? && !line.event.Control? && Known(m, line.event) ==> e == line.event)
            && (line.Parsed? && !line.event.Control? && !Known(m, line.event) ==>
                  e == Log(now, Warn, "invalid event: unknown " + Subject(line.event), None))
  {
    if line.Parsed? {
      ReferenceErrorsOfTheUnknown(m, line.event);
      assert "invalid event: " + ("unknown " + Subject(line.event)) == "invalid event: unknown " + Subject(line.event);
    }
  }

  // The path is the control route's with this id, lowercase letters, digits and dashes, and the
  // manifest lists it.
  ghost predicate Names(m: Manifest, path: string, id: string) {
    && path == "/control/" + id && id in m.controls && id != []
    && forall i :: 0 <= i < |id| ==> 'a' <= id[i] <= 'z' || '0' <= id[i] <= '9' || id[i] == '-'
  }

  lemma RouteNamesAControl(m: Manifest, path: string, id: string)
    ensures ControlIdFrom(path) == Some(id) && id in m.controls <==> Names(m, path, id)
  {
    if path == "/control/" + id {
      assert path[|CONTROL_ROUTE|..] == id;
    }
    if ControlIdFrom(path) == Some(id) {
      assert path == path[..|CONTROL_ROUTE|] + path[|CONTROL_ROUTE|..];
    }
  }

  // Whatever arrives, the history holds only events its manifest knows: each is listed in the
  // manifest in its own collection.
  lemma {:induction false} HistoryHasNoReferenceErrors(m: Manifest, inputs: seq<Input>, e: Event)
    requires e in History(m, inputs)
    ensures Known(m, e)
    ensures e.Metric? ==> e.id in m.metrics
    ensures e.Flow? ==> e.edge in m.edges
    ensures e.Node? ==> e.node in m.nodes
    ensures e.Phase? ==> e.phase in m.phases
    ensures e.Check? ==> e.id in m.checks
    ensures e.Control? ==> e.id in m.controls
    ensures e.Log? && e.about.Some? ==> e.about.value in m.nodes
  {
    var front, input := inputs[..|inputs| - 1], inputs[|inputs| - 1];
    if e in History(m, front) {
      HistoryHasNoReferenceErrors(m, front, e);
    } else {
      assert e in AsSeq(Published(m, input));
      PublishedIsKnown(m, input, e);
    }
  }

  lemma PublishedIsKnown(m: Manifest, input: Input, e: Event)
    requires Published(m, input) == Some(e)
    ensures Known(m, e)
  {
    if input.Stdout? {
      LineIsPassedOnOrReported(m, input.line, input.now);
    }
  }
}
