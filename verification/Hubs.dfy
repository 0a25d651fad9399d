/** The relay process: relay/src/hub.ts, `streamEvents` and the control route of relay/src/server.ts,
    and their wiring in relay/src/run.ts. */
module Hubs {
  import opened Options
  import opened Contract
  import opened SseIds
  import opened RelayLines
  import opened Traces

  // One server-sent event. On the wire the id is the text FormatSseId gives and the data line
  // parses back to the event.
  datatype Message = Message(id: SseId, event: Event)

  // The messages of a run's history from an index on.
  function MessagesFrom(runId: string, history: seq<Event>, from: nat): seq<Message> {
    if |history| <= from then []
    else
      var last := |history| - 1;
      MessagesFrom(runId, history[..last], from) + [Message(SseId(runId, last), history[last])]
  }

  // Event from + k of the history is message k, under its own index.
  lemma {:induction false} MessagesFromAt(runId: string, history: seq<Event>, from: nat)
    ensures var r := MessagesFrom(runId, history, from);
            && |r| == (if |history| <= from then 0 else |history| - from)
            && forall k :: 0 <= k < |r| ==> r[k] == Message(SseId(runId, from + k), history[from + k])
  {
    if from < |history| {
      var front, n := history[..|history| - 1], |history| - 1 - from;
      MessagesFromAt(runId, front, from);
      var r := MessagesFrom(runId, history, from);
      assert r == MessagesFrom(runId, front, from) + [Message(SseId(runId, from + n), history[from + n])];
      forall k | 0 <= k < n ensures r[k] == Message(SseId(runId, from + k), history[from + k]) {
        assert r[k] == MessagesFrom(runId, front, from)[k] && front[from + k] == history[from + k];
      }
    }
  }

  lemma MessagesFromGrow(runId: string, history: seq<Event>, from: nat, e: Event)
    requires from <= |history|
    ensures MessagesFrom(runId, history + [e], from) ==
            MessagesFrom(runId, history, from) + [Message(SseId(runId, |history|), e)]
  {
    assert (history + [e])[..|history|] == history;
  }

  // A response that is being streamed; as a listener of the hub it stands for the closure that writes to it.
  class Connection {
    const runId: string
    var written: seq<Message>
    ghost var start: nat

    constructor (runId: string)
      ensures this.runId == runId && written == []
    {
      this.runId := runId;
      written := [];
    }
  }

  class Hub {
    var history: seq<Event>
    var listeners: set<Connection>

    constructor ()
      ensures history == [] && listeners == {}
    {
      history, listeners := [], {};
    }

    method Publish(event: Event)
      modifies this`history, listeners`written
      ensures history == old(history) + [event]
      ensures forall c :: c in listeners ==>
                c.written == old(c.written) + [Message(SseId(c.runId, |old(history)|), event)]
    {
      var index := |history|;
      history := history + [event];
      var rest := listeners;
      while rest != {}
        invariant rest <= listeners == old(listeners) && history == old(history) + [event]
        invariant forall c :: c in rest ==> c.written == old(c.written)
        invariant forall c :: c in listeners - rest ==>
                    c.written == old(c.written) + [Message(SseId(c.runId, index), event)]
        decreases |rest|
      {
        var c :| c in rest;
        c.written := c.written + [Message(SseId(c.runId, index), event)];
        rest := rest - {c};
      }
    }

    method Subscribe(c: Connection)
      modifies this`listeners
      ensures listeners == old(listeners) + {c}
    {
      listeners := listeners + {c};
    }

    method Unsubscribe(c: Connection)
      modifies this`listeners
      ensures listeners == old(listeners) - {c}
    {
      listeners := listeners - {c};
    }
  }

  function ControlIds(es: seq<Event>): seq<string> {
    if es == [] then []
    else
      var rest, e := ControlIds(es[..|es| - 1]), es[|es| - 1];
      if e.Control? then rest + [e.id] else rest
  }

  lemma ControlIdsNext(es: seq<Event>, e: Event)
    ensures ControlIds(es + [e]) == ControlIds(es) + if e.Control? then [e.id] else []
  {
    assert (es + [e])[..|es|] == es;
  }

  datatype Status = Accepted202 | NotFound404

  class Relay {
    const manifest: Manifest
    const runId: string
    const hub: Hub
    var sent: seq<string>  // control lines written to the runner's standard input
    ghost var inputs: seq<Input>

    // Every open stream has been written exactly the history from where it started.
    ghost predicate Streaming()
      reads this, hub, hub.listeners
    {
      forall c :: c in hub.listeners ==>
        && c.runId == runId
        && c.start <= |hub.history|
        && c.written == MessagesFrom(runId, hub.history, c.start)
    }

    // The history is what the inputs amount to, and the recorded controls are the ones the runner
    // was sent.
    ghost predicate Valid()
      reads this, hub, hub.listeners
    {
      Streaming() && hub.history == History(manifest, inputs) && sent == ControlIds(hub.history)
    }

    constructor (manifest: Manifest, runId: string)
      ensures Valid() && fresh(hub) && inputs == [] && hub.listeners == {}
      ensures this.manifest == manifest && this.runId == runId
    {
      this.manifest, this.runId := manifest, runId;
      hub := new Hub();
      sent, inputs := [], [];
    }

    // `streamEvents`: replay and subscription in one turn of the event loop, so nothing can be
    // published in between.
    method StreamEvents(lastEventId: Option<string>, c: Connection)
      requires Valid() && c !in hub.listeners && c.runId == runId && c.written == []
      modifies hub`listeners, c
      ensures Valid() && hub.listeners == old(hub.listeners) + {c}
      ensures c.written == MessagesFrom(runId, hub.history, ResumeIndex(lastEventId, runId))
      ensures ResumeIndex(lastEventId, runId) <= |hub.history| ==> c.start == ResumeIndex(lastEventId, runId)
    {
      var from := ResumeIndex(lastEventId, runId);
      Replay(hub.history, from, c);
      c.start := if from <= |hub.history| then from else |hub.history|;
      hub.Subscribe(c);
    }

    // Writes the events from an index on, passing over those before it.
    method Replay(events: seq<Event>, from: nat, c: Connection)
      requires c.written == []
      modifies c`written
      ensures c.written == MessagesFrom(c.runId, events, from)
    {
      var index := 0;
      while index < |events|
        invariant 0 <= index <= |events|
        invariant c.written == MessagesFrom(c.runId, events[..index], from)
      {
        assert events[..index + 1] == events[..index] + [events[index]];
        if from <= index {
          MessagesFromGrow(c.runId, events[..index], from, events[index]);
          c.written := c.written + [Message(SseId(c.runId, index), events[index])];
        }
        index := index + 1;
      }
      assert events[..index] == events;
    }

    method OnClose(c: Connection)
      requires Valid()
      modifies hub`listeners
      ensures Valid() && hub.listeners == old(hub.listeners) - {c}
    {
      hub.Unsubscribe(c);
    }

    method Take(event: Event)
      requires Streaming()
      modifies hub`history, hub.listeners`written
      ensures Streaming() && hub.listeners == old(hub.listeners) && hub.history == old(hub.history) + [event]
    {
      ghost var before := hub.history;
      hub.Publish(event);
      forall c | c in hub.listeners ensures c.written == MessagesFrom(runId, hub.history, c.start) {
        MessagesFromGrow(runId, before, c.start, event);
      }
    }

    lemma HistoryNext(before: seq<Input>, input: Input)
      ensures History(manifest, before + [input]) == History(manifest, before) + AsSeq(Published(manifest, input))
    {
      assert (before + [input])[..|before|] == before;
    }

    method OnStdoutLine(line: ParsedLine, now: Time)
      requires Valid()
      modifies hub`history, hub.listeners`written, this`inputs
      ensures Valid() && inputs == old(inputs) + [Stdout(line, now)] && hub.listeners == old(hub.listeners)
      ensures |hub.history| == |old(hub.history)| + 1 && old(hub.history) < hub.history
      ensures var e := hub.history[|old(hub.history)|];
              && (line.Rejected? ==> e == Log(now, Warn, "invalid event: " + line.error, None))
              && (line.Parsed? && line.event.Control? ==>
                    e == Log(now, Warn, "invalid event: runners may not emit control events", None))
              && (line.Parsed? && !line.event.Control? && Known(manifest, line.event) ==> e == line.event)
              && (line.Parsed? && !line.event.Control? && !Known(manifest, line.event) ==>
                    e == Log(now, Warn, "invalid event: unknown " + Subject(line.event), None))
    {
      LineIsPassedOnOrReported(manifest, line, now);
      HistoryNext(inputs, Stdout(line, now));
      inputs := inputs + [Stdout(line, now)];
      var event := ToLabEvent(manifest, line, now);
      ControlIdsNext(hub.history, event);
      Take(event);
    }

    method OnStderrLine(text: string, now: Time)
      requires Valid()
      modifies hub`history, hub.listeners`written, this`inputs
      ensures Valid() && inputs == old(inputs) + [Stderr(text, now)] && hub.listeners == old(hub.listeners)
      ensures hub.history == old(hub.history) + [Log(now, Warn, text, None)]
    {
      HistoryNext(inputs, Stderr(text, now));
      inputs := inputs + [Stderr(text, now)];
      ControlIdsNext(hub.history, Warning(now, text));
      Take(Warning(now, text));
    }

    method OnPost(path: string, now: Time) returns (status: Status)
      requires Valid()
      modifies hub`history, hub.listeners`written, this`inputs, this`sent
      ensures Valid() && inputs == old(inputs) + [Post(path, now)] && hub.listeners == old(hub.listeners)
      ensures status == Accepted202 <==> exists id :: Names(manifest, path, id)
      ensures status == NotFound404 ==> hub.history == old(hub.history) && sent == old(sent)
      ensures forall id :: Names(manifest, path, id) ==>
                && hub.history == old(hub.history) + [Control(now, id)]
                && sent == old(sent) + [id]
    {
      hide Names, ControlIdFrom;
      forall id ensures Names(manifest, path, id) <==> ControlIdFrom(path) == Some(id) && id in manifest.controls {
        RouteNamesAControl(manifest, path, id);
      }
      HistoryNext(inputs, Post(path, now));
      inputs := inputs + [Post(path, now)];
      var id := ControlIdFrom(path);
      if id == None || id.value !in manifest.controls {
        return NotFound404;
      }
      sent := sent + [id.value];
      ControlIdsNext(hub.history, Control(now, id.value));
      Take(Control(now, id.value));
      return Accepted202;
    }

    // What `--record` writes when the runner ends.
    method Record() returns (trace: Trace)
      requires Valid()
      ensures trace == BuildTrace(manifest, History(manifest, inputs))
      ensures var report := ValidateTrace(manifest, trace);
              report.warnings == [] && (report.errors == [] <==> exists e :: e in hub.history && IsPhase(e))
    {
      trace := BuildTrace(manifest, hub.history);
      RecordingValidates(manifest, inputs);
    }
  }
}
