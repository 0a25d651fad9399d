/** A live view only moves forward: over any run of the network and of restarting relays, a page
    shows one more event of its run or begins a later run, and never goes back. */
module LiveOrders {
  import opened Options
  import opened Contract
  import opened DemoStates
  import opened SseIds
  import opened Hubs
  import opened LiveStreams

  // The relay processes of a run of the world, in the order they were started.
  function RunsAfter(runs: seq<string>, step: Step): seq<string> {
    if step.Restart? then runs + [step.runId] else runs
  }

  function Runs(first: string, steps: seq<Step>): seq<string> {
    if steps == [] then [first] else RunsAfter(Runs(first, steps[..|steps| - 1]), steps[|steps| - 1])
  }

  // Which in that order a run is, from 1; 0 for a run there was not.
  function Generation(runs: seq<string>, runId: string): (g: nat)
    ensures g <= |runs|
    ensures g > 0 ==> runs[g - 1] == runId
  {
    if runs == [] then 0
    else if runs[|runs| - 1] == runId then |runs|
    else Generation(runs[..|runs| - 1], runId)
  }

  lemma GenerationStays(runs: seq<string>, runId: string, next: string)
    ensures Generation(runs + [next], runId) == if runId == next then |runs| + 1 else Generation(runs, runId)
  {
    assert (runs + [next])[..|runs|] == runs;
  }

  function Age(runs: seq<string>, p: Position): nat {
    if p.At? then Generation(runs, p.runId) else 0
  }

  // No queued message is of an earlier run than what comes before it.
  ghost predicate TasksRise(runs: seq<string>, p: Position, tasks: seq<Message>) {
    forall k :: 0 <= k < |tasks| ==> Age(runs, Before(p, tasks, k)) <= Generation(runs, tasks[k].id.runId)
  }

  // The wire carries one run, no earlier than what was seen.
  ghost predicate WireRises(runs: seq<string>, seen: Position, conn: Option<Conn>) {
    conn.Some? ==>
      && Age(runs, seen) <= Generation(runs, conn.value.runId)
      && forall k :: 0 <= k < |conn.value.queue| ==> conn.value.queue[k].id.runId == conn.value.runId
  }

  ghost predicate ClientInOrder(runs: seq<string>, c: Client) {
    TasksRise(runs, LivePosition(c), c.tasks) && WireRises(runs, PositionAfter(c.lastId), c.conn)
  }

  ghost predicate InOrder(runs: seq<string>, w: World) {
    && Generation(runs, w.current) == |runs|
    && (forall r :: r in w.histories ==> Generation(runs, r) > 0)
    && forall c :: c in w.clients ==> ClientInOrder(runs, w.clients[c])
  }

  lemma TasksGainLater(runs: seq<string>, p: Position, tasks: seq<Message>, message: Message)
    requires TasksRise(runs, p, tasks) && Age(runs, Before(p, tasks, |tasks|)) <= Generation(runs, message.id.runId)
    ensures TasksRise(runs, p, tasks + [message])
  {
    var all := tasks + [message];
    forall k | 0 <= k < |all| ensures Age(runs, Before(p, all, k)) <= Generation(runs, all[k].id.runId) {
      BeforeAppend(p, tasks, message, k);
      if k < |tasks| {
        assert all[k] == tasks[k];
      } else {
        assert all[k] == message;
      }
    }
  }

  lemma TasksLoseHead(runs: seq<string>, p: Position, tasks: seq<Message>)
    requires tasks != [] && TasksRise(runs, p, tasks)
    ensures Age(runs, p) <= Generation(runs, tasks[0].id.runId)
    ensures TasksRise(runs, PositionAfter(Some(tasks[0].id)), tasks[1..])
  {
    assert Before(p, tasks, 0) == p;
    var tail, q := tasks[1..], PositionAfter(Some(tasks[0].id));
    forall k | 0 <= k < |tail| ensures Age(runs, Before(q, tail, k)) <= Generation(runs, tail[k].id.runId) {
      assert Before(q, tail, k) == Before(p, tasks, k + 1);
      assert tail[k] == tasks[k + 1];
    }
  }

  lemma ReceiveKeepsOrder(m: Manifest, histories: map<string, seq<Event>>, runs: seq<string>, c: Client)
    requires ClientOk(m, histories, c) && ClientInOrder(runs, c) && c.conn.Some? && c.conn.value.queue != []
    ensures ClientInOrder(runs, Received(c))
  {
    TasksGainLater(runs, LivePosition(c), c.tasks, c.conn.value.queue[0]);
  }

  // Where handling the next message takes the view.
  lemma HandledMovesTo(m: Manifest, histories: map<string, seq<Event>>, c: Client)
    requires ClientOk(m, histories, c) && c.tasks != []
    requires forall r :: r in histories ==> ValidRunId(r)
    ensures Follows(histories, LivePosition(c), c.tasks[0])
    ensures LivePosition(Handled(m, c)) == PositionAfter(Some(c.tasks[0].id))
  {
    PathTail(histories, LivePosition(c), c.tasks);
    HandledShowsPrefix(m, histories, c);
  }

  lemma ApplyKeepsOrder(m: Manifest, histories: map<string, seq<Event>>, runs: seq<string>, c: Client)
    requires ClientOk(m, histories, c) && ClientInOrder(runs, c) && c.tasks != []
    requires forall r :: r in histories ==> ValidRunId(r)
    ensures ClientInOrder(runs, Handled(m, c))
  {
    HandledMovesTo(m, histories, c);
    HandledKeepsTheRest(m, c);
    TasksLoseHead(runs, LivePosition(c), c.tasks);
  }

  lemma ConnectKeepsOrder(runs: seq<string>, runId: string, history: seq<Event>, c: Client)
    requires ClientInOrder(runs, c) && Generation(runs, runId) == |runs|
    ensures ClientInOrder(runs, Connected(c, runId, history))
  {
    MessagesFromAt(runId, history, ResumeIndex(Header(c.lastId), runId));
  }

  lemma PageStepKeepsOrder(m: Manifest, runs: seq<string>, w: World, step: Step, c: nat)
    requires WorldOk(m, w) && InOrder(runs, w) && Enabled(w, step)
    requires step == Open(c) || step == Connect(c) || step == Receive(c) || step == Apply(c) || step == Drop(c)
    ensures ClientInOrder(runs, Next(m, w, step).clients[c])
  {
    match step
    case Open(_) =>
    case Connect(_) => ConnectKeepsOrder(runs, w.current, w.histories[w.current], w.clients[c]);
    case Receive(_) => ReceiveKeepsOrder(m, w.histories, runs, w.clients[c]);
    case Apply(_) => ApplyKeepsOrder(m, w.histories, runs, w.clients[c]);
    case Drop(_) =>
  }

  // A run that is started later leaves the ages of all that a page holds as they are.
  lemma RestartKeepsOrder(m: Manifest, histories: map<string, seq<Event>>, runs: seq<string>, runId: string, c: Client)
    requires ClientOk(m, histories, c) && ClientInOrder(runs, c) && runId !in histories
    ensures ClientInOrder(runs + [runId], c)
  {
    var p := LivePosition(c);
    forall k | 0 <= k < |c.tasks|
      ensures Age(runs + [runId], Before(p, c.tasks, k)) <= Generation(runs + [runId], c.tasks[k].id.runId)
    {
      assert Follows(histories, Before(p, c.tasks, k), c.tasks[k]);
      GenerationStays(runs, c.tasks[k].id.runId, runId);
      AgeStays(histories, runs, runId, p, c.tasks, k);
    }
    if c.conn.Some? {
      GenerationStays(runs, c.conn.value.runId, runId);
      if c.lastId.Some? { GenerationStays(runs, c.lastId.value.runId, runId); }
    }
  }

  lemma AgeStays(histories: map<string, seq<Event>>, runs: seq<string>, runId: string,
                 p: Position, tasks: seq<Message>, k: nat)
    requires k < |tasks| && Path(histories, p, tasks) && runId !in histories && (p.At? ==> p.runId in histories)
    ensures Age(runs + [runId], Before(p, tasks, k)) == Age(runs, Before(p, tasks, k))
  {
    if k > 0 {
      assert Follows(histories, Before(p, tasks, k - 1), tasks[k - 1]);
      GenerationStays(runs, tasks[k - 1].id.runId, runId);
    } else if p.At? {
      GenerationStays(runs, p.runId, runId);
    }
  }

  lemma WrittenKeepsOrder(runs: seq<string>, c: Client, runId: string, message: Message)
    requires ClientInOrder(runs, c) && message.id.runId == runId
    ensures ClientInOrder(runs, Written(c, runId, message))
  {
  }

  lemma PageStepKeepsWorldOrder(m: Manifest, runs: seq<string>, w: World, step: Step, c: nat)
    requires WorldOk(m, w) && InOrder(runs, w) && Enabled(w, step)
    requires step == Open(c) || step == Connect(c) || step == Receive(c) || step == Apply(c) || step == Drop(c)
    ensures InOrder(runs, Next(m, w, step))
  {
    PageStepKeepsOrder(m, runs, w, step, c);
    PageStepChangesOnePage(m, w, step, c);
  }

  lemma StepKeepsOrder(m: Manifest, runs: seq<string>, w: World, step: Step)
    requires WorldOk(m, w) && InOrder(runs, w) && Enabled(w, step)
    ensures InOrder(RunsAfter(runs, step), Next(m, w, step))
  {
    var w' := Next(m, w, step);
    match step
    case Publish(e) =>
      var message := Message(SseId(w.current, |w.histories[w.current]|), e);
      forall c | c in w'.clients ensures ClientInOrder(runs, w'.clients[c]) {
        WrittenKeepsOrder(runs, w.clients[c], w.current, message);
      }
    case Restart(runId) =>
      GenerationStays(runs, runId, runId);
      forall r | r in w'.histories ensures Generation(runs + [runId], r) > 0 {
        GenerationStays(runs, r, runId);
      }
      forall c | c in w'.clients ensures ClientInOrder(runs + [runId], w'.clients[c]) {
        RestartKeepsOrder(m, w.histories, runs, runId, w.clients[c]);
      }
    case _ =>
      PageStepKeepsWorldOrder(m, runs, w, step, step.client);
  }

  lemma {:induction false} ReachableIsInOrder(m: Manifest, first: string, steps: seq<Step>, w: World)
    requires ValidRunId(first) && Leads(m, Begin(first), steps, w)
    ensures WorldOk(m, w) && InOrder(Runs(first, steps), w)
  {
    ReachableIsOk(m, Begin(first), steps, w);
    if steps != [] {
      var front := steps[..|steps| - 1];
      var mid := Run(m, Begin(first), front).value;
      ReachableIsInOrder(m, first, front, mid);
      StepKeepsOrder(m, Runs(first, front), mid, steps[|steps| - 1]);
    }
  }

  // What a caught-up page shows while the running relay has published nothing is of an earlier run.
  lemma OnlyAnEarlierRunIsShown(m: Manifest, first: string, steps: seq<Step>, w: World, client: nat)
    requires ValidRunId(first) && Leads(m, Begin(first), steps, w) && CaughtUp(w, client)
    requires w.current in w.histories && w.histories[w.current] == []
    ensures var shown := w.clients[client].live.runId;
            shown.Some? ==> 0 < Generation(Runs(first, steps), shown.value) < |Runs(first, steps)|
  {
    ReachableIsInOrder(m, first, steps, w);
    CaughtUpViewIsComplete(m, first, steps, w, client);
  }

  // The view stays where it is, gains the next event of its run, or shows the first event of a
  // run started later.
  ghost predicate MovesForward(runs: seq<string>, p: Position, q: Position) {
    || q == p
    || (p.At? && q == At(p.runId, p.next + 1))
    || (q.At? && q.next == 1 && Age(runs, p) < Age(runs, q))
  }

  lemma FollowingIsForward(histories: map<string, seq<Event>>, runs: seq<string>, p: Position, message: Message)
    requires Follows(histories, p, message) && (p.At? ==> p.runId in histories)
    requires Age(runs, p) <= Generation(runs, message.id.runId)
    requires forall r :: r in histories ==> Generation(runs, r) > 0
    ensures MovesForward(runs, p, PositionAfter(Some(message.id)))
  {
  }

  lemma HandlingMovesForward(m: Manifest, histories: map<string, seq<Event>>, runs: seq<string>, c: Client)
    requires ClientOk(m, histories, c) && ClientInOrder(runs, c) && c.tasks != []
    requires forall r :: r in histories ==> ValidRunId(r) && Generation(runs, r) > 0
    ensures MovesForward(runs, LivePosition(c), LivePosition(Handled(m, c)))
  {
    HandledMovesTo(m, histories, c);
    TasksLoseHead(runs, LivePosition(c), c.tasks);
    FollowingIsForward(histories, runs, LivePosition(c), c.tasks[0]);
  }

  lemma OtherStepsKeepTheView(m: Manifest, w: World, step: Step, client: nat)
    requires Enabled(w, step) && client in w.clients && step != Open(client) && step != Apply(client)
    ensures client in Next(m, w, step).clients
    ensures LivePosition(Next(m, w, step).clients[client]) == LivePosition(w.clients[client])
  {
  }

  lemma ShownAfter(m: Manifest, w: World, step: Step, client: nat)
    requires WorldOk(m, w) && Enabled(w, step) && client in Next(m, w, step).clients
    ensures ShowsPrefix(m, Next(m, w, step).histories, Next(m, w, step).clients[client])
    ensures Grew(w.histories, Next(m, w, step).histories)
  {
    hide Next, Enabled, ShowsPrefix;
    StepKeepsWorld(m, w, step);
    assert ClientOk(m, Next(m, w, step).histories, Next(m, w, step).clients[client]);
  }

  // Short of reloading the page, nothing takes its view back: before and after any other step it
  // shows the events of its run up to its position, and the position only moves forward.
  lemma LiveViewMovesForward(m: Manifest, first: string, steps: seq<Step>, w: World, step: Step, client: nat)
    requires ValidRunId(first) && Leads(m, Begin(first), steps, w) && Enabled(w, step)
    requires client in w.clients && step != Open(client)
    ensures client in Next(m, w, step).clients
    ensures MovesForward(Runs(first, steps), LivePosition(w.clients[client]),
                         LivePosition(Next(m, w, step).clients[client]))
    ensures ShowsPrefix(m, w.histories, w.clients[client])
    ensures ShowsPrefix(m, Next(m, w, step).histories, Next(m, w, step).clients[client])
    ensures Grew(w.histories, Next(m, w, step).histories)
  {
    ReachableIsInOrder(m, first, steps, w);
    assert ClientOk(m, w.histories, w.clients[client]);
    ShownAfter(m, w, step, client);
    if step == Apply(client) {
      HandlingMovesForward(m, w.histories, Runs(first, steps), w.clients[client]);
    } else {
      OtherStepsKeepTheView(m, w, step, client);
    }
  }

  /* What the histories are. */

  // The events published while a run's relay was the one running, in order.
  function PublishedBy(first: string, steps: seq<Step>, runId: string): seq<Event> {
    if steps == [] then []
    else
      var front, last := steps[..|steps| - 1], steps[|steps| - 1];
      var runs := Runs(first, front);
      PublishedBy(first, front, runId) +
      if last.Publish? && runs != [] && runs[|runs| - 1] == runId then [last.event] else []
  }

  lemma {:induction false} NothingBeforeItsStart(first: string, steps: seq<Step>, runId: string)
    requires runId !in Runs(first, steps)
    ensures PublishedBy(first, steps, runId) == []
  {
    if steps != [] {
      var front, last := steps[..|steps| - 1], steps[|steps| - 1];
      assert forall r :: r in Runs(first, front) ==> r in RunsAfter(Runs(first, front), last);
      NothingBeforeItsStart(first, front, runId);
    }
  }

  // Every run's history is exactly what was published while its relay was the running one; the
  // running relay is the one started last.
  lemma {:induction false} HistoriesAreWhatWasPublished(m: Manifest, first: string, steps: seq<Step>, w: World)
    requires Leads(m, Begin(first), steps, w)
    ensures Runs(first, steps) != [] && w.current == Runs(first, steps)[|Runs(first, steps)| - 1]
    ensures forall r :: r in w.histories <==> r in Runs(first, steps)
    ensures forall r :: r in w.histories ==> w.histories[r] == PublishedBy(first, steps, r)
  {
    if steps != [] {
      var front, last := steps[..|steps| - 1], steps[|steps| - 1];
      var mid := Run(m, Begin(first), front).value;
      HistoriesAreWhatWasPublished(m, first, front, mid);
      StepPublishes(m, mid, last);
      if last.Restart? {
        NothingBeforeItsStart(first, front, last.runId);
      }
    }
  }

  lemma StepPublishes(m: Manifest, w: World, step: Step)
    requires Enabled(w, step)
    ensures var w' := Next(m, w, step);
            match step
            case Publish(e) =>
              w'.current == w.current && w'.histories == w.histories[w.current := w.histories[w.current] + [e]]
            case Restart(r) => w'.current == r && w'.histories == w.histories[r := []]
            case _ => w'.current == w.current && w'.histories == w.histories
    ensures step.Publish? || step.Restart? ==> Next(m, w, step).clients.Keys == w.clients.Keys
  {
  }

  // A page that is loaded again shows the initial state until it is told something, and no other page
  // notices.
  lemma ReloadStartsClean(m: Manifest, w: World, client: nat)
    ensures var w' := Next(m, w, Open(client));
            && client in w'.clients && w'.clients[client].live == LiveState(None, Fold(m, []))
            && w'.clients[client].lastId == None && w'.clients[client].conn == None
            && w'.histories == w.histories
            && forall c :: c != client ==> (c in w'.clients <==> c in w.clients)
                                           && (c in w.clients ==> w'.clients[c] == w.clients[c])
  {
  }

  // From every reachable world a relay can start anew, and every page can come to show just what the
  // new one has published, whatever it showed before.
  lemma RestartedRelayIsShown(m: Manifest, first: string, before: seq<Step>, w: World, client: nat,
                              runId: string, e: Event)
    returns (steps: seq<Step>, w': World)
    requires ValidRunId(first) && Leads(m, Begin(first), before, w) && client in w.clients
    requires ValidRunId(runId) && runId !in w.histories
    ensures Leads(m, w, [Restart(runId), Publish(e)] + steps, w')
    ensures client in w'.clients && w'.clients[client].live == LiveState(Some(runId), Fold(m, [e]))
  {
    hide Next, Run, Fold, Leads;
    var w1 := Next(m, w, Restart(runId));
    StepPublishes(m, w, Restart(runId));
    LeadsNext(m, Begin(first), before, w, Restart(runId));
    ReachableIsOk(m, Begin(first), before + [Restart(runId)], w1);
    var w2 := Next(m, w1, Publish(e));
    StepPublishes(m, w1, Publish(e));
    LeadsNext(m, Begin(first), before + [Restart(runId)], w1, Publish(e));
    assert w2.histories[runId] == [] + [e] == [e];
    steps, w' := ReconnectingRecovers(m, first, before + [Restart(runId)] + [Publish(e)], w2, client);
    BothLead(m, w, runId, e);
    LeadsConcat(m, w, [Restart(runId), Publish(e)], w2, steps, w');
  }

  lemma BothLead(m: Manifest, w: World, runId: string, e: Event)
    requires Enabled(w, Restart(runId))
    ensures Enabled(Next(m, w, Restart(runId)), Publish(e))
    ensures Leads(m, w, [Restart(runId), Publish(e)], Next(m, Next(m, w, Restart(runId)), Publish(e)))
  {
    var w1 := Next(m, w, Restart(runId));
    EmptyLeads(m, w);
    LeadsNext(m, w, [], w, Restart(runId));
    LeadsNext(m, w, [] + [Restart(runId)], w1, Publish(e));
    assert [] + [Restart(runId)] + [Publish(e)] == [Restart(runId), Publish(e)];
  }

  lemma EmptyLeads(m: Manifest, w: World)
    ensures Leads(m, w, [], w)
  {
  }
}
