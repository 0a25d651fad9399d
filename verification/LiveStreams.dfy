/** The live view over a network that loses connections and a relay that restarts:
    ui/src/sources/live-state.ts and use-live.ts against relay/src/server.ts, with the
    reconnection rules of section 9.2 of the WHATWG HTML Living Standard. */
module LiveStreams {
  import opened Options
  import opened Contract
  import opened DemoStates
  import opened SseIds
  import opened Hubs

  datatype LiveState = LiveState(runId: Option<string>, state: DemoState)

  function RunOf(id: Option<SseId>): Option<string> {
    if id.Some? then Some(id.value.runId) else None
  }

  function ApplyLiveMessage(m: Manifest, current: LiveState, lastEventId: string, data: ParsedLine): LiveState {
    if data.Rejected? then current
    else
      var runId := RunOf(ParseSseId(Some(lastEventId)));
      var base := if runId != None && current.runId != None && runId != current.runId
                  then InitialState(m) else current.state;
      LiveState(if runId != None then runId else current.runId, ReduceEvent(base, data.event))
  }

  // A response being streamed: the relay process that answers it and what is still on the wire.
  datatype Conn = Conn(runId: string, queue: seq<Message>)

  // A page: the event source's last event id and connection, the message tasks it has queued for
  // the page, the live state, and how many messages went into that state since its run began.
  datatype Client = Client(
    lastId: Option<SseId>,
    conn: Option<Conn>,
    tasks: seq<Message>,
    live: LiveState,
    applied: nat)

  // The histories of every relay process there has been, the id of the one now running, the pages.
  datatype World = World(histories: map<string, seq<Event>>, current: string, clients: map<nat, Client>)

  datatype Step =
    | Publish(event: Event)       // the running relay's hub
    | Restart(runId: string)      // the relay dies; another starts with a fresh run id
    | Open(client: nat)           // a page is loaded or reloaded
    | Connect(client: nat)        // its event source (re)connects: `streamEvents`
    | Receive(client: nat)        // the next message comes off the wire
    | Apply(client: nat)          // the page handles the next received message
    | Drop(client: nat)           // the connection is lost with whatever was on the wire

  function TextOf(id: SseId): string {
    FormatSseId(id.runId, id.index)
  }

  // The Last-Event-ID header of a request.
  function Header(lastId: Option<SseId>): Option<string> {
    if lastId.Some? then Some(TextOf(lastId.value)) else None
  }

  function OpenPage(m: Manifest): Client {
    Client(None, None, [], LiveState(None, InitialState(m)), 0)
  }

  ghost predicate Enabled(w: World, step: Step) {
    match step
    case Publish(_) => w.current in w.histories
    case Restart(runId) => ValidRunId(runId) && runId !in w.histories
    case Open(_) => true
    case Connect(c) => c in w.clients && w.clients[c].conn == None && w.current in w.histories
    case Receive(c) => c in w.clients && w.clients[c].conn.Some? && w.clients[c].conn.value.queue != []
    case Apply(c) => c in w.clients && w.clients[c].tasks != []
    case Drop(c) => c in w.clients && w.clients[c].conn.Some?
  }

  // The relay writes to the open streams it serves; streams of a dead relay get nothing more.
  function Written(c: Client, runId: string, message: Message): Client {
    if c.conn.Some? && c.conn.value.runId == runId
    then c.(conn := Some(Conn(runId, c.conn.value.queue + [message]))) else c
  }

  function Connected(c: Client, runId: string, history: seq<Event>): Client {
    var from := ResumeIndex(Header(c.lastId), runId);
    c.(conn := Some(Conn(runId, MessagesFrom(runId, history, from))))
  }

  function Received(c: Client): Client
    requires c.conn.Some? && c.conn.value.queue != []
  {
    var queue := c.conn.value.queue;
    c.(lastId := Some(queue[0].id), conn := Some(c.conn.value.(queue := queue[1..])), tasks := c.tasks + [queue[0]])
  }

  function Handled(m: Manifest, c: Client): Client
    requires c.tasks != []
  {
    var live := ApplyLiveMessage(m, c.live, TextOf(c.tasks[0].id), Parsed(c.tasks[0].event));
    c.(tasks := c.tasks[1..], live := live, applied := if live.runId == c.live.runId then c.applied + 1 else 1)
  }

  function Next(m: Manifest, w: World, step: Step): World
    requires Enabled(w, step)
  {
    match step
    case Publish(e) =>
      var history := w.histories[w.current];
      var message := Message(SseId(w.current, |history|), e);
      w.(histories := w.histories[w.current := history + [e]],
         clients := map c | c in w.clients :: Written(w.clients[c], w.current, message))
    case Restart(runId) => w.(histories := w.histories[runId := []], current := runId)
    case Open(c) => w.(clients := w.clients[c := OpenPage(m)])
    case Connect(c) =>
      w.(clients := w.clients[c := Connected(w.clients[c], w.current, w.histories[w.current])])
    case Receive(c) => w.(clients := w.clients[c := Received(w.clients[c])])
    case Apply(c) => w.(clients := w.clients[c := Handled(m, w.clients[c])])
    case Drop(c) => w.(clients := w.clients[c := w.clients[c].(conn := None)])
  }

  // Where the steps lead from w, if each can be taken in turn.
  ghost function Run(m: Manifest, w: World, steps: seq<Step>): Option<World> {
    if steps == [] then Some(w)
    else
      var mid := Run(m, w, steps[..|steps| - 1]);
      if mid.Some? && Enabled(mid.value, steps[|steps| - 1]) then Some(Next(m, mid.value, steps[|steps| - 1])) else None
  }

  ghost predicate Leads(m: Manifest, w: World, steps: seq<Step>, w': World) {
    Run(m, w, steps) == Some(w')
  }

  function Begin(runId: string): World {
    World(map[runId := []], runId, map[])
  }

  /* The invariant. */

  // Where a reader stands in the streams: nowhere, or having had a run's first `next` messages.
  datatype Position = Nowhere | At(runId: string, next: nat)

  function PositionAfter(id: Option<SseId>): Position {
    if id.Some? then At(id.value.runId, id.value.index + 1) else Nowhere
  }

  // The message is the next of the same run or the first of another.
  ghost predicate Follows(histories: map<string, seq<Event>>, p: Position, message: Message) {
    var SseId(runId, index) := message.id;
    && runId in histories && index < |histories[runId]| && message.event == histories[runId][index]
    && (p == At(runId, index) || (index == 0 && (p.At? ==> p.runId != runId)))
  }

  function Before(p: Position, messages: seq<Message>, k: nat): Position
    requires k <= |messages|
  {
    if k == 0 then p else PositionAfter(Some(messages[k - 1].id))
  }

  ghost predicate Path(histories: map<string, seq<Event>>, p: Position, messages: seq<Message>) {
    forall k :: 0 <= k < |messages| ==> Follows(histories, Before(p, messages, k), messages[k])
  }

  ghost predicate InRange(histories: map<string, seq<Event>>, p: Position) {
    p.At? ==> p.runId in histories && p.next <= |histories[p.runId]|
  }

  // Nothing of this run is missing at p.
  ghost predicate UpToDate(p: Position, runId: string, length: nat) {
    p == At(runId, length) || (length == 0 && (p.At? ==> p.runId != runId))
  }

  function LivePosition(c: Client): Position {
    if c.live.runId.Some? then At(c.live.runId.value, c.applied) else Nowhere
  }

  // The page shows the fold of the first `applied` events of one run.
  ghost predicate ShowsPrefix(m: Manifest, histories: map<string, seq<Event>>, c: Client) {
    match c.live.runId
    case None => c.live.state == InitialState(m)
    case Some(r) =>
      r in histories && 0 < c.applied <= |histories[r]| && c.live.state == Fold(m, histories[r][..c.applied])
  }

  // The messages lead from one position to the other.
  ghost predicate Joins(histories: map<string, seq<Event>>, from: Position, messages: seq<Message>, to: Position) {
    Path(histories, from, messages) && Before(from, messages, |messages|) == to
  }

  // What is on the wire leads on from what was seen to the end of that relay's history.
  ghost predicate WireOk(histories: map<string, seq<Event>>, seen: Position, conn: Option<Conn>) {
    conn.Some? ==>
      && conn.value.runId in histories
      && Path(histories, seen, conn.value.queue)
      && UpToDate(Before(seen, conn.value.queue, |conn.value.queue|), conn.value.runId, |histories[conn.value.runId]|)
  }

  ghost predicate ClientOk(m: Manifest, histories: map<string, seq<Event>>, c: Client) {
    var seen := PositionAfter(c.lastId);
    && ShowsPrefix(m, histories, c)
    && Joins(histories, LivePosition(c), c.tasks, seen)
    && InRange(histories, seen)
    && WireOk(histories, seen, c.conn)
  }

  ghost predicate WorldOk(m: Manifest, w: World) {
    && w.current in w.histories
    && (forall r :: r in w.histories ==> ValidRunId(r))
    && forall c :: c in w.clients ==> ClientOk(m, w.histories, w.clients[c])
  }

  // Histories only grow: no run disappears and none changes what it already published.
  ghost predicate Grew(before: map<string, seq<Event>>, after: map<string, seq<Event>>) {
    forall r :: r in before ==> r in after && before[r] <= after[r]
  }

  lemma PathGrows(before: map<string, seq<Event>>, after: map<string, seq<Event>>, p: Position, messages: seq<Message>)
    requires Grew(before, after) && Path(before, p, messages)
    ensures Path(after, p, messages)
  {
    forall k | 0 <= k < |messages| ensures Follows(after, Before(p, messages, k), messages[k]) {
      assert Follows(before, Before(p, messages, k), messages[k]);
    }
  }

  lemma BeforeAppend(p: Position, messages: seq<Message>, message: Message, k: nat)
    requires k <= |messages|
    ensures Before(p, messages + [message], k) == Before(p, messages, k)
  {
  }

  lemma PathAppend(histories: map<string, seq<Event>>, p: Position, messages: seq<Message>, message: Message)
    requires Path(histories, p, messages) && Follows(histories, Before(p, messages, |messages|), message)
    ensures Path(histories, p, messages + [message])
  {
    var all := messages + [message];
    forall k | 0 <= k < |all| ensures Follows(histories, Before(p, all, k), all[k]) {
      BeforeAppend(p, messages, message, k);
      if k < |messages| {
        assert Follows(histories, Before(p, messages, k), messages[k]);
        assert all[k] == messages[k];
      } else {
        assert all[k] == message;
      }
    }
  }

  lemma PathTail(histories: map<string, seq<Event>>, p: Position, messages: seq<Message>)
    requires messages != [] && Path(histories, p, messages)
    ensures Follows(histories, p, messages[0])
    ensures Path(histories, PositionAfter(Some(messages[0].id)), messages[1..])
    ensures Before(PositionAfter(Some(messages[0].id)), messages[1..], |messages| - 1) ==
            Before(p, messages, |messages|)
  {
    assert Follows(histories, Before(p, messages, 0), messages[0]);
    var tail, q := messages[1..], PositionAfter(Some(messages[0].id));
    forall k | 0 <= k < |tail| ensures Follows(histories, Before(q, tail, k), tail[k]) {
      assert Follows(histories, Before(p, messages, k + 1), messages[k + 1]);
    }
  }

  // What a (re)connection is sent continues exactly where the page's last event id stands.
  lemma ReplayContinues(histories: map<string, seq<Event>>, runId: string, lastId: Option<SseId>)
    requires runId in histories && ValidRunId(runId) && InRange(histories, PositionAfter(lastId))
    ensures var queue := MessagesFrom(runId, histories[runId], ResumeIndex(Header(lastId), runId));
            var seen := PositionAfter(lastId);
            && Path(histories, seen, queue)
            && UpToDate(Before(seen, queue, |queue|), runId, |histories[runId]|)
  {
    var from := ResumeIndex(Header(lastId), runId);
    var queue, seen := MessagesFrom(runId, histories[runId], from), PositionAfter(lastId);
    MessagesFromAt(runId, histories[runId], from);
    if lastId.Some? {
      ResumesAfterAFormattedId(lastId.value.runId, lastId.value.index, runId);
    }
    forall k | 0 <= k < |queue|
      ensures Follows(histories, Before(seen, queue, k), queue[k])
      ensures PositionAfter(Some(queue[k].id)) == At(runId, from + k + 1)
    {
    }
  }

  lemma GrowthKeepsClient(m: Manifest, before: map<string, seq<Event>>, after: map<string, seq<Event>>, c: Client)
    requires Grew(before, after) && ClientOk(m, before, c)
    requires c.conn.Some? ==> after[c.conn.value.runId] == before[c.conn.value.runId]
    ensures ClientOk(m, after, c)
  {
    PathGrows(before, after, LivePosition(c), c.tasks);
    if c.conn.Some? {
      PathGrows(before, after, PositionAfter(c.lastId), c.conn.value.queue);
    }
    if c.live.runId.Some? {
      var r := c.live.runId.value;
      assert after[r][..c.applied] == before[r][..c.applied];
    }
  }

  lemma WireGainsOne(before: map<string, seq<Event>>, runId: string, e: Event, seen: Position, queue: seq<Message>)
    requires runId in before && WireOk(before, seen, Some(Conn(runId, queue)))
    ensures WireOk(before[runId := before[runId] + [e]], seen,
                   Some(Conn(runId, queue + [Message(SseId(runId, |before[runId]|), e)])))
  {
    var after := before[runId := before[runId] + [e]];
    PathGrows(before, after, seen, queue);
    PathAppend(after, seen, queue, Message(SseId(runId, |before[runId]|), e));
  }

  lemma PublishKeepsClient(m: Manifest, before: map<string, seq<Event>>, runId: string, e: Event, c: Client)
    requires runId in before && ClientOk(m, before, c)
    ensures var message := Message(SseId(runId, |before[runId]|), e);
            ClientOk(m, before[runId := before[runId] + [e]], Written(c, runId, message))
  {
    var after := before[runId := before[runId] + [e]];
    if c.conn.Some? && c.conn.value.runId == runId {
      GrowthKeepsClient(m, before, after, c.(conn := None));
      WireGainsOne(before, runId, e, PositionAfter(c.lastId), c.conn.value.queue);
    } else {
      GrowthKeepsClient(m, before, after, c);
    }
  }

  lemma FollowsInRange(histories: map<string, seq<Event>>, p: Position, message: Message)
    requires Follows(histories, p, message)
    ensures InRange(histories, PositionAfter(Some(message.id)))
  {
  }

  lemma WireLosesHead(histories: map<string, seq<Event>>, seen: Position, conn: Conn)
    requires WireOk(histories, seen, Some(conn)) && conn.queue != []
    ensures Follows(histories, seen, conn.queue[0])
    ensures WireOk(histories, PositionAfter(Some(conn.queue[0].id)), Some(conn.(queue := conn.queue[1..])))
  {
    PathTail(histories, seen, conn.queue);
  }

  lemma TasksGainOne(histories: map<string, seq<Event>>, from: Position, messages: seq<Message>, to: Position,
                     message: Message)
    requires Joins(histories, from, messages, to) && Follows(histories, to, message)
    ensures Joins(histories, from, messages + [message], PositionAfter(Some(message.id)))
  {
    PathAppend(histories, from, messages, message);
  }

  lemma ReceiveKeepsClient(m: Manifest, histories: map<string, seq<Event>>, c: Client)
    requires ClientOk(m, histories, c) && c.conn.Some? && c.conn.value.queue != []
    ensures ClientOk(m, histories, Received(c))
  {
    var seen, head := PositionAfter(c.lastId), c.conn.value.queue[0];
    WireLosesHead(histories, seen, c.conn.value);
    FollowsInRange(histories, seen, head);
    TasksGainOne(histories, LivePosition(c), c.tasks, seen, head);
  }

  lemma MessageIsReduced(m: Manifest, live: LiveState, id: SseId, e: Event)
    requires ValidRunId(id.runId)
    ensures ApplyLiveMessage(m, live, TextOf(id), Parsed(e)) ==
            var another := live.runId.Some? && live.runId.value != id.runId;
            LiveState(Some(id.runId), ReduceEvent(if another then InitialState(m) else live.state, e))
  {
    FormatRoundTrips(id.runId, id.index);
  }

  // Data that is no event changes nothing; an event under a malformed id is reduced into the view as
  // it stands.
  lemma UnreadableMessages(m: Manifest, live: LiveState, text: string, error: string, e: Event)
    ensures ApplyLiveMessage(m, live, text, Rejected(error)) == live
    ensures ParseSseId(Some(text)) == None ==>
              ApplyLiveMessage(m, live, text, Parsed(e)) == LiveState(live.runId, ReduceEvent(live.state, e))
  {
  }

  lemma NextPrefix(m: Manifest, history: seq<Event>, k: nat)
    requires k < |history|
    ensures Fold(m, history[..k + 1]) == ReduceEvent(Fold(m, history[..k]), history[k])
    ensures k == 0 ==> Fold(m, history[..k]) == InitialState(m)
  {
    ReduceOne(InitialState(m), history[..k], history[k]);
    assert history[..k + 1] == history[..k] + [history[k]];
  }

  // Handling the message that follows the shown prefix shows the next prefix: one event longer,
  // or the first event of another run on a clean state.
  lemma HandledShowsPrefix(m: Manifest, histories: map<string, seq<Event>>, c: Client)
    requires ShowsPrefix(m, histories, c) && c.tasks != [] && Follows(histories, LivePosition(c), c.tasks[0])
    requires ValidRunId(c.tasks[0].id.runId)
    ensures ShowsPrefix(m, histories, Handled(m, c))
    ensures LivePosition(Handled(m, c)) == PositionAfter(Some(c.tasks[0].id))
  {
    var id := c.tasks[0].id;
    MessageIsReduced(m, c.live, id, c.tasks[0].event);
    NextPrefix(m, histories[id.runId], id.index);
  }

  lemma HandledKeepsTheRest(m: Manifest, c: Client)
    requires c.tasks != []
    ensures var c' := Handled(m, c); c'.tasks == c.tasks[1..] && c'.lastId == c.lastId && c'.conn == c.conn
  {
  }

  lemma OneTaskLess(m: Manifest, histories: map<string, seq<Event>>, c: Client, c': Client)
    requires ClientOk(m, histories, c) && c.tasks != [] && ShowsPrefix(m, histories, c')
    requires c'.tasks == c.tasks[1..] && c'.lastId == c.lastId && c'.conn == c.conn
    requires LivePosition(c') == PositionAfter(Some(c.tasks[0].id))
    ensures ClientOk(m, histories, c')
  {
    PathTail(histories, LivePosition(c), c.tasks);
  }

  lemma ApplyKeepsClient(m: Manifest, histories: map<string, seq<Event>>, c: Client)
    requires ClientOk(m, histories, c) && c.tasks != []
    requires forall r :: r in histories ==> ValidRunId(r)
    ensures ClientOk(m, histories, Handled(m, c))
  {
    assert Follows(histories, LivePosition(c), c.tasks[0]) by { PathTail(histories, LivePosition(c), c.tasks); }
    HandledShowsPrefix(m, histories, c);
    HandledKeepsTheRest(m, c);
    OneTaskLess(m, histories, c, Handled(m, c));
  }

  lemma PublishKeepsWorld(m: Manifest, w: World, e: Event)
    requires WorldOk(m, w)
    ensures WorldOk(m, Next(m, w, Publish(e)))
  {
    var w' := Next(m, w, Publish(e));
    forall c | c in w'.clients ensures ClientOk(m, w'.histories, w'.clients[c]) {
      PublishKeepsClient(m, w.histories, w.current, e, w.clients[c]);
    }
  }

  lemma RestartKeepsWorld(m: Manifest, w: World, runId: string)
    requires WorldOk(m, w) && Enabled(w, Restart(runId))
    ensures WorldOk(m, Next(m, w, Restart(runId)))
  {
    var w' := Next(m, w, Restart(runId));
    forall c | c in w'.clients ensures ClientOk(m, w'.histories, w'.clients[c]) {
      GrowthKeepsClient(m, w.histories, w'.histories, w.clients[c]);
    }
  }

  lemma ConnectKeepsClient(m: Manifest, histories: map<string, seq<Event>>, runId: string, c: Client)
    requires ClientOk(m, histories, c) && runId in histories && ValidRunId(runId)
    ensures ClientOk(m, histories, Connected(c, runId, histories[runId]))
  {
    ReplayContinues(histories, runId, c.lastId);
  }

  lemma OpenPageIsOk(m: Manifest, histories: map<string, seq<Event>>)
    ensures ClientOk(m, histories, OpenPage(m))
  {
  }

  // The other steps change one page; the page they leave is sound.
  lemma PageStepKeepsClient(m: Manifest, w: World, step: Step, c: nat)
    requires WorldOk(m, w) && Enabled(w, step)
    requires step == Open(c) || step == Connect(c) || step == Receive(c) || step == Apply(c) || step == Drop(c)
    ensures ClientOk(m, w.histories, Next(m, w, step).clients[c])
  {
    match step
    case Open(_) => OpenPageIsOk(m, w.histories);
    case Connect(_) => ConnectKeepsClient(m, w.histories, w.current, w.clients[c]);
    case Receive(_) => ReceiveKeepsClient(m, w.histories, w.clients[c]);
    case Apply(_) => ApplyKeepsClient(m, w.histories, w.clients[c]);
    case Drop(_) =>
  }

  lemma PageStepChangesOnePage(m: Manifest, w: World, step: Step, c: nat)
    requires Enabled(w, step)
    requires step == Open(c) || step == Connect(c) || step == Receive(c) || step == Apply(c) || step == Drop(c)
    ensures c in Next(m, w, step).clients
    ensures Next(m, w, step) == w.(clients := w.clients[c := Next(m, w, step).clients[c]])
  {
  }

  lemma PageIsReplaced(m: Manifest, w: World, c: nat, page: Client)
    requires WorldOk(m, w) && ClientOk(m, w.histories, page)
    ensures WorldOk(m, w.(clients := w.clients[c := page]))
  {
    var clients := w.clients[c := page];
    forall d | d in clients ensures ClientOk(m, w.histories, clients[d]) {
      assert d != c ==> clients[d] == w.clients[d];
    }
  }

  lemma PageStepKeepsWorld(m: Manifest, w: World, step: Step, c: nat)
    requires WorldOk(m, w) && Enabled(w, step)
    requires step == Open(c) || step == Connect(c) || step == Receive(c) || step == Apply(c) || step == Drop(c)
    ensures WorldOk(m, Next(m, w, step)) && Next(m, w, step).histories == w.histories
  {
    PageStepKeepsClient(m, w, step, c);
    PageStepChangesOnePage(m, w, step, c);
    PageIsReplaced(m, w, c, Next(m, w, step).clients[c]);
  }

  lemma StepKeepsWorld(m: Manifest, w: World, step: Step)
    requires WorldOk(m, w) && Enabled(w, step)
    ensures WorldOk(m, Next(m, w, step)) && Grew(w.histories, Next(m, w, step).histories)
  {
    match step
    case Publish(e) => PublishKeepsWorld(m, w, e);
    case Restart(runId) => RestartKeepsWorld(m, w, runId);
    case Open(c) => PageStepKeepsWorld(m, w, step, c);
    case Connect(c) => PageStepKeepsWorld(m, w, step, c);
    case Receive(c) => PageStepKeepsWorld(m, w, step, c);
    case Apply(c) => PageStepKeepsWorld(m, w, step, c);
    case Drop(c) => PageStepKeepsWorld(m, w, step, c);
  }

  lemma {:induction false} ReachableIsOk(m: Manifest, w: World, steps: seq<Step>, w': World)
    requires WorldOk(m, w) && Leads(m, w, steps, w')
    ensures WorldOk(m, w') && Grew(w.histories, w'.histories)
    decreases |steps|
  {
    if steps != [] {
      var mid := Run(m, w, steps[..|steps| - 1]).value;
      ReachableIsOk(m, w, steps[..|steps| - 1], mid);
      StepKeepsWorld(m, mid, steps[|steps| - 1]);
    }
  }

  // Whatever the network and the relay do, a page shows an exact prefix of one run's history.
  lemma LiveViewIsAPrefix(m: Manifest, runId: string, steps: seq<Step>, w: World, client: nat)
    requires ValidRunId(runId) && Leads(m, Begin(runId), steps, w) && client in w.clients
    ensures var live := w.clients[client].live;
            match live.runId
            case None => live.state == Fold(m, [])
            case Some(r) => r in w.histories &&
                            exists k :: 0 < k <= |w.histories[r]| && live.state == Fold(m, w.histories[r][..k])
  {
    ReachableIsOk(m, Begin(runId), steps, w);
    assert ClientOk(m, w.histories, w.clients[client]);
  }

  ghost predicate CaughtUp(w: World, client: nat) {
    && client in w.clients
    && w.clients[client].tasks == []
    && w.clients[client].conn == Some(Conn(w.current, []))
  }

  // A connected page with nothing under way shows the whole history of the running relay: no
  // event was lost or repeated on any of the connections that led there. While that relay has
  // published nothing, the page still shows what it showed: nothing, or a prefix of another run.
  lemma CaughtUpViewIsComplete(m: Manifest, runId: string, steps: seq<Step>, w: World, client: nat)
    requires ValidRunId(runId) && Leads(m, Begin(runId), steps, w)
    requires CaughtUp(w, client)
    ensures w.current in w.histories
    ensures w.histories[w.current] != [] ==>
              w.clients[client].live == LiveState(Some(w.current), Fold(m, w.histories[w.current]))
    ensures w.histories[w.current] == [] ==>
              match w.clients[client].live.runId
              case None => w.clients[client].live.state == Fold(m, [])
              case Some(r) => r in w.histories && r != w.current &&
                              exists k :: 0 < k <= |w.histories[r]| &&
                                          w.clients[client].live.state == Fold(m, w.histories[r][..k])
  {
    ReachableIsOk(m, Begin(runId), steps, w);
    LiveViewIsAPrefix(m, runId, steps, w, client);
    var c := w.clients[client];
    assert ClientOk(m, w.histories, c);
    var history := w.histories[w.current];
    assert history[..|history|] == history;
  }

  // Fresh run ids are needed: if a relay that published a is followed by one of the same id that
  // published b and c, a reconnecting page misses b and shows a and c as one run.
  lemma ReusedRunIdMixesRuns(m: Manifest, runId: string, a: Event, b: Event, c: Event)
    requires ValidRunId(runId)
    ensures var page := LiveState(Some(runId), Fold(m, [a]));
            var sent := MessagesFrom(runId, [b, c], ResumeIndex(Header(Some(SseId(runId, 0))), runId));
            && |sent| == 1
            && ApplyLiveMessage(m, page, TextOf(sent[0].id), Parsed(sent[0].event)) ==
               LiveState(Some(runId), Fold(m, [a, c]))
  {
    ResumesAfterAFormattedId(runId, 0, runId);
    MessagesFromAt(runId, [b, c], 1);
    MessageIsReduced(m, LiveState(Some(runId), Fold(m, [a])), SseId(runId, 1), c);
    ReduceOne(InitialState(m), [a], c);
    assert [a] + [c] == [a, c];
  }

  lemma LeadsNext(m: Manifest, w: World, steps: seq<Step>, mid: World, step: Step)
    requires Leads(m, w, steps, mid) && Enabled(mid, step)
    ensures Leads(m, w, steps + [step], Next(m, mid, step))
  {
    assert (steps + [step])[..|steps|] == steps;
  }

  lemma {:induction false} LeadsConcat(m: Manifest, a: World, s: seq<Step>, b: World, t: seq<Step>, c: World)
    requires Leads(m, a, s, b) && Leads(m, b, t, c)
    ensures Leads(m, a, s + t, c)
    decreases |t|
  {
    if t == [] {
      assert s + t == s;
    } else {
      var front, last := t[..|t| - 1], t[|t| - 1];
      var mid := Run(m, b, front).value;
      LeadsConcat(m, a, s, b, front, mid);
      LeadsNext(m, a, s + front, mid, last);
      assert s + front + [last] == s + t;
    }
  }

  // Delivering what is under way, with nothing new published.
  lemma {:induction false} Drain(m: Manifest, w: World, client: nat) returns (steps: seq<Step>, w': World)
    requires client in w.clients && w.clients[client].conn.Some? && w.clients[client].conn.value.runId == w.current
    ensures Leads(m, w, steps, w') && CaughtUp(w', client)
    ensures w'.histories == w.histories && w'.current == w.current
    ensures forall i :: 0 <= i < |steps| ==> steps[i] == Receive(client) || steps[i] == Apply(client)
    decreases 2 * |w.clients[client].conn.value.queue| + |w.clients[client].tasks|
  {
    var c := w.clients[client];
    if c.conn.value.queue == [] && c.tasks == [] {
      return [], w;
    }
    var step := if c.tasks != [] then Apply(client) else Receive(client);
    var rest;
    rest, w' := Drain(m, Next(m, w, step), client);
    LeadsNext(m, w, [], w, step);
    assert [] + [step] == [step];
    LeadsConcat(m, w, [step], Next(m, w, step), rest, w');
    steps := [step] + rest;
  }

  // No reachable page is stuck: losing the connection and reconnecting once always suffices to
  // show everything the running relay has published.
  lemma ReconnectingRecovers(m: Manifest, runId: string, before: seq<Step>, w: World, client: nat)
    returns (steps: seq<Step>, w': World)
    requires ValidRunId(runId) && Leads(m, Begin(runId), before, w) && client in w.clients
    ensures Leads(m, w, steps, w') && w'.histories == w.histories && w'.current == w.current
    ensures CaughtUp(w', client)
    ensures w.current in w.histories
    ensures w.histories[w.current] != [] ==>
              w'.clients[client].live == LiveState(Some(w.current), Fold(m, w.histories[w.current]))
  {
    ReachableIsOk(m, Begin(runId), before, w);
    var first: seq<Step>, w1 := [], w;
    if w.clients[client].conn.Some? {
      first, w1 := [Drop(client)], Next(m, w, Drop(client));
      LeadsNext(m, w, [], w, Drop(client));
      assert [] + [Drop(client)] == [Drop(client)];
    }
    var w2 := Next(m, w1, Connect(client));
    LeadsNext(m, w, first, w1, Connect(client));
    var rest;
    rest, w' := Drain(m, w2, client);
    LeadsConcat(m, w, first + [Connect(client)], w2, rest, w');
    steps := first + [Connect(client)] + rest;
    ReachableIsOk(m, w, steps, w');
    LeadsConcat(m, Begin(runId), before, w, steps, w');
    CaughtUpViewIsComplete(m, runId, before + steps, w', client);
  }
}
