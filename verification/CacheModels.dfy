/** The Redis demo as interleaved steps, one for each awaited operation: redis/runner/src/workload.ts,
    invalidator.ts, tidb-repo.ts and redis-cache.ts. */
module CacheModels {
  import opened Options

  datatype Mode = Ttl | Cdc

  // One committed write of a row, as its change message carries it.
  datatype Change = Change(row: nat, version: nat)

  // A cached row. writtenBySet is bookkeeping: the row's version in the database when the entry was set.
  datatype Entry = Entry(version: nat, writtenBySet: nat, expiresAt: nat)

  // A read tick that missed the cache: about to read the row, or holding what it read.
  datatype Fill = Missed(row: nat) | Holding(row: nat, version: nat)

  datatype State = State(
    now: nat,
    mode: Mode,
    db: map<nat, nat>,           // row versions
    cache: map<nat, Entry>,
    fills: map<nat, Fill>,       // read ticks between their cache miss and their cache set
    nextFill: nat,
    topic: multiset<Change>,     // committed changes the consumer has not been given yet
    buffer: seq<Change>,         // given to the consumer, waiting for a drain
    pending: seq<Change>,        // spliced out by the running drain
    deleting: Option<Change>,    // the delete the drain is waiting for
    discarded: set<Change>)      // changes a drain skipped because the mode was ttl

  datatype Step =
    | Write(row: nat)
    | ReadCache(row: nat)        // the GET of a read tick; a miss goes on to the database
    | ReadRow(fill: nat)
    | SetCached(fill: nat)
    | Deliver(change: Change)
    | Redeliver(change: Change)  // at-least-once: a change that was delivered before
    | Splice
    | DrainNext                  // checks the mode, then starts the delete or skips the message
    | Delete
    | ToggleMode
    | Elapse(ms: nat)

  // The store drops a key once its expiry is past.
  predicate Alive(e: Entry, now: nat) {
    now <= e.expiresAt
  }

  function CachedVersion(s: State, row: nat): Option<nat> {
    if row in s.cache && Alive(s.cache[row], s.now) then Some(s.cache[row].version) else None
  }

  function RowVersion(s: State, row: nat): Option<nat> {
    if row in s.db then Some(s.db[row]) else None
  }

  predicate Enabled(s: State, step: Step) {
    match step
    case Write(_) => true
    case ReadCache(_) => true
    case ReadRow(f) => f in s.fills && s.fills[f].Missed?
    case SetCached(f) => f in s.fills && s.fills[f].Holding?
    case Deliver(c) => c in s.topic
    case Redeliver(c) => c.row in s.db && 0 < c.version <= s.db[c.row]
    case Splice => s.pending == [] && s.deleting == None
    case DrainNext => s.pending != [] && s.deleting == None
    case Delete => s.deleting.Some?
    case ToggleMode => true
    case Elapse(_) => true
  }

  function Next(s: State, ttlMs: nat, step: Step): State
    requires Enabled(s, step)
  {
    match step
    case Write(row) =>
      // UPDATE ... SET version = version + 1 WHERE id = ?: no row, no write and no change.
      if row in s.db then
        s.(db := s.db[row := s.db[row] + 1], topic := s.topic + multiset{Change(row, s.db[row] + 1)})
      else s
    case ReadCache(row) =>
      if CachedVersion(s, row) == None then
        s.(fills := s.fills[s.nextFill := Missed(row)], nextFill := s.nextFill + 1)
      else s
    case ReadRow(f) =>
      var row := s.fills[f].row;
      if row in s.db then s.(fills := s.fills[f := Holding(row, s.db[row])]) else s.(fills := s.fills - {f})
    case SetCached(f) =>
      var Holding(row, version) := s.fills[f];
      s.(cache := s.cache[row := Entry(version, RowVersion(s, row).GetOr(0), s.now + ttlMs)], fills := s.fills - {f})
    case Deliver(c) => s.(topic := s.topic - multiset{c}, buffer := s.buffer + [c])
    case Redeliver(c) => s.(buffer := s.buffer + [c])
    case Splice => s.(pending := s.buffer, buffer := [])
    case DrainNext =>
      if s.mode == Cdc then s.(deleting := Some(s.pending[0]), pending := s.pending[1..])
      else s.(discarded := s.discarded + {s.pending[0]}, pending := s.pending[1..])
    case Delete => s.(cache := s.cache - {s.deleting.value.row}, deleting := None)
    case ToggleMode => s.(mode := if s.mode == Ttl then Cdc else Ttl)
    case Elapse(ms) => s.(now := s.now + ms)
  }

  // The state after the steps, if each can be taken in turn.
  function Run(s: State, ttlMs: nat, steps: seq<Step>): Option<State> {
    if steps == [] then Some(s)
    else
      var mid := Run(s, ttlMs, steps[..|steps| - 1]);
      if mid.Some? && Enabled(mid.value, steps[|steps| - 1])
      then Some(Next(mid.value, ttlMs, steps[|steps| - 1])) else None
  }

  // Rows seeded at version 1, nothing cached, nothing under way.
  function Begin(rows: set<nat>, mode: Mode): State {
    State(0, mode, map row | row in rows :: 1, map[], map[], 0, multiset{}, [], [], None, {})
  }

  ghost predicate Undrained(s: State, c: Change) {
    c in s.topic || c in s.buffer || c in s.pending || s.deleting == Some(c)
  }

  // The deliveries on their way between a commit and the end of a drain.
  function InFlight(s: State): multiset<Change> {
    s.topic + multiset(s.buffer) + multiset(s.pending)
    + if s.deleting.Some? then multiset{s.deleting.value} else multiset{}
  }

  lemma UndrainedIsInFlight(s: State, c: Change)
    ensures Undrained(s, c) <==> c in InFlight(s)
  {
    assert c in s.buffer <==> c in multiset(s.buffer);
    assert c in s.pending <==> c in multiset(s.pending);
  }

  // What each step adds and takes away; no other step touches the deliveries.
  function Added(s: State, step: Step): multiset<Change> {
    match step
    case Write(row) => if row in s.db then multiset{Change(row, s.db[row] + 1)} else multiset{}
    case Redeliver(c) => multiset{c}
    case _ => multiset{}
  }

  function TakenAway(s: State, step: Step): multiset<Change>
    requires Enabled(s, step)
  {
    match step
    case Delete => multiset{s.deleting.value}
    case DrainNext => if s.mode == Ttl then multiset{s.pending[0]} else multiset{}
    case _ => multiset{}
  }

  ghost predicate Conserved(s: State, ttlMs: nat, step: Step)
    requires Enabled(s, step)
  {
    && TakenAway(s, step) <= InFlight(s)
    && InFlight(Next(s, ttlMs, step)) == InFlight(s) - TakenAway(s, step) + Added(s, step)
  }

  lemma WriteConserves(s: State, ttlMs: nat, row: nat)
    ensures Conserved(s, ttlMs, Write(row))
  {
    assert InFlight(Next(s, ttlMs, Write(row))) == InFlight(s) + Added(s, Write(row));
  }

  lemma OneMovesOver<T>(from: multiset<T>, to: multiset<T>, x: T)
    requires x in from
    ensures from - multiset{x} + (to + multiset{x}) == from + to
  {
  }

  lemma OneIsTaken<T>(rest: multiset<T>, x: T)
    ensures rest + multiset{x} - multiset{x} == rest
  {
  }

  lemma DeliverConserves(s: State, ttlMs: nat, c: Change)
    requires c in s.topic
    ensures Conserved(s, ttlMs, Deliver(c))
  {
    assert multiset(s.buffer + [c]) == multiset(s.buffer) + multiset{c};
    OneMovesOver(s.topic, multiset(s.buffer), c);
    assert InFlight(Next(s, ttlMs, Deliver(c))) == InFlight(s);
  }

  lemma RedeliverConserves(s: State, ttlMs: nat, c: Change)
    requires Enabled(s, Redeliver(c))
    ensures Conserved(s, ttlMs, Redeliver(c))
  {
    assert multiset(s.buffer + [c]) == multiset(s.buffer) + multiset{c};
    assert InFlight(Next(s, ttlMs, Redeliver(c))) == InFlight(s) + multiset{c};
  }

  lemma HeadOfPending(s: State)
    requires s.pending != [] && s.deleting == None
    ensures InFlight(s) == s.topic + multiset(s.buffer) + multiset(s.pending[1..]) + multiset{s.pending[0]}
  {
    assert s.pending == [s.pending[0]] + s.pending[1..];
    assert multiset(s.pending) == multiset(s.pending[1..]) + multiset{s.pending[0]};
  }

  lemma DrainConserves(s: State, ttlMs: nat)
    requires Enabled(s, DrainNext)
    ensures Conserved(s, ttlMs, DrainNext)
  {
    HeadOfPending(s);
    var rest := s.topic + multiset(s.buffer) + multiset(s.pending[1..]);
    OneIsTaken(rest, s.pending[0]);
    assert InFlight(Next(s, ttlMs, DrainNext)) == rest + if s.mode == Ttl then multiset{} else multiset{s.pending[0]};
  }

  lemma DeleteConserves(s: State, ttlMs: nat)
    requires Enabled(s, Delete)
    ensures Conserved(s, ttlMs, Delete)
  {
    var rest := s.topic + multiset(s.buffer) + multiset(s.pending);
    OneIsTaken(rest, s.deleting.value);
    assert InFlight(Next(s, ttlMs, Delete)) == rest;
  }

  lemma SpliceConserves(s: State, ttlMs: nat)
    requires Enabled(s, Splice)
    ensures Conserved(s, ttlMs, Splice)
  {
    assert InFlight(Next(s, ttlMs, Splice)) == InFlight(s);
  }

  // The other steps leave all four places of a delivery alone.
  lemma OthersConserve(s: State, ttlMs: nat, step: Step)
    requires Enabled(s, step)
    requires !step.Write? && !step.Deliver? && !step.Redeliver? && !step.DrainNext? && !step.Delete? && !step.Splice?
    ensures Conserved(s, ttlMs, step)
  {
    OthersLeaveTheDeliveries(s, ttlMs, step);
    SameDeliveries(s, Next(s, ttlMs, step));
    NothingTakenOrAdded(InFlight(s));
  }

  lemma OthersLeaveTheDeliveries(s: State, ttlMs: nat, step: Step)
    requires Enabled(s, step)
    requires !step.Write? && !step.Deliver? && !step.Redeliver? && !step.DrainNext? && !step.Delete? && !step.Splice?
    ensures var s' := Next(s, ttlMs, step);
            s'.topic == s.topic && s'.buffer == s.buffer && s'.pending == s.pending && s'.deleting == s.deleting
    ensures TakenAway(s, step) == Added(s, step) == multiset{}
  {
  }

  lemma SameDeliveries(s: State, s': State)
    requires s'.topic == s.topic && s'.buffer == s.buffer && s'.pending == s.pending && s'.deleting == s.deleting
    ensures InFlight(s') == InFlight(s)
  {
  }

  lemma NothingTakenOrAdded<T>(m: multiset<T>)
    ensures multiset{} <= m && m - multiset{} + multiset{} == m
  {
  }

  // No delivery is lost or doubled on its way.
  lemma DeliveriesAreConserved(s: State, ttlMs: nat, step: Step)
    requires Enabled(s, step)
    ensures Conserved(s, ttlMs, step)
  {
    match step
    case Write(row) => WriteConserves(s, ttlMs, row);
    case Deliver(c) => DeliverConserves(s, ttlMs, c);
    case Redeliver(c) => RedeliverConserves(s, ttlMs, c);
    case DrainNext => DrainConserves(s, ttlMs);
    case Delete => DeleteConserves(s, ttlMs);
    case Splice => SpliceConserves(s, ttlMs);
    case _ => OthersConserve(s, ttlMs, step);
  }

  // A change is named only if its write has happened.
  ghost predicate Happened(s: State, c: Change) {
    c.row in s.db && c.version <= s.db[c.row]
  }

  // Every write an entry does not have is still on its way, was skipped, or overtook its fill.
  ghost predicate EntryOk(s: State, row: nat)
    requires row in s.cache
  {
    var e := s.cache[row];
    && row in s.db && e.version <= e.writtenBySet <= s.db[row]
    && forall w :: e.writtenBySet < w <= s.db[row] ==> Undrained(s, Change(row, w)) || Change(row, w) in s.discarded
  }

  ghost predicate Ok(s: State, ttlMs: nat) {
    && (forall c :: Undrained(s, c) || c in s.discarded ==> Happened(s, c))
    && (forall f :: f in s.fills && s.fills[f].Holding? ==> Happened(s, Change(s.fills[f].row, s.fills[f].version)))
    && (forall f :: f in s.fills ==> f < s.nextFill)
    && (forall row :: row in s.cache ==> EntryOk(s, row) && s.cache[row].expiresAt <= s.now + ttlMs)
  }

  // Only a write or a redelivery puts a change on its way.
  lemma ChangesComeFromWrites(s: State, ttlMs: nat, step: Step, c: Change)
    requires Enabled(s, step)
    requires var s' := Next(s, ttlMs, step); Undrained(s', c) || c in s'.discarded
    ensures || Undrained(s, c) || c in s.discarded || step == Redeliver(c)
            || (step == Write(c.row) && c.row in s.db && c.version == s.db[c.row] + 1)
  {
    if step.DrainNext? {
      assert s.pending == [s.pending[0]] + s.pending[1..];
    }
  }

  // And no step but a delete takes one off its way without marking it discarded.
  lemma ChangesLeaveByDelete(s: State, ttlMs: nat, step: Step, c: Change)
    requires Enabled(s, step) && (Undrained(s, c) || c in s.discarded)
    ensures var s' := Next(s, ttlMs, step);
            Undrained(s', c) || c in s'.discarded || (step.Delete? && s.deleting == Some(c))
  {
    if step.DrainNext? {
      assert s.pending == [s.pending[0]] + s.pending[1..];
    }
  }

  lemma StepKeepsHappened(s: State, ttlMs: nat, step: Step, c: Change)
    requires Enabled(s, step) && Happened(s, c)
    ensures Happened(Next(s, ttlMs, step), c)
  {
  }

  /* What one step does to the row versions, the entries and the fills. */

  lemma RowAfter(s: State, ttlMs: nat, step: Step, row: nat)
    requires Enabled(s, step)
    ensures row in Next(s, ttlMs, step).db <==> row in s.db
    ensures row in s.db ==> Next(s, ttlMs, step).db[row] == if step == Write(row) then s.db[row] + 1 else s.db[row]
  {
  }

  ghost predicate Sets(s: State, step: Step, row: nat) {
    step.SetCached? && step.fill in s.fills && s.fills[step.fill].row == row
  }

  lemma EntryAfter(s: State, ttlMs: nat, step: Step, row: nat)
    requires Enabled(s, step) && row in Next(s, ttlMs, step).cache
    ensures s.now <= Next(s, ttlMs, step).now
    ensures var e := Next(s, ttlMs, step).cache[row];
            if Sets(s, step, row)
            then e == Entry(s.fills[step.fill].version, RowVersion(s, row).GetOr(0), s.now + ttlMs)
            else row in s.cache && e == s.cache[row] && !(step.Delete? && s.deleting.value.row == row)
  {
  }

  lemma FillAfter(s: State, ttlMs: nat, step: Step, f: nat)
    requires Enabled(s, step) && f in Next(s, ttlMs, step).fills && Next(s, ttlMs, step).fills[f].Holding?
    ensures f in s.fills
    ensures var fill := Next(s, ttlMs, step).fills[f];
            if step == ReadRow(f)
            then s.fills[f] == Missed(fill.row) && fill.row in s.db && fill.version == s.db[fill.row]
            else s.fills[f] == fill
  {
  }

  lemma StepKeepsEntry(s: State, ttlMs: nat, step: Step, row: nat)
    requires Ok(s, ttlMs) && Enabled(s, step) && row in Next(s, ttlMs, step).cache
    ensures var s' := Next(s, ttlMs, step); EntryOk(s', row) && s'.cache[row].expiresAt <= s'.now + ttlMs
  {
    var s' := Next(s, ttlMs, step);
    RowAfter(s, ttlMs, step, row);
    EntryAfter(s, ttlMs, step, row);
    if Sets(s, step, row) {
      assert Happened(s, Change(row, s.fills[step.fill].version));
    } else {
      var e := s.cache[row];
      assert EntryOk(s, row) && s'.cache[row] == e;
      forall w | e.writtenBySet < w <= s'.db[row]
        ensures Undrained(s', Change(row, w)) || Change(row, w) in s'.discarded
      {
        if w <= s.db[row] {
          ChangesLeaveByDelete(s, ttlMs, step, Change(row, w));
        }
      }
    }
  }

  lemma StepKeepsOk(s: State, ttlMs: nat, step: Step)
    requires Ok(s, ttlMs) && Enabled(s, step)
    ensures Ok(Next(s, ttlMs, step), ttlMs)
  {
    var s' := Next(s, ttlMs, step);
    forall c | Undrained(s', c) || c in s'.discarded ensures Happened(s', c) {
      ChangesComeFromWrites(s, ttlMs, step, c);
      if Happened(s, c) {
        StepKeepsHappened(s, ttlMs, step, c);
      }
    }
    forall f | f in s'.fills && s'.fills[f].Holding?
      ensures Happened(s', Change(s'.fills[f].row, s'.fills[f].version))
    {
      if f in s.fills && s.fills[f] == s'.fills[f] {
        StepKeepsHappened(s, ttlMs, step, Change(s.fills[f].row, s.fills[f].version));
      }
    }
    forall row | row in s'.cache ensures EntryOk(s', row) && s'.cache[row].expiresAt <= s'.now + ttlMs {
      StepKeepsEntry(s, ttlMs, step, row);
    }
  }

  lemma {:induction false} ReachableIsOk(s: State, ttlMs: nat, steps: seq<Step>)
    requires Ok(s, ttlMs) && Run(s, ttlMs, steps).Some?
    ensures Ok(Run(s, ttlMs, steps).value, ttlMs)
  {
    if steps != [] {
      ReachableIsOk(s, ttlMs, steps[..|steps| - 1]);
      StepKeepsOk(Run(s, ttlMs, steps[..|steps| - 1]).value, ttlMs, steps[|steps| - 1]);
    }
  }
}
