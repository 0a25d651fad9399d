/** The Redis demo's mutable side: what each awaited operation of redis/runner/src/workload.ts and
    invalidator.ts does to the stores, the consumer's buffer and the counters, and what it means
    for the freshness of the cache. */
module CacheDemos {
  import opened Options
  import opened CacheModels
  import opened CacheFreshness

  // Fill f read the row in some step, and the row was written after that.
  ghost predicate OvertakenSinceRead(rows: set<nat>, ttlMs: nat, steps: seq<Step>, row: nat, f: nat) {
    exists i: nat, j: nat ::
      i < j < |steps| && ReadsRow(Begin(rows, Ttl), ttlMs, steps, row, f, i) && steps[j] == Write(row)
  }

  // What a fill holds is behind the database exactly if a write overtook it.
  lemma HeldIsBehindExactlyIfOvertaken(rows: set<nat>, ttlMs: nat, steps: seq<Step>, s: State, f: nat)
    requires Reached(rows, Ttl, ttlMs, steps, s) && f in s.fills && s.fills[f].Holding?
    ensures var Holding(row, version) := s.fills[f];
            && row in s.db && version <= s.db[row]
            && (version < s.db[row] <==> OvertakenSinceRead(rows, ttlMs, steps, row, f))
  {
    var s0, row := Begin(rows, Ttl), s.fills[f].row;
    ReachableIsOk(s0, ttlMs, steps);
    assert Happened(s, Change(row, s.fills[f].version));
    var i, j := HeldVersionWasRead(s0, ttlMs, steps, f);
    if s.fills[f].version < s.db[row] {
      assert ReadsRow(s0, ttlMs, steps, row, f, i) && steps[j] == Write(row);
    }
    if OvertakenSinceRead(rows, ttlMs, steps, row, f) {
      OvertakenIsBehind(rows, ttlMs, steps, s, f);
    }
  }

  lemma OvertakenIsBehind(rows: set<nat>, ttlMs: nat, steps: seq<Step>, s: State, f: nat)
    requires Reached(rows, Ttl, ttlMs, steps, s) && f in s.fills && s.fills[f].Holding?
    requires OvertakenSinceRead(rows, ttlMs, steps, s.fills[f].row, f)
    ensures s.fills[f].row in s.db && s.fills[f].version < s.db[s.fills[f].row]
  {
    var s0, row := Begin(rows, Ttl), s.fills[f].row;
    var i: nat, j: nat :| i < j < |steps| && ReadsRow(s0, ttlMs, steps, row, f, i) && steps[j] == Write(row);
    FillHoldsItsRead(s0, ttlMs, steps, row, f, i);
    WriteRaises(s0, ttlMs, steps, row, i, j);
  }

  // A write of a row there is puts exactly its change on its way, and leaves stale whatever is cached
  // for the row, and nothing else; a write of a missing row does nothing.
  ghost predicate WriteMeans(s: State, s': State, row: nat) {
    && (row in s.db ==> s'.db == s.db[row := s.db[row] + 1])
    && (row in s.db ==> row in s'.db && InFlight(s') == InFlight(s) + multiset{Change(row, s'.db[row])})
    && (row in s.db ==> Undrained(s', Change(row, s'.db[row])))
    && (row !in s.db ==> s' == s)
    && (row in s'.cache ==> Stale(s', row))
    && (forall r :: r != row ==> (Stale(s', r) <==> Stale(s, r)))
  }

  lemma WriteIs(rows: set<nat>, ttlMs: nat, steps: seq<Step>, s: State, row: nat, s': State)
    requires Reached(rows, Ttl, ttlMs, steps, s) && s' == Next(s, ttlMs, Write(row))
    ensures WriteMeans(s, s', row) && Enabled(s, Write(row))
    ensures s' == if row !in s.db then s
                  else s.(db := s.db[row := s.db[row] + 1], topic := s.topic + multiset{Change(row, s.db[row] + 1)})
  {
    WriteMakesStale(rows, ttlMs, steps, s, row, s');
    if row in s.db {
      WriteIsUnderWay(s, ttlMs, row, s');
      UndrainedIsInFlight(s', Change(row, s'.db[row]));
    }
  }

  lemma WriteMakesStale(rows: set<nat>, ttlMs: nat, steps: seq<Step>, s: State, row: nat, s': State)
    requires Reached(rows, Ttl, ttlMs, steps, s) && s' == Next(s, ttlMs, Write(row))
    ensures row in s'.cache ==> Stale(s', row)
    ensures forall r :: r != row ==> (Stale(s', r) <==> Stale(s, r))
  {
    ReachableIsOk(Begin(rows, Ttl), ttlMs, steps);
    assert row in s.cache ==> EntryOk(s, row);
  }

  lemma WriteIsUnderWay(s: State, ttlMs: nat, row: nat, s': State)
    requires s' == Next(s, ttlMs, Write(row)) && row in s.db
    ensures InFlight(s') == InFlight(s) + multiset{Change(row, s'.db[row])}
  {
    WriteConserves(s, ttlMs, row);
  }

  // What a fill sets is cached for a time to live, and stale from the start exactly if the row was
  // written after the fill had read it; no other row is touched.
  ghost predicate SetMeans(rows: set<nat>, ttlMs: nat, steps: seq<Step>, s: State, s': State, f: nat)
    requires f in s.fills
  {
    var row := s.fills[f].row;
    && s.fills[f].Holding? && CachedVersion(s', row) == Some(s.fills[f].version)
    && s'.cache[row].expiresAt == s'.now + ttlMs && f !in s'.fills
    && (Stale(s', row) <==> OvertakenSinceRead(rows, ttlMs, steps, row, f))
    && (forall r :: r != row ==> (Stale(s', r) <==> Stale(s, r)))
  }

  lemma SetIs(rows: set<nat>, ttlMs: nat, steps: seq<Step>, s: State, f: nat, s': State)
    requires Reached(rows, Ttl, ttlMs, steps, s) && Enabled(s, SetCached(f)) && s' == Next(s, ttlMs, SetCached(f))
    ensures SetMeans(rows, ttlMs, steps, s, s', f)
    ensures var Holding(row, version) := s.fills[f];
            && row in s.db
            && s' == s.(cache := s.cache[row := Entry(version, s.db[row], s.now + ttlMs)], fills := s.fills - {f})
  {
    HeldIsBehindExactlyIfOvertaken(rows, ttlMs, steps, s, f);
  }

  lemma DrainTakesOne(s: State, ttlMs: nat, s': State)
    requires Enabled(s, DrainNext) && s' == Next(s, ttlMs, DrainNext)
    ensures s.mode == Cdc ==> InFlight(s') == InFlight(s) && s'.discarded == s.discarded
    ensures s.mode == Ttl ==> InFlight(s') + multiset{s.pending[0]} == InFlight(s) && s.pending[0] in s'.discarded
  {
    HeadOfPending(s);
    var rest := s.topic + multiset(s.buffer) + multiset(s.pending[1..]);
    assert InFlight(s') == rest + if s.mode == Ttl then multiset{} else multiset{s.pending[0]};
  }

  // What a cached version says: it is never ahead of the database, and behind it exactly if a newer
  // change is on its way or was skipped, or the entry's fill was overtaken.
  ghost predicate HitMeans(rows: set<nat>, ttlMs: nat, steps: seq<Step>, s: State, row: nat, version: nat) {
    && row in s.cache && row in s.db && version <= s.db[row]
    && (version < s.db[row] <==>
        OvertakenEntry(Begin(rows, Ttl), ttlMs, steps, row) || exists w :: NewerChange(s, row, w))
  }

  lemma HitIs(rows: set<nat>, ttlMs: nat, steps: seq<Step>, s: State, row: nat)
    requires Reached(rows, Ttl, ttlMs, steps, s) && row in s.cache
    ensures HitMeans(rows, ttlMs, steps, s, row, s.cache[row].version)
  {
    ReachableIsOk(Begin(rows, Ttl), ttlMs, steps);
    assert EntryOk(s, row);
    StaleExactlyWhen(rows, Ttl, ttlMs, steps, s, row);
  }

  lemma MissBeginsAFill(rows: set<nat>, ttlMs: nat, steps: seq<Step>, s: State, row: nat)
    requires Reached(rows, Ttl, ttlMs, steps, s) && CachedVersion(s, row) == None
    ensures Enabled(s, ReadCache(row))
    ensures var s' := Next(s, ttlMs, ReadCache(row));
            && s' == s.(fills := s.fills[s.nextFill := Missed(row)], nextFill := s.nextFill + 1)
            && s.nextFill !in s.fills
  {
    ReachableIsOk(Begin(rows, Ttl), ttlMs, steps);
  }

  class CacheDemo {
    const rows: set<nat>
    const ttlMs: nat
    var now: nat
    var mode: Mode
    var db: map<nat, nat>
    var cache: map<nat, Entry>
    var fills: map<nat, Fill>
    var nextFill: nat
    var topic: multiset<Change>
    var buffer: seq<Change>
    var pending: seq<Change>
    var deleting: Option<Change>
    var discarded: set<Change>  // bookkeeping
    var cacheHits: nat
    var cacheMisses: nat
    var redisOpCount: nat
    ghost var steps: seq<Step>
    ghost var hits: nat         // read ticks that hit, read ticks that missed, and Redis commands of read
    ghost var misses: nat       // ticks, since the start; and how many of each the reports have counted
    ghost var ops: nat
    ghost var reportedHits: nat
    ghost var reportedMisses: nat
    ghost var reportedOps: nat

    function View(): State
      reads this`now, this`mode, this`db, this`cache, this`fills, this`nextFill
      reads this`topic, this`buffer, this`pending, this`deleting, this`discarded
    {
      State(now, mode, db, cache, fills, nextFill, topic, buffer, pending, deleting, discarded)
    }

    // The stores stand where the steps lead from the seeded rows and ttl mode, and every hit,
    // every miss and every Redis command of a read tick is in a report or in its counter.
    ghost predicate Valid()
      reads this
    {
      Reached(rows, Ttl, ttlMs, steps, View()) && Counted()
    }

    ghost predicate Counted()
      reads this`cacheHits, this`cacheMisses, this`redisOpCount, this`hits, this`misses, this`ops
      reads this`reportedHits, this`reportedMisses, this`reportedOps
    {
      && reportedHits + cacheHits == hits
      && reportedMisses + cacheMisses == misses
      && reportedOps + redisOpCount == ops
    }

    constructor (rows: set<nat>, ttlMs: nat)
      ensures Valid() && steps == [] && this.rows == rows && this.ttlMs == ttlMs
    {
      this.rows, this.ttlMs, now, mode := rows, ttlMs, 0, Ttl;
      db, cache := map row | row in rows :: 1, map[];
      fills, nextFill := map[], 0;
      topic, buffer, pending, deleting, discarded := multiset{}, [], [], None, {};
      cacheHits, cacheMisses, redisOpCount := 0, 0, 0;
      steps, hits, misses, ops := [], 0, 0, 0;
      reportedHits, reportedMisses, reportedOps := 0, 0, 0;
    }

    lemma CanTake(step: Step)
      requires Valid() && Enabled(View(), step)
      ensures Reached(rows, Ttl, ttlMs, steps + [step], Next(View(), ttlMs, step))
    {
      RunNext(Begin(rows, Ttl), ttlMs, steps, View(), step);
    }

    // A committed write, see WriteMeans.
    method WriteRowById(row: nat)
      requires Valid()
      modifies this`db, this`topic, this`steps
      ensures Valid() && steps == old(steps) + [Write(row)]
      ensures WriteMeans(old(View()), View(), row)
    {
      if row in db { Commit(row); } else { FindNoRow(row); }
    }

    method Commit(row: nat)
      requires Valid() && row in db
      modifies this`db, this`topic, this`steps
      ensures Valid() && steps == old(steps) + [Write(row)]
      ensures WriteMeans(old(View()), View(), row)
    {
      hide Run, Counted, Begin, Reached, WriteMeans, Next, InFlight, Undrained;
      ghost var before := View();
      ghost var after := Next(before, ttlMs, Write(row));
      CanTake(Write(row));
      WriteIs(rows, ttlMs, steps, before, row, after);
      var version := db[row] + 1;
      db, topic, steps := db[row := version], topic + multiset{Change(row, version)}, steps + [Write(row)];
      assert View() == after;
    }

    method FindNoRow(row: nat)
      requires Valid() && row !in db
      modifies this`steps
      ensures Valid() && steps == old(steps) + [Write(row)]
      ensures WriteMeans(old(View()), View(), row)
    {
      hide Run, Counted, Begin, Reached, WriteMeans;
      CanTake(Write(row));
      WriteIs(rows, ttlMs, steps, View(), row, View());
      steps := steps + [Write(row)];
    }

    method GetCachedPayload(row: nat) returns (cached: Option<nat>)
      requires Valid()
      ensures cached == CachedVersion(View(), row)
      ensures cached.Some? ==> HitMeans(rows, ttlMs, steps, View(), row, cached.value)
    {
      cached := if row in cache && Alive(cache[row], now) then Some(cache[row].version) else None;
      if cached.Some? {
        HitIs(rows, ttlMs, steps, View(), row);
      }
    }

    // A read tick up to the branch on its GET: a hit ends it, and a miss begins a fill for the row.
    method BeginReadTick(row: nat) returns (cached: Option<nat>)
      requires Valid()
      modifies this`fills, this`nextFill, this`cacheHits, this`cacheMisses, this`redisOpCount
      modifies this`steps, this`hits, this`misses, this`ops
      ensures Valid() && steps == old(steps) + [ReadCache(row)] && ops == old(ops) + 1
      ensures cached == old(CachedVersion(View(), row))
      ensures cached.Some? ==> HitMeans(rows, ttlMs, old(steps), old(View()), row, cached.value)
      ensures cached.Some? ==> hits == old(hits) + 1 && misses == old(misses) && fills == old(fills)
      ensures cached == None ==> hits == old(hits) && misses == old(misses) + 1
      ensures cached == None ==> old(nextFill) !in old(fills) && fills == old(fills)[old(nextFill) := Missed(row)]
    {
      cached := GetCachedPayload(row);
      if cached.Some? { Hit(row); } else { Miss(row); }
    }

    method Hit(row: nat)
      requires Valid() && CachedVersion(View(), row).Some?
      modifies this`cacheHits, this`redisOpCount, this`steps, this`hits, this`ops
      ensures Valid() && steps == old(steps) + [ReadCache(row)]
      ensures hits == old(hits) + 1 && ops == old(ops) + 1
    {
      CanTake(ReadCache(row));
      cacheHits, redisOpCount := cacheHits + 1, redisOpCount + 1;
      steps, hits, ops := steps + [ReadCache(row)], hits + 1, ops + 1;
    }

    method Miss(row: nat)
      requires Valid() && CachedVersion(View(), row) == None
      modifies this`fills, this`nextFill, this`cacheMisses, this`redisOpCount, this`steps, this`misses, this`ops
      ensures Valid() && steps == old(steps) + [ReadCache(row)]
      ensures misses == old(misses) + 1 && ops == old(ops) + 1
      ensures old(nextFill) !in old(fills) && fills == old(fills)[old(nextFill) := Missed(row)]
    {
      hide Run, Next, Enabled, Reached, Begin, CachedVersion;
      ghost var before := View();
      MissBeginsAFill(rows, ttlMs, steps, before, row);
      CanTake(ReadCache(row));
      cacheMisses, redisOpCount := cacheMisses + 1, redisOpCount + 1;
      fills := fills[nextFill := Missed(row)];
      nextFill := nextFill + 1;
      steps, misses, ops := steps + [ReadCache(row)], misses + 1, ops + 1;
      assert View() == Next(before, ttlMs, ReadCache(row));
    }

    // The tick that missed reads the row, or ends if there is none; for now it is up to date.
    method ReadRowById(fill: nat)
      requires Valid() && Enabled(View(), ReadRow(fill))
      modifies this`fills, this`steps
      ensures Valid() && steps == old(steps) + [ReadRow(fill)]
      ensures fill in fills <==> old(fills[fill].row) in db
      ensures fill in fills ==> fills[fill].Holding? && fills[fill].row == old(fills[fill].row)
      ensures fill in fills ==> !OvertakenSinceRead(rows, ttlMs, steps, fills[fill].row, fill)
    {
      hide Run, Counted;
      ghost var before := View();
      CanTake(ReadRow(fill));
      var row := fills[fill].row;
      if row in db {
        fills := fills[fill := Holding(row, db[row])];
      } else {
        fills := fills - {fill};
      }
      steps := steps + [ReadRow(fill)];
      assert View() == Next(before, ttlMs, ReadRow(fill));
      if fill in fills {
        HeldIsBehindExactlyIfOvertaken(rows, ttlMs, steps, View(), fill);
      }
    }

    // The tick caches what it read, see SetMeans.
    method SetCachedPayload(fill: nat)
      requires Valid() && Enabled(View(), SetCached(fill))
      modifies this`cache, this`fills, this`redisOpCount, this`steps, this`ops
      ensures Valid() && steps == old(steps) + [SetCached(fill)] && ops == old(ops) + 1
      ensures SetMeans(rows, ttlMs, old(steps), old(View()), View(), fill)
    {
      hide Run, Next, SetMeans, Reached, Begin;
      ghost var before := View();
      CanTake(SetCached(fill));
      SetIs(rows, ttlMs, steps, before, fill, Next(before, ttlMs, SetCached(fill)));
      var Holding(row, version) := fills[fill];
      cache := cache[row := Entry(version, if row in db then db[row] else 0, now + ttlMs)];
      fills := fills - {fill};
      redisOpCount, ops := redisOpCount + 1, ops + 1;
      steps := steps + [SetCached(fill)];
      assert View() == Next(before, ttlMs, SetCached(fill));
    }

    // What the topic hands over is still on its way, once.
    method EachMessage(change: Change)
      requires Valid() && Enabled(View(), Deliver(change))
      modifies this`topic, this`buffer, this`steps
      ensures Valid() && steps == old(steps) + [Deliver(change)]
      ensures InFlight(View()) == old(InFlight(View())) && buffer == old(buffer) + [change]
    {
      hide Run, Counted, Reached, Begin;
      ghost var before := View();
      CanTake(Deliver(change));
      topic := topic - multiset{change};
      buffer := buffer + [change];
      steps := steps + [Deliver(change)];
      assert View() == Next(before, ttlMs, Deliver(change));
    }

    method EachMessageAgain(change: Change)
      requires Valid() && Enabled(View(), Redeliver(change))
      modifies this`buffer, this`steps
      ensures Valid() && steps == old(steps) + [Redeliver(change)]
      ensures InFlight(View()) == old(InFlight(View())) + multiset{change} && buffer == old(buffer) + [change]
    {
      hide Run, Counted;
      ghost var before := View();
      CanTake(Redeliver(change));
      buffer := buffer + [change];
      steps := steps + [Redeliver(change)];
      assert View() == Next(before, ttlMs, Redeliver(change));
    }

    // A drain begins with everything delivered so far, and none of it is lost.
    method BeginDrain()
      requires Valid() && Enabled(View(), Splice)
      modifies this`pending, this`buffer, this`steps
      ensures Valid() && steps == old(steps) + [Splice]
      ensures buffer == [] && pending == old(buffer) && InFlight(View()) == old(InFlight(View()))
    {
      hide Run, Counted;
      ghost var before := View();
      CanTake(Splice);
      pending := buffer;
      buffer := [];
      steps := steps + [Splice];
      assert View() == Next(before, ttlMs, Splice);
    }

    // In cdc mode the next message stays on its way until its delete; in ttl mode it is skipped for good.
    method DrainMessage()
      requires Valid() && Enabled(View(), DrainNext)
      modifies this`pending, this`deleting, this`discarded, this`steps
      ensures Valid() && steps == old(steps) + [DrainNext]
      ensures mode == Cdc ==> InFlight(View()) == old(InFlight(View())) && discarded == old(discarded)
      ensures mode == Ttl ==> InFlight(View()) + multiset{old(pending[0])} == old(InFlight(View()))
      ensures mode == Ttl ==> old(pending[0]) in discarded
      ensures deleting == if mode == Cdc then Some(old(pending[0])) else None
      ensures pending == old(pending)[1..]
    {
      hide Run, Counted, Reached, Begin, InFlight;
      ghost var before := View();
      CanTake(DrainNext);
      if mode != Cdc {
        discarded := discarded + {pending[0]};
      } else {
        deleting := Some(pending[0]);
      }
      pending := pending[1..];
      steps := steps + [DrainNext];
      assert View() == Next(before, ttlMs, DrainNext);
      DrainTakesOne(before, ttlMs, View());
    }

    // The row of the change is not cached, so not stale, and no other row is touched.
    method DeleteCachedPayload()
      requires Valid() && Enabled(View(), Delete)
      modifies this`cache, this`deleting, this`steps
      ensures Valid() && steps == old(steps) + [Delete]
      ensures InFlight(View()) + multiset{old(deleting.value)} == old(InFlight(View()))
      ensures var row := old(deleting.value.row);
              && CachedVersion(View(), row) == None && !Stale(View(), row)
              && forall r :: r != row ==> (Stale(View(), r) <==> old(Stale(View(), r)))
                                          && CachedVersion(View(), r) == old(CachedVersion(View(), r))
    {
      hide Run, Counted, Reached, Begin;
      ghost var before := View();
      CanTake(Delete);
      cache := cache - {deleting.value.row};
      deleting := None;
      steps := steps + [Delete];
      assert View() == Next(before, ttlMs, Delete);
    }

    method Toggle()
      requires Valid()
      modifies this`mode, this`steps
      ensures Valid() && steps == old(steps) + [ToggleMode] && mode != old(mode)
    {
      hide Run, Counted;
      ghost var before := View();
      CanTake(ToggleMode);
      mode := if mode == Ttl then Cdc else Ttl;
      steps := steps + [ToggleMode];
      assert View() == Next(before, ttlMs, ToggleMode);
    }

    method Wait(ms: nat)
      requires Valid()
      modifies this`now, this`steps
      ensures Valid() && steps == old(steps) + [Elapse(ms)] && now == old(now) + ms
    {
      hide Run, Counted;
      ghost var before := View();
      CanTake(Elapse(ms));
      now := now + ms;
      steps := steps + [Elapse(ms)];
      assert View() == Next(before, ttlMs, Elapse(ms));
    }

    // The metrics tick reports the counters and starts them anew: it gives exactly the hits, the misses
    // and the Redis commands since the report before it, so that all are reported once.
    method ReportCounters() returns (hitCount: nat, missCount: nat, redisOps: nat)
      requires Valid()
      modifies this`cacheHits, this`cacheMisses, this`redisOpCount
      modifies this`reportedHits, this`reportedMisses, this`reportedOps
      ensures Valid() && cacheHits == cacheMisses == redisOpCount == 0
      ensures hitCount == hits - old(reportedHits) && reportedHits == hits
      ensures missCount == misses - old(reportedMisses) && reportedMisses == misses
      ensures redisOps == ops - old(reportedOps) && reportedOps == ops
    {
      hide Run, Begin, View, Reached;
      hitCount, missCount, redisOps := cacheHits, cacheMisses, redisOpCount;
      cacheHits, cacheMisses, redisOpCount := 0, 0, 0;
      reportedHits, reportedMisses, reportedOps := hits, misses, ops;
    }

    // One step of the rest of the program, if it can be taken now.
    method Do(step: Step)
      requires Valid()
      modifies this
      ensures Valid() && (steps == old(steps) || steps == old(steps) + [step])
    {
      if !Enabled(View(), step) { return; }
      match step
      case Write(row) => WriteRowById(row);
      case ReadCache(row) => var _ := BeginReadTick(row);
      case ReadRow(fill) => ReadRowById(fill);
      case SetCached(fill) => SetCachedPayload(fill);
      case Deliver(change) => EachMessage(change);
      case Redeliver(change) => EachMessageAgain(change);
      case Splice => BeginDrain();
      case DrainNext => DrainMessage();
      case Delete => DeleteCachedPayload();
      case ToggleMode => Toggle();
      case Elapse(ms) => Wait(ms);
    }
  }
}
