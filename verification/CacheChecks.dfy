/** What the Redis demo's checks conclude from what the sampler saw: redis/runner/src/checks.ts, as
    redis/runner/main.ts calls them. */
module CacheChecks {
  import opened Options
  import opened Contract
  import opened Sequences
  import opened CacheModels
  import opened CacheFreshness
  import opened CacheSamplers

  function EvaluateCdcZeroStale(mode: Mode, msSinceLastBurst: Option<nat>, lagP99Ms: Option<nat>,
                                staleCount: nat, sampleCount: nat): CheckStatus {
    if mode != Cdc || msSinceLastBurst == None || lagP99Ms == None then Pending
    else if msSinceLastBurst.value < lagP99Ms.value || sampleCount == 0 then Pending
    else if staleCount == 0 then Pass else Fail
  }

  // The window of the convergence check in each mode.
  function WindowOf(mode: Mode, lagP99Ms: Option<nat>, ttlMs: nat): Option<nat> {
    match mode
    case Cdc => lagP99Ms
    case Ttl => Some(ttlMs)
  }

  function EvaluateVersionsConverge(mode: Mode, msSinceLastBurst: Option<nat>, lagP99Ms: Option<nat>, ttlMs: nat,
                                    mismatched: seq<nat>, sampledRowCount: nat): CheckStatus {
    var windowMs := WindowOf(mode, lagP99Ms, ttlMs);
    if msSinceLastBurst == None || windowMs == None then Pending
    else if msSinceLastBurst.value < windowMs.value || sampledRowCount == 0 then Pending
    else if mismatched == [] then Pass else Fail
  }

  /* Parts of a run. */

  lemma {:induction false} RunSplits(s: State, ttlMs: nat, steps: seq<Step>, b: nat)
    requires Run(s, ttlMs, steps).Some? && b <= |steps|
    ensures Run(s, ttlMs, steps[..b]).Some?
    ensures Run(Run(s, ttlMs, steps[..b]).value, ttlMs, steps[b..]) == Run(s, ttlMs, steps)
  {
    hide Next, Enabled;
    if b == |steps| {
      assert steps[..b] == steps;
    } else {
      var front, last := steps[..|steps| - 1], steps[|steps| - 1];
      var to := Run(s, ttlMs, front).value;
      RunSplits(s, ttlMs, front, b);
      assert front[..b] == steps[..b];
      RunNext(Run(s, ttlMs, steps[..b]).value, ttlMs, front[b..], to, last);
      assert front[b..] + [last] == steps[b..];
    }
  }

  // The part of a run between two points of it.
  lemma Between(s0: State, ttlMs: nat, steps: seq<Step>, b: nat, n: nat)
    requires Run(s0, ttlMs, steps).Some? && b <= n <= |steps|
    ensures StateAt(s0, ttlMs, steps, b).Some? && StateAt(s0, ttlMs, steps, n).Some?
    ensures Run(StateAt(s0, ttlMs, steps, b).value, ttlMs, steps[b..n]) == StateAt(s0, ttlMs, steps, n)
  {
    hide Next, Enabled;
    PrefixRuns(s0, ttlMs, steps, n);
    RunSplits(s0, ttlMs, steps[..n], b);
    assert steps[..n][..b] == steps[..b] && steps[..n][b..] == steps[b..n];
  }

  lemma {:induction false} VersionStays(s: State, ttlMs: nat, steps: seq<Step>, row: nat)
    requires Run(s, ttlMs, steps).Some? && Write(row) !in steps
    ensures RowVersion(Run(s, ttlMs, steps).value, row) == RowVersion(s, row)
  {
    if steps != [] {
      var front, last := steps[..|steps| - 1], steps[|steps| - 1];
      assert last in steps && forall step :: step in front ==> step in steps;
      VersionStays(s, ttlMs, front, row);
      RowAfter(Run(s, ttlMs, front).value, ttlMs, last, row);
    }
  }

  lemma {:induction false} SomeSample(s0: State, ttlMs: nat, steps: seq<Step>, looks: seq<Look>, kind: Sample -> bool)
    ensures Filter(Samples(s0, ttlMs, steps, looks), kind) != [] <==>
            exists look :: look in looks && kind(SampleAt(s0, ttlMs, steps, look))
  {
    if looks != [] {
      var front, last := looks[..|looks| - 1], looks[|looks| - 1];
      SomeSample(s0, ttlMs, steps, front, kind);
      FilterOneMore(Samples(s0, ttlMs, steps, front), SampleAt(s0, ttlMs, steps, last), kind);
      assert forall look :: look in looks <==> look in front || look == last by { assert looks == front + [last]; }
    }
  }

  /* The zero-stale check. */

  // The row was cached when the sampler got it, and either behind already, or written before the
  // sampler read the database.
  ghost predicate StaleLook(s0: State, ttlMs: nat, steps: seq<Step>, look: Look) {
    && look.get <= look.read <= |steps|
    && var at := StateAt(s0, ttlMs, steps, look.get);
    && at.Some? && CachedVersion(at.value, look.row).Some?
    && (|| OvertakenEntry(s0, ttlMs, steps[..look.get], look.row)
        || (exists w :: NewerChange(at.value, look.row, w))
        || Write(look.row) in steps[look.get..look.read])
  }

  lemma WrittenBetween(s0: State, ttlMs: nat, steps: seq<Step>, look: Look)
    requires Run(s0, ttlMs, steps).Some? && look.get <= look.read <= |steps|
    requires var at := StateAt(s0, ttlMs, steps, look.get); at.Some? && look.row in at.value.db
    ensures var (atGet, atRead) := (StateAt(s0, ttlMs, steps, look.get).value, StateAt(s0, ttlMs, steps, look.read));
            && atRead.Some? && look.row in atRead.value.db
            && atGet.db[look.row] <= atRead.value.db[look.row]
            && (atGet.db[look.row] < atRead.value.db[look.row] <==> Write(look.row) in steps[look.get..look.read])
  {
    var between := steps[look.get..look.read];
    Between(s0, ttlMs, steps, look.get, look.read);
    var atGet := StateAt(s0, ttlMs, steps, look.get).value;
    assert between[..0] == [];
    if Write(look.row) in between {
      var j :| 0 <= j < |between| && between[j] == Write(look.row);
      WriteRaises(atGet, ttlMs, between, look.row, 0, j);
    } else {
      VersionStays(atGet, ttlMs, between, look.row);
    }
  }

  lemma SampleIsStaleExactlyWhen(rows: set<nat>, mode: Mode, ttlMs: nat, steps: seq<Step>, look: Look)
    requires Run(Begin(rows, mode), ttlMs, steps).Some? && look.get <= look.read <= |steps|
    ensures StaleRead(SampleAt(Begin(rows, mode), ttlMs, steps, look)) <==>
            StaleLook(Begin(rows, mode), ttlMs, steps, look)
  {
    var s0, row := Begin(rows, mode), look.row;
    PrefixRuns(s0, ttlMs, steps, look.get);
    var atGet := StateAt(s0, ttlMs, steps, look.get).value;
    if CachedVersion(atGet, row).Some? {
      ReachableIsOk(s0, ttlMs, steps[..look.get]);
      assert EntryOk(atGet, row);
      StaleExactlyWhen(rows, mode, ttlMs, steps[..look.get], atGet, row);
      WrittenBetween(s0, ttlMs, steps, look);
    }
  }

  // The check fails exactly when cdc mode is on, both inputs of its window are there and past, and
  // some row the sampler looked at was stale to it; it passes exactly when rows were looked at and
  // none was, and is pending otherwise.
  lemma ZeroStaleExactlyWhen(rows: set<nat>, mode0: Mode, ttlMs: nat, steps: seq<Step>, looks: seq<Look>,
                                  mode: Mode, msSinceLastBurst: Option<nat>, lagP99Ms: Option<nat>)
    requires Run(Begin(rows, mode0), ttlMs, steps).Some?
    requires forall look :: look in looks ==> look.get <= look.read <= |steps|
    ensures var samples := Samples(Begin(rows, mode0), ttlMs, steps, looks);
            var outcome := EvaluateCdcZeroStale(mode, msSinceLastBurst, lagP99Ms,
                                                |Filter(samples, StaleRead)|, |looks|);
            var past := mode == Cdc && msSinceLastBurst.Some? && lagP99Ms.Some?
                        && lagP99Ms.value <= msSinceLastBurst.value;
            var stale := exists look :: look in looks && StaleLook(Begin(rows, mode0), ttlMs, steps, look);
            && (outcome == Fail <==> past && stale)
            && (outcome == Pass <==> past && !stale && looks != [])
            && (outcome == Pending <==> !past || looks == [])
  {
    SomeSample(Begin(rows, mode0), ttlMs, steps, looks, StaleRead);
    forall look | look in looks
      ensures StaleRead(SampleAt(Begin(rows, mode0), ttlMs, steps, look)) <==>
              StaleLook(Begin(rows, mode0), ttlMs, steps, look)
    {
      SampleIsStaleExactlyWhen(rows, mode0, ttlMs, steps, look);
    }
  }

  /* The convergence check. */

  // A cached version is never ahead, so what differs is behind.
  lemma MismatchIsStale(rows: set<nat>, mode: Mode, ttlMs: nat, steps: seq<Step>, look: Look)
    requires Run(Begin(rows, mode), ttlMs, steps).Some? && look.get <= look.read <= |steps|
    ensures Mismatch(SampleAt(Begin(rows, mode), ttlMs, steps, look)) <==>
            StaleRead(SampleAt(Begin(rows, mode), ttlMs, steps, look))
  {
    var s0, row := Begin(rows, mode), look.row;
    PrefixRuns(s0, ttlMs, steps, look.get);
    var atGet := StateAt(s0, ttlMs, steps, look.get).value;
    if CachedVersion(atGet, row).Some? {
      ReachableIsOk(s0, ttlMs, steps[..look.get]);
      assert EntryOk(atGet, row);
      WrittenBetween(s0, ttlMs, steps, look);
    }
  }

  lemma MismatchesAreStaleLooks(rows: set<nat>, mode0: Mode, ttlMs: nat, steps: seq<Step>, looks: seq<Look>)
    requires Run(Begin(rows, mode0), ttlMs, steps).Some?
    requires forall look :: look in looks ==> look.get <= look.read <= |steps|
    ensures Filter(Samples(Begin(rows, mode0), ttlMs, steps, looks), Mismatch) != [] <==>
            exists look :: look in looks && StaleLook(Begin(rows, mode0), ttlMs, steps, look)
  {
    SomeSample(Begin(rows, mode0), ttlMs, steps, looks, Mismatch);
    forall look | look in looks
      ensures Mismatch(SampleAt(Begin(rows, mode0), ttlMs, steps, look)) <==>
              StaleLook(Begin(rows, mode0), ttlMs, steps, look)
    {
      MismatchIsStale(rows, mode0, ttlMs, steps, look);
      SampleIsStaleExactlyWhen(rows, mode0, ttlMs, steps, look);
    }
  }

  lemma MismatchIsListed(samples: seq<Sample>)
    ensures RowIds(Filter(samples, Mismatch)) == [] <==> Filter(samples, Mismatch) == []
    ensures Filter(samples, Mismatch) != [] ==> Filter(samples, Sampled) != []
  {
    var mismatches := Filter(samples, Mismatch);
    if mismatches != [] {
      var r := mismatches[0];
      FilterMembers(samples, Mismatch, r);
      FilterMembers(samples, Sampled, r);
    }
  }

  // The outcome of the check, in both modes: it fails exactly when a burst was pressed, the window
  // of the mode is there and past, and some row the sampler looked at was stale to it, from an
  // overtaken fill, a newer change or a write between the two reads. It passes exactly when the
  // window is past, none was and some row was cached, and is pending otherwise.
  lemma VersionsConvergeExactlyWhen(rows: set<nat>, mode0: Mode, ttlMs: nat, steps: seq<Step>, looks: seq<Look>,
                                    mode: Mode, msSinceLastBurst: Option<nat>, lagP99Ms: Option<nat>)
    requires Run(Begin(rows, mode0), ttlMs, steps).Some?
    requires forall look :: look in looks ==> look.get <= look.read <= |steps|
    ensures var s0 := Begin(rows, mode0);
            var samples := Samples(s0, ttlMs, steps, looks);
            var outcome := EvaluateVersionsConverge(mode, msSinceLastBurst, lagP99Ms, ttlMs,
                                                    RowIds(Filter(samples, Mismatch)), |Filter(samples, Sampled)|);
            var past := match mode
                        case Ttl => msSinceLastBurst.Some? && ttlMs <= msSinceLastBurst.value
                        case Cdc => msSinceLastBurst.Some? && lagP99Ms.Some?
                                    && lagP99Ms.value <= msSinceLastBurst.value;
            var stale := exists look :: look in looks && StaleLook(s0, ttlMs, steps, look);
            var sampled := exists look :: look in looks && Sampled(SampleAt(s0, ttlMs, steps, look));
            && (outcome == Fail <==> past && stale)
            && (outcome == Pass <==> past && !stale && sampled)
            && (outcome == Pending <==> !past || (!stale && !sampled))
  {
    hide Run, Samples, SampleAt, StaleLook, Filter, RowIds;
    MismatchesAreStaleLooks(rows, mode0, ttlMs, steps, looks);
    SomeSample(Begin(rows, mode0), ttlMs, steps, looks, Sampled);
    MismatchIsListed(Samples(Begin(rows, mode0), ttlMs, steps, looks));
  }

  // After step b the row was left alone, the fills of before were over when `settled` was past, and
  // the sampler got the row more than a time to live after that.
  ghost predicate SettledLook(s0: State, ttlMs: nat, steps: seq<Step>, look: Look, b: nat, settled: nat) {
    && b <= look.get <= look.read <= |steps|
    && StateAt(s0, ttlMs, steps, b).Some? && StateAt(s0, ttlMs, steps, look.get).Some?
    && var s := StateAt(s0, ttlMs, steps, b).value;
    && look.row in s.db && s.now <= settled
    && Quiet(s, ttlMs, steps[b..look.read], look.row, settled)
    && settled + ttlMs < StateAt(s0, ttlMs, steps, look.get).value.now
  }

  lemma {:induction false} QuietUntilThen(s: State, ttlMs: nat, steps: seq<Step>, row: nat, settled: nat, n: nat)
    requires Quiet(s, ttlMs, steps, row, settled) && n <= |steps|
    ensures Quiet(s, ttlMs, steps[..n], row, settled)
  {
    if n == |steps| {
      assert steps[..n] == steps;
    } else {
      QuietUntilThen(s, ttlMs, steps[..|steps| - 1], row, settled, n);
      assert steps[..|steps| - 1][..n] == steps[..n];
    }
  }

  lemma StartOfPart(steps: seq<Step>, b: nat, n: nat, m: nat)
    requires b <= n <= m <= |steps|
    ensures steps[b..m][..n - b] == steps[b..n]
  {
  }

  lemma SettledLookIsNoMismatch(rows: set<nat>, mode: Mode, ttlMs: nat, steps: seq<Step>,
                                look: Look, b: nat, settled: nat)
    requires Run(Begin(rows, mode), ttlMs, steps).Some?
    requires SettledLook(Begin(rows, mode), ttlMs, steps, look, b, settled)
    ensures !Mismatch(SampleAt(Begin(rows, mode), ttlMs, steps, look))
  {
    hide Run, Next, Enabled;
    var s0 := Begin(rows, mode);
    var s := StateAt(s0, ttlMs, steps, b).value;
    Between(s0, ttlMs, steps, b, look.get);
    Between(s0, ttlMs, steps, b, look.read);
    ReachableIsOk(s0, ttlMs, steps[..b]);
    QuietUntilThen(s, ttlMs, steps[b..look.read], look.row, settled, look.get - b);
    StartOfPart(steps, b, look.get, look.read);
    QuietConverges(s, ttlMs, steps[b..look.get], look.row, settled);
    QuietConverges(s, ttlMs, steps[b..look.read], look.row, settled);
  }

  // If every row the sampler looked at had settled, the check does not fail, in either mode and
  // whatever went on between the sampler's reads.
  lemma SettledCheckNeverFails(rows: set<nat>, mode0: Mode, ttlMs: nat, steps: seq<Step>, looks: seq<Look>,
                               mode: Mode, msSinceLastBurst: Option<nat>, lagP99Ms: Option<nat>)
    requires Run(Begin(rows, mode0), ttlMs, steps).Some?
    requires forall look :: look in looks ==>
               exists b: nat, settled: nat :: SettledLook(Begin(rows, mode0), ttlMs, steps, look, b, settled)
    ensures var samples := Samples(Begin(rows, mode0), ttlMs, steps, looks);
            EvaluateVersionsConverge(mode, msSinceLastBurst, lagP99Ms, ttlMs,
                                     RowIds(Filter(samples, Mismatch)), |Filter(samples, Sampled)|) != Fail
  {
    var s0 := Begin(rows, mode0);
    SomeSample(s0, ttlMs, steps, looks, Mismatch);
    forall look | look in looks ensures !Mismatch(SampleAt(s0, ttlMs, steps, look)) {
      var b: nat, settled: nat :| SettledLook(s0, ttlMs, steps, look, b, settled);
      SettledLookIsNoMismatch(rows, mode0, ttlMs, steps, look, b, settled);
    }
  }

  lemma WaitFor(s0: State, ttlMs: nat, before: seq<Step>, s: State, ms: nat) returns (steps: seq<Step>, s': State)
    requires Run(s0, ttlMs, before) == Some(s)
    ensures steps == before + [Elapse(ms)] && s' == s.(now := s.now + ms) && Run(s0, ttlMs, steps) == Some(s')
  {
    RunNext(s0, ttlMs, before, s, Elapse(ms));
    steps, s' := before + [Elapse(ms)], Next(s, ttlMs, Elapse(ms));
  }

  function LateFill(settled: nat, now: nat): seq<Step>
    requires settled <= now
  {
    [ReadCache(1), ReadRow(0), Write(1), Elapse(settled), SetCached(0), Elapse(now - settled)]
  }

  // A burst writes the row at once, a fill that read it before is over at `settled`, and the time is now.
  lemma LateFillRuns(ttlMs: nat, settled: nat, now: nat) returns (s: State)
    requires settled <= now <= settled + ttlMs
    ensures Reached({1}, Ttl, ttlMs, LateFill(settled, now), s) && s.mode == Ttl && s.now == now && s.fills == map[]
    ensures CachedVersion(s, 1) == Some(1) && RowVersion(s, 1) == Some(2)
  {
    hide Run, Next, Enabled;
    var s0 := Begin({1}, Ttl);
    var t1, s1 := OvertakenFillBegins(Ttl, ttlMs);
    var t2, s2 := WaitFor(s0, ttlMs, t1, s1, settled);
    var s3 := SetLate(s0, ttlMs, t2, s2, 1);
    var t4;
    t4, s := WaitFor(s0, ttlMs, t2 + [SetCached(0)], s3, now - settled);
    assert t4 == LateFill(settled, now);
  }

  lemma LateFillIsQuiet(ttlMs: nat, settled: nat, now: nat)
    requires settled <= now <= settled + ttlMs
    ensures StateAt(Begin({1}, Ttl), ttlMs, LateFill(settled, now), 3).Some?
    ensures var s := StateAt(Begin({1}, Ttl), ttlMs, LateFill(settled, now), 3).value;
            && s.now == 0 && 1 in s.db
            && Quiet(s, ttlMs, LateFill(settled, now)[3..6], 1, settled)
  {
    var steps := LateFill(settled, now);
    var t1, s1 := OvertakenFillBegins(Ttl, ttlMs);
    assert steps[..3] == t1;
    assert steps[3..6] == [Elapse(settled), SetCached(0), Elapse(now - settled)];
    QuietSoFar(s1, ttlMs, settled, now - settled);
  }

  lemma QuietSoFar(s: State, ttlMs: nat, wait: nat, rest: nat)
    requires s.now == 0 && s.fills == map[0 := Holding(1, 1)] && s.nextFill == 1
    ensures Quiet(s, ttlMs, [Elapse(wait), SetCached(0), Elapse(rest)], 1, wait)
  {
    var a, b, c := [Elapse(wait)], [Elapse(wait), SetCached(0)], [Elapse(wait), SetCached(0), Elapse(rest)];
    assert a[..0] == [] && b[..1] == a && c[..2] == b;
    assert Quiet(s, ttlMs, [], 1, wait);
    assert Run(s, ttlMs, a) == Some(s.(now := wait)) && Quiet(s, ttlMs, a, 1, wait);
    var filled := Next(s.(now := wait), ttlMs, SetCached(0));
    assert filled.fills == map[] && Run(s, ttlMs, b) == Some(filled) && Quiet(s, ttlMs, b, 1, wait);
    assert Run(s, ttlMs, c) == Some(filled.(now := wait + rest));
  }

  // Some run, and a row in it that is left alone from step b on and settles at `settled`, shows the
  // sampler a mismatch at this time.
  ghost predicate MismatchAt(rows: set<nat>, ttlMs: nat, steps: seq<Step>, look: Look, b: nat, settled: nat, now: nat) {
    var s0 := Begin(rows, Ttl);
    && Run(s0, ttlMs, steps).Some? && b <= look.get <= look.read <= |steps|
    && StateAt(s0, ttlMs, steps, b).Some? && StateAt(s0, ttlMs, steps, look.get).Some?
    && var s := StateAt(s0, ttlMs, steps, b).value;
    && look.row in s.db && s.now <= settled
    && Quiet(s, ttlMs, steps[b..look.read], look.row, settled)
    && StateAt(s0, ttlMs, steps, look.get).value.now == now
    && Mismatch(SampleAt(s0, ttlMs, steps, look))
  }

  // The time to live counted from when the last fill was over is exactly the window: up to its end,
  // and not after it, a settled row can still be a mismatch.
  lemma WindowIsExact(ttlMs: nat, settled: nat, now: nat)
    requires settled <= now
    ensures (exists rows, steps, look, b: nat :: MismatchAt(rows, ttlMs, steps, look, b, settled, now)) <==>
            now <= settled + ttlMs
  {
    if now <= settled + ttlMs {
      var s := LateFillRuns(ttlMs, settled, now);
      LateFillIsQuiet(ttlMs, settled, now);
      var steps := LateFill(settled, now);
      assert steps[..6] == steps;
      assert MismatchAt({1}, ttlMs, steps, Look(1, 6, 6), 3, settled, now);
    } else if rows, steps, look, b: nat :| MismatchAt(rows, ttlMs, steps, look, b, settled, now) {
      SettledLookIsNoMismatch(rows, Ttl, ttlMs, steps, look, b, settled);
    }
  }

  // So the window the check uses, a time to live from the press, is too short whenever a fill
  // outlasts the press: here the burst is pressed and committed at 0, and the check fails.
  lemma ConvergenceCanFail(ttlMs: nat, settled: nat, now: nat, lagP99Ms: Option<nat>) returns (s: State)
    requires settled <= now <= settled + ttlMs && ttlMs <= now
    ensures Reached({1}, Ttl, ttlMs, LateFill(settled, now), s) && s.mode == Ttl && s.now == now
    ensures StateAt(Begin({1}, Ttl), ttlMs, LateFill(settled, now), 3).Some?
    ensures StateAt(Begin({1}, Ttl), ttlMs, LateFill(settled, now), 3).value.now == 0
    ensures var samples := Samples(Begin({1}, Ttl), ttlMs, LateFill(settled, now), [Look(1, 6, 6)]);
            EvaluateVersionsConverge(s.mode, Some(s.now - 0), lagP99Ms, ttlMs,
                                     RowIds(Filter(samples, Mismatch)), |Filter(samples, Sampled)|) == Fail
  {
    hide Run, Next, Enabled, StateAt, Samples, Filter, RowIds;
    s := LateFillRuns(ttlMs, settled, now);
    LateFillIsQuiet(ttlMs, settled, now);
    LookAtTheEnd(Begin({1}, Ttl), ttlMs, LateFill(settled, now), s, 1);
  }

  // Nor does it take a fill that was overtaken: the burst is pressed and committed at 0, a read tick
  // caches what it wrote when the window is past, and an ordinary write tick writes the row again.
  function LateWrite(now: nat): seq<Step> {
    [Write(1), Elapse(now), ReadCache(1), ReadRow(0), SetCached(0), Write(1)]
  }

  lemma LateWriteRuns(ttlMs: nat, now: nat) returns (s: State)
    ensures Reached({1}, Ttl, ttlMs, LateWrite(now), s) && s.mode == Ttl && s.now == now
    ensures CachedVersion(s, 1) == Some(2) && RowVersion(s, 1) == Some(3)
  {
    hide Run, Next, Enabled;
    var s0 := Begin({1}, Ttl);
    assert s0.db == map[1 := 1];
    EmptyRun(s0, ttlMs);
    var t1, s1 := WriteOnce(s0, ttlMs, [], s0);
    var t2, s2 := WaitFor(s0, ttlMs, t1, s1, now);
    var t5, s5 := FillUnhindered(s0, ttlMs, t2, s2);
    var t6;
    t6, s := WriteOnce(s0, ttlMs, t5, s5);
    assert t6 == LateWrite(now);
  }

  lemma EmptyRun(s: State, ttlMs: nat)
    ensures Run(s, ttlMs, []) == Some(s)
  {
  }

  lemma WriteOnce(s0: State, ttlMs: nat, before: seq<Step>, s: State) returns (steps: seq<Step>, s': State)
    requires Run(s0, ttlMs, before) == Some(s) && 1 in s.db
    ensures steps == before + [Write(1)] && Run(s0, ttlMs, steps) == Some(s')
    ensures s' == s.(db := s.db[1 := s.db[1] + 1], topic := s.topic + multiset{Change(1, s.db[1] + 1)})
  {
    RunNext(s0, ttlMs, before, s, Write(1));
    steps, s' := before + [Write(1)], Next(s, ttlMs, Write(1));
  }

  lemma MissOnce(s0: State, ttlMs: nat, before: seq<Step>, s: State) returns (steps: seq<Step>, s': State)
    requires Run(s0, ttlMs, before) == Some(s) && s.cache == map[] && s.fills == map[] && s.nextFill == 0
    ensures steps == before + [ReadCache(1)] && Run(s0, ttlMs, steps) == Some(s')
    ensures s' == s.(fills := map[0 := Missed(1)], nextFill := 1)
  {
    hide Run;
    RunNext(s0, ttlMs, before, s, ReadCache(1));
    steps, s' := before + [ReadCache(1)], Next(s, ttlMs, ReadCache(1));
  }

  lemma ReadOnce(s0: State, ttlMs: nat, before: seq<Step>, s: State) returns (steps: seq<Step>, s': State)
    requires Run(s0, ttlMs, before) == Some(s) && s.fills == map[0 := Missed(1)] && 1 in s.db
    ensures steps == before + [ReadRow(0)] && Run(s0, ttlMs, steps) == Some(s')
    ensures s' == s.(fills := map[0 := Holding(1, s.db[1])])
  {
    hide Run;
    RunNext(s0, ttlMs, before, s, ReadRow(0));
    steps, s' := before + [ReadRow(0)], Next(s, ttlMs, ReadRow(0));
  }

  lemma FillUnhindered(s0: State, ttlMs: nat, before: seq<Step>, s: State) returns (steps: seq<Step>, s': State)
    requires Run(s0, ttlMs, before) == Some(s) && s.cache == map[] && s.fills == map[] && s.nextFill == 0 && 1 in s.db
    ensures steps == before + [ReadCache(1), ReadRow(0), SetCached(0)] && Run(s0, ttlMs, steps) == Some(s')
    ensures s' == s.(cache := map[1 := Entry(s.db[1], s.db[1], s.now + ttlMs)], nextFill := 1)
  {
    hide Run, Next, Enabled;
    var t1, s1 := MissOnce(s0, ttlMs, before, s);
    var t2, s2 := ReadOnce(s0, ttlMs, t1, s1);
    s' := SetLate(s0, ttlMs, t2, s2, s.db[1]);
    steps := t2 + [SetCached(0)];
  }

  lemma ConvergenceCanFailByAWriteTick(ttlMs: nat, now: nat, lagP99Ms: Option<nat>) returns (s: State)
    requires ttlMs <= now
    ensures Reached({1}, Ttl, ttlMs, LateWrite(now), s) && s.mode == Ttl && s.now == now
    ensures var samples := Samples(Begin({1}, Ttl), ttlMs, LateWrite(now), [Look(1, 6, 6)]);
            EvaluateVersionsConverge(s.mode, Some(s.now - 0), lagP99Ms, ttlMs,
                                     RowIds(Filter(samples, Mismatch)), |Filter(samples, Sampled)|) == Fail
  {
    hide Run, Next, Enabled, Samples, Filter, RowIds;
    s := LateWriteRuns(ttlMs, now);
    LookAtTheEnd(Begin({1}, Ttl), ttlMs, LateWrite(now), s, 1);
  }

  // One row, looked at where the run ends.
  lemma LookAtTheEnd(s0: State, ttlMs: nat, steps: seq<Step>, s: State, row: nat)
    requires Run(s0, ttlMs, steps) == Some(s)
    ensures var samples := Samples(s0, ttlMs, steps, [Look(row, |steps|, |steps|)]);
            var r := Sample(row, CachedVersion(s, row), RowVersion(s, row));
            && |samples| == 1
            && |Filter(samples, StaleRead)| == (if StaleRead(r) then 1 else 0)
            && |Filter(samples, Sampled)| == (if Sampled(r) then 1 else 0)
            && RowIds(Filter(samples, Mismatch)) == if Mismatch(r) then [row] else []
  {
    var look := Look(row, |steps|, |steps|);
    assert steps[..|steps|] == steps && [look][..0] == [];
    assert Samples(s0, ttlMs, steps, [look]) == [SampleAt(s0, ttlMs, steps, look)];
    OneSample(SampleAt(s0, ttlMs, steps, look));
  }

  lemma OneSample(r: Sample)
    ensures |Filter([r], StaleRead)| == if StaleRead(r) then 1 else 0
    ensures |Filter([r], Sampled)| == if Sampled(r) then 1 else 0
    ensures RowIds(Filter([r], Mismatch)) == if Mismatch(r) then [r.rowId] else []
  {
    assert [] + [r] == [r];
    FilterOneMore([], r, StaleRead);
    FilterOneMore([], r, Sampled);
    OneMismatchMore([], r);
  }

  /* The run in which cdc mode's zero does not come. */

  // From ttl mode, as the program starts: cdc mode is turned on, a read tick misses and reads the
  // row, the burst writes it, its change is deleted `lag` after the write, and `since` after the
  // write the read tick caches what it read.
  function OvertakenRun(lag: nat, since: nat): seq<Step>
    requires lag <= since
  {
    [ToggleMode, ReadCache(1), ReadRow(0), Write(1), Elapse(lag), Deliver(Change(1, 2)), Splice, DrainNext, Delete,
     Elapse(since - lag), SetCached(0)]
  }

  lemma Toggled(ttlMs: nat, steps: seq<Step>)
    ensures Run(Begin({1}, Ttl), ttlMs, [ToggleMode] + steps) == Run(Begin({1}, Cdc), ttlMs, steps)
  {
    var all := [ToggleMode] + steps;
    RunNext(Begin({1}, Ttl), ttlMs, [], Begin({1}, Ttl), ToggleMode);
    assert [] + [ToggleMode] == [ToggleMode];
    assert Run(Begin({1}, Ttl), ttlMs, [ToggleMode]) == Some(Begin({1}, Cdc));
    RunsOn(Begin({1}, Ttl), ttlMs, [ToggleMode], Begin({1}, Cdc), steps);
  }

  lemma {:induction false} RunsOn(s0: State, ttlMs: nat, a: seq<Step>, mid: State, b: seq<Step>)
    requires Run(s0, ttlMs, a) == Some(mid)
    ensures Run(s0, ttlMs, a + b) == Run(mid, ttlMs, b)
  {
    if b == [] {
      assert a + b == a;
    } else {
      RunsOn(s0, ttlMs, a, mid, b[..|b| - 1]);
      assert (a + b)[..|a + b| - 1] == a + b[..|b| - 1];
    }
  }

  // The run up to the end of its drain.
  lemma DrainedAtLag(ttlMs: nat, lag: nat) returns (steps: seq<Step>, s: State)
    ensures steps == [ReadCache(1), ReadRow(0), Write(1), Elapse(lag), Deliver(Change(1, 2)), Splice, DrainNext, Delete]
    ensures Run(Begin({1}, Cdc), ttlMs, steps) == Some(s)
    ensures s == State(lag, Cdc, map[1 := 2], map[], map[0 := Holding(1, 1)], 1, multiset{}, [], [], None, {})
  {
    hide Run, Next, Enabled;
    var t1, s1 := OvertakenFillBegins(Cdc, ttlMs);
    var t2, s2 := WaitFor(Begin({1}, Cdc), ttlMs, t1, s1, lag);
    steps, s := DrainOne(Begin({1}, Cdc), ttlMs, t2, s2, Change(1, 2));
    assert s.topic == multiset{} && s.cache == map[];
  }

  lemma SetLate(s0: State, ttlMs: nat, before: seq<Step>, s1: State, version: nat) returns (s: State)
    requires Run(s0, ttlMs, before) == Some(s1)
    requires s1.fills == map[0 := Holding(1, version)] && 1 in s1.db && s1.cache == map[]
    ensures Run(s0, ttlMs, before + [SetCached(0)]) == Some(s)
    ensures s == s1.(cache := map[1 := Entry(version, s1.db[1], s1.now + ttlMs)], fills := map[])
  {
    hide Run;
    s := Next(s1, ttlMs, SetCached(0));
    RunNext(s0, ttlMs, before, s1, SetCached(0));
    assert s.fills == map[];
  }

  lemma OvertakenRunEnds(ttlMs: nat, lag: nat, since: nat) returns (s: State)
    requires lag <= since
    ensures Reached({1}, Ttl, ttlMs, OvertakenRun(lag, since), s)
    ensures s == State(since, Cdc, map[1 := 2], map[1 := Entry(1, 2, since + ttlMs)], map[], 1,
                       multiset{}, [], [], None, {})
  {
    hide Run, Next, Enabled;
    var t3, s3 := DrainedAtLag(ttlMs, lag);
    var t4, s4 := WaitFor(Begin({1}, Cdc), ttlMs, t3, s3, since - lag);
    s := SetLate(Begin({1}, Cdc), ttlMs, t4, s4, 1);
    Toggled(ttlMs, t4 + [SetCached(0)]);
    assert [ToggleMode] + (t4 + [SetCached(0)]) == OvertakenRun(lag, since);
  }

  lemma {:induction false} NoWait(s: State, ttlMs: nat, steps: seq<Step>)
    requires Run(s, ttlMs, steps).Some? && forall i :: 0 <= i < |steps| ==> !steps[i].Elapse?
    ensures Run(s, ttlMs, steps).value.now == s.now
  {
    if steps != [] {
      var front := steps[..|steps| - 1];
      NoWait(s, ttlMs, front);
      OnlyElapseWaits(Run(s, ttlMs, front).value, ttlMs, steps[|steps| - 1]);
    }
  }

  lemma OnlyElapseWaits(s: State, ttlMs: nat, step: Step)
    requires Enabled(s, step)
    ensures Next(s, ttlMs, step).now == s.now + if step.Elapse? then step.ms else 0
  {
  }

  lemma NoWaitBetween(s0: State, ttlMs: nat, steps: seq<Step>, b: nat, n: nat)
    requires Run(s0, ttlMs, steps).Some? && b <= n <= |steps| && forall i :: b <= i < n ==> !steps[i].Elapse?
    ensures StateAt(s0, ttlMs, steps, b).Some? && StateAt(s0, ttlMs, steps, n).Some?
    ensures StateAt(s0, ttlMs, steps, n).value.now == StateAt(s0, ttlMs, steps, b).value.now
  {
    Between(s0, ttlMs, steps, b, n);
    NoWait(StateAt(s0, ttlMs, steps, b).value, ttlMs, steps[b..n]);
  }

  lemma WaitAt(s0: State, ttlMs: nat, steps: seq<Step>, b: nat, ms: nat)
    requires Run(s0, ttlMs, steps).Some? && b < |steps| && steps[b] == Elapse(ms)
    ensures StateAt(s0, ttlMs, steps, b).Some? && StateAt(s0, ttlMs, steps, b + 1).Some?
    ensures StateAt(s0, ttlMs, steps, b + 1).value.now == StateAt(s0, ttlMs, steps, b).value.now + ms
  {
    Between(s0, ttlMs, steps, b, b + 1);
    assert steps[..b + 1][..b] == steps[..b];
  }

  // Of the first eight steps only the fifth takes time.
  lemma OnlyTheFifthWaits(s0: State, ttlMs: nat, steps: seq<Step>, lag: nat)
    requires Run(s0, ttlMs, steps).Some? && |steps| > 8 && steps[4] == Elapse(lag)
    requires forall i :: 0 <= i < 8 && i != 4 ==> !steps[i].Elapse?
    ensures StateAt(s0, ttlMs, steps, 3).Some? && StateAt(s0, ttlMs, steps, 3).value.now == s0.now
    ensures StateAt(s0, ttlMs, steps, 8).Some? && StateAt(s0, ttlMs, steps, 8).value.now == s0.now + lag
  {
    assert steps[..0] == [];
    NoWaitBetween(s0, ttlMs, steps, 0, 3);
    NoWaitBetween(s0, ttlMs, steps, 0, 4);
    WaitAt(s0, ttlMs, steps, 4, lag);
    NoWaitBetween(s0, ttlMs, steps, 5, 8);
  }

  // When the burst's write and its change's delete happen.
  lemma OvertakenRunTimes(ttlMs: nat, lag: nat, since: nat)
    requires lag <= since
    ensures var (s0, steps) := (Begin({1}, Ttl), OvertakenRun(lag, since));
            && steps[3] == Write(1) && steps[8] == Delete
            && StateAt(s0, ttlMs, steps, 3).Some? && StateAt(s0, ttlMs, steps, 3).value.now == 0
            && StateAt(s0, ttlMs, steps, 8).Some? && StateAt(s0, ttlMs, steps, 8).value.now == lag
  {
    var end := OvertakenRunEnds(ttlMs, lag, since);
    OnlyTheFifthWaits(Begin({1}, Ttl), ttlMs, OvertakenRun(lag, since), lag);
  }

  // With everything drained, a window that is past and a lag that was measured, both checks fail:
  // `since` is the time since the burst's write and `lag` what its own invalidation took.
  lemma ZeroStaleCanFail(ttlMs: nat, lag: nat, since: nat) returns (s: State)
    requires lag <= since
    ensures Reached({1}, Ttl, ttlMs, OvertakenRun(lag, since), s) && s.mode == Cdc && forall c :: !Undrained(s, c)
    ensures var (s0, steps) := (Begin({1}, Ttl), OvertakenRun(lag, since));
            var (burst, deleted) := (StateAt(s0, ttlMs, steps, 3), StateAt(s0, ttlMs, steps, 8));
            var samples := Samples(s0, ttlMs, steps, [Look(1, 11, 11)]);
            && burst.Some? && deleted.Some? && burst.value.now <= deleted.value.now <= s.now
            && s.now - burst.value.now == since && deleted.value.now - burst.value.now == lag
            && EvaluateCdcZeroStale(s.mode, Some(since), Some(lag), |Filter(samples, StaleRead)|, |samples|) == Fail
            && EvaluateVersionsConverge(s.mode, Some(since), Some(lag), ttlMs, RowIds(Filter(samples, Mismatch)),
                                        |Filter(samples, Sampled)|) == Fail
  {
    s := OvertakenRunEnds(ttlMs, lag, since);
    OvertakenRunTimes(ttlMs, lag, since);
    LookAtTheEnd(Begin({1}, Ttl), ttlMs, OvertakenRun(lag, since), s, 1);
  }

  /* The latch a check's verdicts go through. */

  datatype Latch = Latch(status: CheckStatus, settled: bool)

  function NextCheckState(current: Latch, outcome: CheckStatus): (Latch, bool) {
    if current.settled || outcome == current.status then (current, false)
    else (Latch(outcome, outcome == Pass || outcome == Fail), true)
  }

  // The latch after a series of outcomes, and what was emitted on the way.
  function Latched(outcomes: seq<CheckStatus>): (Latch, seq<CheckStatus>) {
    if outcomes == [] then (Latch(Pending, false), [])
    else
      var (latch, emitted) := Latched(outcomes[..|outcomes| - 1]);
      var (next, emit) := NextCheckState(latch, outcomes[|outcomes| - 1]);
      (next, if emit then emitted + [next.status] else emitted)
  }

  // After a burst a check speaks at most once: its first verdict, which stays.
  lemma {:induction false} FirstVerdictStays(outcomes: seq<CheckStatus>, k: nat)
    requires k <= |outcomes| && forall i :: 0 <= i < k ==> outcomes[i] == Pending
    requires k < |outcomes| ==> outcomes[k] != Pending
    ensures Latched(outcomes) ==
            if k == |outcomes| then (Latch(Pending, false), []) else (Latch(outcomes[k], true), [outcomes[k]])
  {
    if outcomes != [] {
      var front, last := outcomes[..|outcomes| - 1], outcomes[|outcomes| - 1];
      FirstVerdictStays(front, if k == |outcomes| then k - 1 else k);
      assert Latched(front).1 + [last] == [last] || k < |front|;
    }
  }
}
