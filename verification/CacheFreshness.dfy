/** When a cached row can be behind the database, in every run of the Redis demo, and when it
    cannot be any more. */
module CacheFreshness {
  import opened Options
  import opened CacheModels

  ghost predicate Reached(rows: set<nat>, mode: Mode, ttlMs: nat, steps: seq<Step>, s: State) {
    Run(Begin(rows, mode), ttlMs, steps) == Some(s)
  }

  ghost predicate Stale(s: State, row: nat) {
    row in s.cache && row in s.db && s.cache[row].version < s.db[row]
  }

  // A change for the row newer than what is cached, still on its way or skipped in ttl mode.
  ghost predicate NewerChange(s: State, row: nat, w: nat)
    requires row in s.cache
  {
    s.cache[row].version < w && (Undrained(s, Change(row, w)) || Change(row, w) in s.discarded)
  }

  // Exactly when an entry is stale, by the versions it was set with.
  lemma StaleSinceItsSet(rows: set<nat>, mode: Mode, ttlMs: nat, steps: seq<Step>, s: State, row: nat)
    requires Reached(rows, mode, ttlMs, steps, s) && row in s.cache
    ensures Stale(s, row) <==>
            s.cache[row].version < s.cache[row].writtenBySet || exists w :: NewerChange(s, row, w)
  {
    ReachableIsOk(Begin(rows, mode), ttlMs, steps);
    var e := s.cache[row];
    assert EntryOk(s, row);
    if Stale(s, row) && e.version == e.writtenBySet {
      assert NewerChange(s, row, s.db[row]);
    }
    if w :| NewerChange(s, row, w) {
      assert Happened(s, Change(row, w));
    }
  }

  /* The bookkeeping field of an entry, read off the run itself. */

  // Fill f read the row at step i, step j wrote the row, and f set its value at step k, the last
  // step to set the row.
  ghost predicate Overtaken(s0: State, ttlMs: nat, steps: seq<Step>, row: nat, f: nat, i: nat, j: nat, k: nat) {
    && i < j < k < |steps|
    && ReadsRow(s0, ttlMs, steps, row, f, i) && steps[j] == Write(row)
    && steps[k] == SetCached(f) && LastSet(s0, ttlMs, steps, row, k)
  }

  ghost predicate SetsRow(s0: State, ttlMs: nat, steps: seq<Step>, row: nat, n: nat) {
    && n < |steps|
    && var s := Run(s0, ttlMs, steps[..n]); s.Some? && Sets(s.value, steps[n], row)
  }

  ghost predicate LastSet(s0: State, ttlMs: nat, steps: seq<Step>, row: nat, k: nat) {
    SetsRow(s0, ttlMs, steps, row, k) && forall n :: k < n < |steps| ==> !SetsRow(s0, ttlMs, steps, row, n)
  }

  // The entry now cached for the row was set by a fill that a write overtook.
  ghost predicate OvertakenEntry(s0: State, ttlMs: nat, steps: seq<Step>, row: nat) {
    exists f: nat, i: nat, j: nat, k: nat :: Overtaken(s0, ttlMs, steps, row, f, i, j, k)
  }

  ghost predicate ReadsRow(s0: State, ttlMs: nat, steps: seq<Step>, row: nat, f: nat, i: nat) {
    && i < |steps| && steps[i] == ReadRow(f)
    && var s := Run(s0, ttlMs, steps[..i]); s.Some? && f in s.value.fills && s.value.fills[f] == Missed(row)
  }

  lemma ReadsRowInPrefix(s0: State, ttlMs: nat, steps: seq<Step>, n: nat, row: nat, f: nat, i: nat)
    requires n <= |steps| && ReadsRow(s0, ttlMs, steps[..n], row, f, i)
    ensures ReadsRow(s0, ttlMs, steps, row, f, i)
  {
    hide Next, Enabled;
    assert steps[..n][..i] == steps[..i];
  }

  lemma SetsRowInPrefix(s0: State, ttlMs: nat, steps: seq<Step>, n: nat, row: nat, m: nat)
    requires m < n <= |steps|
    ensures SetsRow(s0, ttlMs, steps[..n], row, m) <==> SetsRow(s0, ttlMs, steps, row, m)
  {
    hide Next, Enabled;
    assert steps[..n][..m] == steps[..m];
  }

  lemma LastSetInPrefix(s0: State, ttlMs: nat, steps: seq<Step>, n: nat, row: nat, k: nat)
    requires n + 1 == |steps| && LastSet(s0, ttlMs, steps[..n], row, k) && !SetsRow(s0, ttlMs, steps, row, n)
    ensures LastSet(s0, ttlMs, steps, row, k)
  {
    hide Next, Enabled, Run;
    SetsRowInPrefix(s0, ttlMs, steps, n, row, k);
    forall m | k < m < |steps| ensures !SetsRow(s0, ttlMs, steps, row, m) {
      if m < n {
        SetsRowInPrefix(s0, ttlMs, steps, n, row, m);
      }
    }
  }

  // A fill that holds a version read it in some step; if the row has moved on, a write came later.
  lemma {:induction false} HeldVersionWasRead(s0: State, ttlMs: nat, steps: seq<Step>, f: nat) returns (i: nat, j: nat)
    requires s0.fills == map[] && Run(s0, ttlMs, steps).Some?
    requires var s := Run(s0, ttlMs, steps).value; f in s.fills && s.fills[f].Holding?
    ensures var s := Run(s0, ttlMs, steps).value; var row := s.fills[f].row;
            && ReadsRow(s0, ttlMs, steps, row, f, i)
            && row in s.db
            && (s.fills[f].version != s.db[row] ==> i < j < |steps| && steps[j] == Write(row))
  {
    var n := |steps| - 1;
    var before := Run(s0, ttlMs, steps[..n]).value;
    FillAfter(before, ttlMs, steps[n], f);
    var row := before.fills[f].row;
    RowAfter(before, ttlMs, steps[n], row);
    if steps[n] == ReadRow(f) {
      i, j := n, n;
    } else {
      i, j := HeldVersionWasRead(s0, ttlMs, steps[..n], f);
      ReadsRowInPrefix(s0, ttlMs, steps, n, row, f, i);
      if before.fills[f].version == before.db[row] {
        j := n;
      }
    }
  }

  lemma {:induction false} EntryOvertaken(s0: State, ttlMs: nat, steps: seq<Step>, row: nat)
    returns (f: nat, i: nat, j: nat, k: nat)
    requires s0.fills == map[] && s0.cache == map[] && Run(s0, ttlMs, steps).Some?
    requires var s := Run(s0, ttlMs, steps).value; row in s.cache && s.cache[row].version < s.cache[row].writtenBySet
    ensures Overtaken(s0, ttlMs, steps, row, f, i, j, k)
  {
    var n := |steps| - 1;
    var front, step := steps[..n], steps[n];
    var before := Run(s0, ttlMs, front).value;
    EntryAfter(before, ttlMs, step, row);
    if Sets(before, step, row) {
      f, k := step.fill, n;
      i, j := HeldVersionWasRead(s0, ttlMs, front, f);
      ReadsRowInPrefix(s0, ttlMs, steps, n, row, f, i);
    } else {
      f, i, j, k := EntryOvertaken(s0, ttlMs, front, row);
      ReadsRowInPrefix(s0, ttlMs, steps, n, row, f, i);
      LastSetInPrefix(s0, ttlMs, steps, n, row, k);
    }
  }

  /* And back: a fill that was overtaken left less than was written. */

  lemma {:induction false} PrefixRuns(s0: State, ttlMs: nat, steps: seq<Step>, n: nat)
    requires Run(s0, ttlMs, steps).Some? && n <= |steps|
    ensures Run(s0, ttlMs, steps[..n]).Some?
  {
    hide Next, Enabled;
    if n == |steps| {
      assert steps[..n] == steps;
    } else {
      PrefixRuns(s0, ttlMs, steps[..|steps| - 1], n);
      assert steps[..|steps| - 1][..n] == steps[..n];
    }
  }

  // The version of the row when step n is taken.
  function VersionAt(s0: State, ttlMs: nat, steps: seq<Step>, row: nat, n: nat): Option<nat>
    requires n <= |steps|
  {
    var s := Run(s0, ttlMs, steps[..n]);
    if s.Some? then RowVersion(s.value, row) else None
  }

  lemma VersionAtInPrefix(s0: State, ttlMs: nat, steps: seq<Step>, n: nat, row: nat, i: nat)
    requires i <= n <= |steps|
    ensures VersionAt(s0, ttlMs, steps[..n], row, i) == VersionAt(s0, ttlMs, steps, row, i)
  {
    hide Next, Enabled;
    assert steps[..n][..i] == steps[..i];
  }

  lemma {:induction false} VersionsGrow(s0: State, ttlMs: nat, steps: seq<Step>, row: nat, i: nat)
    requires Run(s0, ttlMs, steps).Some? && i <= |steps| && VersionAt(s0, ttlMs, steps, row, i).Some?
    ensures var s := Run(s0, ttlMs, steps).value;
            row in s.db && VersionAt(s0, ttlMs, steps, row, i).value <= s.db[row]
  {
    hide Next, Enabled;
    if i == |steps| {
      assert steps[..i] == steps;
    } else {
      var front, last := steps[..|steps| - 1], steps[|steps| - 1];
      VersionAtInPrefix(s0, ttlMs, steps, |front|, row, i);
      VersionsGrow(s0, ttlMs, front, row, i);
      RowAfter(Run(s0, ttlMs, front).value, ttlMs, last, row);
    }
  }

  lemma WriteRaises(s0: State, ttlMs: nat, steps: seq<Step>, row: nat, i: nat, j: nat)
    requires Run(s0, ttlMs, steps).Some? && i <= j < |steps| && steps[j] == Write(row)
    requires VersionAt(s0, ttlMs, steps, row, i).Some?
    ensures var s := Run(s0, ttlMs, steps).value;
            row in s.db && VersionAt(s0, ttlMs, steps, row, i).value < s.db[row]
  {
    hide Next, Enabled;
    var before, after := steps[..j], steps[..j + 1];
    PrefixRuns(s0, ttlMs, steps, j);
    PrefixRuns(s0, ttlMs, steps, j + 1);
    VersionAtInPrefix(s0, ttlMs, steps, j, row, i);
    VersionsGrow(s0, ttlMs, before, row, i);
    assert after[..j] == before && after[j] == Write(row);
    RowAfter(Run(s0, ttlMs, before).value, ttlMs, Write(row), row);
    VersionsGrow(s0, ttlMs, steps, row, j + 1);
  }

  lemma FillStays(s: State, ttlMs: nat, step: Step, f: nat)
    requires Enabled(s, step) && f < s.nextFill
    ensures f < Next(s, ttlMs, step).nextFill
    ensures f in Next(s, ttlMs, step).fills ==>
              f in s.fills && (step == ReadRow(f) || Next(s, ttlMs, step).fills[f] == s.fills[f])
  {
  }

  lemma ReadHolds(s: State, ttlMs: nat, f: nat)
    requires Enabled(s, ReadRow(f)) && f in Next(s, ttlMs, ReadRow(f)).fills
    ensures var row := s.fills[f].row; row in s.db && Next(s, ttlMs, ReadRow(f)).fills[f] == Holding(row, s.db[row])
  {
  }

  // From its read on a fill holds what it read, until it is gone for good.
  lemma {:induction false} FillHoldsItsRead(s0: State, ttlMs: nat, steps: seq<Step>, row: nat, f: nat, i: nat)
    requires Ok(s0, ttlMs) && Run(s0, ttlMs, steps).Some? && ReadsRow(s0, ttlMs, steps, row, f, i)
    ensures var s := Run(s0, ttlMs, steps).value;
            && f < s.nextFill
            && (f in s.fills ==> s.fills[f].Holding? && s.fills[f].row == row
                                 && VersionAt(s0, ttlMs, steps, row, i) == Some(s.fills[f].version))
  {
    var front, last := steps[..|steps| - 1], steps[|steps| - 1];
    var before := Run(s0, ttlMs, front).value;
    ReachableIsOk(s0, ttlMs, front);
    assert front[..i] == steps[..i];
    if i == |front| {
      assert front[..i] == front;
      FillStays(before, ttlMs, last, f);
      if f in Run(s0, ttlMs, steps).value.fills { ReadHolds(before, ttlMs, f); }
    } else {
      FillHoldsItsRead(s0, ttlMs, front, row, f, i);
      FillStays(before, ttlMs, last, f);
    }
  }

  // What the last set left is what is cached, if anything is.
  lemma {:induction false} EntryIsTheLastSet(s0: State, ttlMs: nat, steps: seq<Step>, row: nat, k: nat)
    requires Run(s0, ttlMs, steps).Some? && LastSet(s0, ttlMs, steps, row, k)
    requires row in Run(s0, ttlMs, steps).value.cache
    ensures Run(s0, ttlMs, steps[..k]).Some? && Enabled(Run(s0, ttlMs, steps[..k]).value, steps[k])
    ensures var s := Run(s0, ttlMs, steps[..k]).value;
            Run(s0, ttlMs, steps).value.cache[row] ==
            Entry(s.fills[steps[k].fill].version, RowVersion(s, row).GetOr(0), s.now + ttlMs)
  {
    var n := |steps| - 1;
    var before := Run(s0, ttlMs, steps[..n]).value;
    EntryAfter(before, ttlMs, steps[n], row);
    if k < n {
      assert !SetsRow(s0, ttlMs, steps, row, n);
      assert steps[..n][..k] == steps[..k];
      LastSetOfFront(s0, ttlMs, steps, row, k);
      EntryIsTheLastSet(s0, ttlMs, steps[..n], row, k);
    }
  }

  lemma LastSetOfFront(s0: State, ttlMs: nat, steps: seq<Step>, row: nat, k: nat)
    requires LastSet(s0, ttlMs, steps, row, k) && k < |steps| - 1
    ensures LastSet(s0, ttlMs, steps[..|steps| - 1], row, k)
  {
    hide Next, Enabled, Run;
    var n := |steps| - 1;
    SetsRowInPrefix(s0, ttlMs, steps, n, row, k);
    forall m | k < m < n ensures !SetsRow(s0, ttlMs, steps[..n], row, m) {
      SetsRowInPrefix(s0, ttlMs, steps, n, row, m);
    }
  }

  lemma OvertakenEntryIsOlder(s0: State, ttlMs: nat, steps: seq<Step>, row: nat)
    requires Ok(s0, ttlMs) && Run(s0, ttlMs, steps).Some? && row in Run(s0, ttlMs, steps).value.cache
    requires OvertakenEntry(s0, ttlMs, steps, row)
    ensures var e := Run(s0, ttlMs, steps).value.cache[row]; e.version < e.writtenBySet
  {
    var f: nat, i: nat, j: nat, k: nat :| Overtaken(s0, ttlMs, steps, row, f, i, j, k);
    EntryIsTheLastSet(s0, ttlMs, steps, row, k);
    var front := steps[..k];
    assert front[..i] == steps[..i];
    FillHoldsItsRead(s0, ttlMs, front, row, f, i);
    WriteRaises(s0, ttlMs, front, row, i, j);
  }

  // Exactly when an entry is stale, in every run and whatever the modes were: its fill was
  // overtaken, or a newer change for the row is on its way or was skipped.
  lemma StaleExactlyWhen(rows: set<nat>, mode: Mode, ttlMs: nat, steps: seq<Step>, s: State, row: nat)
    requires Reached(rows, mode, ttlMs, steps, s) && row in s.cache
    ensures Stale(s, row) <==>
            OvertakenEntry(Begin(rows, mode), ttlMs, steps, row) || exists w :: NewerChange(s, row, w)
  {
    StaleSinceItsSet(rows, mode, ttlMs, steps, s, row);
    if s.cache[row].version < s.cache[row].writtenBySet {
      var f, i, j, k := EntryOvertaken(Begin(rows, mode), ttlMs, steps, row);
    } else if OvertakenEntry(Begin(rows, mode), ttlMs, steps, row) {
      OvertakenEntryIsOlder(Begin(rows, mode), ttlMs, steps, row);
    }
  }

  lemma DiscardsOnlyInTtlMode(s: State, ttlMs: nat, step: Step)
    requires Enabled(s, step) && s.mode == Cdc && step != ToggleMode
    ensures Next(s, ttlMs, step).discarded == s.discarded && Next(s, ttlMs, step).mode == Cdc
  {
  }

  lemma {:induction false} CdcDiscardsNothing(s0: State, ttlMs: nat, steps: seq<Step>)
    requires s0.mode == Cdc && s0.discarded == {} && ToggleMode !in steps && Run(s0, ttlMs, steps).Some?
    ensures Run(s0, ttlMs, steps).value.discarded == {} && Run(s0, ttlMs, steps).value.mode == Cdc
  {
    if steps != [] {
      var front, step := steps[..|steps| - 1], steps[|steps| - 1];
      assert step in steps;
      CdcDiscardsNothing(s0, ttlMs, front);
      DiscardsOnlyInTtlMode(Run(s0, ttlMs, front).value, ttlMs, step);
    }
  }

  // In a run that stays in cdc mode an entry is stale exactly when a newer change for its row is
  // still undrained, or the entry was set by a fill that a write overtook between its database
  // read and its cache set.
  lemma StaleInCdcMode(rows: set<nat>, ttlMs: nat, steps: seq<Step>, s: State, row: nat)
    requires Reached(rows, Cdc, ttlMs, steps, s) && ToggleMode !in steps && row in s.cache
    ensures Stale(s, row) <==>
            || (exists w :: s.cache[row].version < w && Undrained(s, Change(row, w)))
            || OvertakenEntry(Begin(rows, Cdc), ttlMs, steps, row)
  {
    StaleExactlyWhen(rows, Cdc, ttlMs, steps, s, row);
    CdcDiscardsNothing(Begin(rows, Cdc), ttlMs, steps);
    assert forall w :: NewerChange(s, row, w) <==> s.cache[row].version < w && Undrained(s, Change(row, w));
  }

  lemma RunNext(s0: State, ttlMs: nat, steps: seq<Step>, s: State, step: Step)
    requires Run(s0, ttlMs, steps) == Some(s) && Enabled(s, step)
    ensures Run(s0, ttlMs, steps + [step]) == Some(Next(s, ttlMs, step))
  {
    assert (steps + [step])[..|steps|] == steps;
  }

  // A read tick gets past its database read, ...
  lemma FillHoldsARow(mode: Mode, ttlMs: nat) returns (steps: seq<Step>, s: State)
    ensures Reached({1}, mode, ttlMs, steps, s) && steps == [ReadCache(1), ReadRow(0)]
    ensures s == Begin({1}, mode).(fills := map[0 := Holding(1, 1)], nextFill := 1)
  {
    var s0 := Begin({1}, mode);
    var s1 := Next(s0, ttlMs, ReadCache(1));
    RunNext(s0, ttlMs, [], s0, ReadCache(1));
    assert s1 == s0.(fills := map[0 := Missed(1)], nextFill := 1);
    s := Next(s1, ttlMs, ReadRow(0));
    RunNext(s0, ttlMs, [] + [ReadCache(1)], s1, ReadRow(0));
    steps := [] + [ReadCache(1)] + [ReadRow(0)];
  }

  // ... and then the row is written.
  lemma OvertakenFillBegins(mode: Mode, ttlMs: nat) returns (steps: seq<Step>, s: State)
    ensures Reached({1}, mode, ttlMs, steps, s) && steps == [ReadCache(1), ReadRow(0), Write(1)]
    ensures s == State(0, mode, map[1 := 2], map[], map[0 := Holding(1, 1)], 1,
                       multiset{Change(1, 2)}, [], [], None, {})
  {
    var before, held := FillHoldsARow(mode, ttlMs);
    s := Next(held, ttlMs, Write(1));
    RunNext(Begin({1}, mode), ttlMs, before, held, Write(1));
    steps := before + [Write(1)];
  }

  // The write's change is delivered, spliced, started and deleted.
  lemma DrainOne(s0: State, ttlMs: nat, before: seq<Step>, s: State, c: Change) returns (steps: seq<Step>, s': State)
    requires Run(s0, ttlMs, before) == Some(s)
    requires s.mode == Cdc && c in s.topic && s.buffer == [] && s.pending == [] && s.deleting == None
    ensures Run(s0, ttlMs, steps) == Some(s') && steps == before + [Deliver(c), Splice, DrainNext, Delete]
    ensures s' == s.(topic := s.topic - multiset{c}, cache := s.cache - {c.row})
  {
    var s1 := Next(s, ttlMs, Deliver(c));
    RunNext(s0, ttlMs, before, s, Deliver(c));
    var s2 := Next(s1, ttlMs, Splice);
    RunNext(s0, ttlMs, before + [Deliver(c)], s1, Splice);
    var s3 := Next(s2, ttlMs, DrainNext);
    RunNext(s0, ttlMs, before + [Deliver(c)] + [Splice], s2, DrainNext);
    s' := Next(s3, ttlMs, Delete);
    RunNext(s0, ttlMs, before + [Deliver(c)] + [Splice] + [DrainNext], s3, Delete);
    steps := before + [Deliver(c)] + [Splice] + [DrainNext] + [Delete];
  }

  // The second case does happen: with every change drained, an overtaken fill leaves a stale entry,
  // so "no stale reads in cdc mode" is not a property of the demo.
  lemma OvertakenFillStaysStale(ttlMs: nat) returns (steps: seq<Step>, s: State)
    ensures Reached({1}, Cdc, ttlMs, steps, s) && ToggleMode !in steps
    ensures Stale(s, 1) && CachedVersion(s, 1) == Some(1) && RowVersion(s, 1) == Some(2)
    ensures forall c :: !Undrained(s, c)
  {
    var started, s1 := OvertakenFillBegins(Cdc, ttlMs);
    var drained, s2 := DrainOne(Begin({1}, Cdc), ttlMs, started, s1, Change(1, 2));
    s := Next(s2, ttlMs, SetCached(0));
    RunNext(Begin({1}, Cdc), ttlMs, drained, s2, SetCached(0));
    steps := drained + [SetCached(0)];
  }

  /* Convergence. */

  // From s on, the row is not written, and once `settled` has passed no fill begun before s is left.
  ghost predicate Quiet(s: State, ttlMs: nat, steps: seq<Step>, row: nat, settled: nat) {
    && Run(s, ttlMs, steps).Some?
    && var after := Run(s, ttlMs, steps).value;
    && (settled < after.now ==> forall f :: f in after.fills && after.fills[f].row == row ==> s.nextFill <= f)
    && (steps != [] ==> steps[|steps| - 1] != Write(row) && Quiet(s, ttlMs, steps[..|steps| - 1], row, settled))
  }

  // What the quiet time keeps: an outdated entry expires by settled + ttl, an outdated fill is an old one.
  ghost predicate Converging(s: State, after: State, ttlMs: nat, row: nat, settled: nat)
    requires row in s.db
  {
    && row in after.db && after.db[row] == s.db[row] && s.nextFill <= after.nextFill
    && (row in after.cache && after.cache[row].version != s.db[row] ==> after.cache[row].expiresAt <= settled + ttlMs)
    && forall f | f in after.fills && after.fills[f].Holding? && after.fills[f].row == row
         :: after.fills[f].version == s.db[row] || f < s.nextFill
  }

  lemma {:induction false} QuietConverges(s: State, ttlMs: nat, steps: seq<Step>, row: nat, settled: nat)
    requires Ok(s, ttlMs) && row in s.db && s.now <= settled && Quiet(s, ttlMs, steps, row, settled)
    ensures Converging(s, Run(s, ttlMs, steps).value, ttlMs, row, settled)
  {
    if steps != [] {
      var front := steps[..|steps| - 1];
      QuietConverges(s, ttlMs, front, row, settled);
      ConvergingStep(s, Run(s, ttlMs, front).value, ttlMs, steps[|steps| - 1], row, settled);
    }
  }

  lemma ConvergingStep(s: State, mid: State, ttlMs: nat, step: Step, row: nat, settled: nat)
    requires row in s.db && Converging(s, mid, ttlMs, row, settled) && Enabled(mid, step) && step != Write(row)
    requires settled < mid.now ==> forall f :: f in mid.fills && mid.fills[f].row == row ==> s.nextFill <= f
    ensures Converging(s, Next(mid, ttlMs, step), ttlMs, row, settled)
  {
  }

  // In either mode: once the row has been left alone and the fills of before have finished, then
  // a time to live later the cache holds the database's version of the row or nothing.
  lemma CacheConverges(rows: set<nat>, mode: Mode, ttlMs: nat, before: seq<Step>, s: State,
                       steps: seq<Step>, after: State, row: nat, settled: nat)
    requires Reached(rows, mode, ttlMs, before, s) && row in s.db && s.now <= settled
    requires Quiet(s, ttlMs, steps, row, settled) && Run(s, ttlMs, steps) == Some(after)
    requires settled + ttlMs < after.now
    ensures CachedVersion(after, row).Some? ==> CachedVersion(after, row) == RowVersion(after, row)
    ensures RowVersion(after, row) == RowVersion(s, row)
  {
    ReachableIsOk(Begin(rows, mode), ttlMs, before);
    QuietConverges(s, ttlMs, steps, row, settled);
  }
}
