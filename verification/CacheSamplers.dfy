/** The Redis demo's sampler, with the rest of the program going on while it waits:
    redis/runner/src/sampler.ts. */
module CacheSamplers {
  import opened Options
  import opened Sequences
  import opened CacheModels
  import opened CacheDemos

  // What the sampler saw of a row, first in the cache and then in the database.
  datatype Sample = Sample(rowId: nat, cached: Option<nat>, tidb: Option<nat>)

  predicate Sampled(r: Sample) { r.cached.Some? && r.tidb.Some? }
  predicate StaleRead(r: Sample) { Sampled(r) && r.cached.value < r.tidb.value }
  predicate Mismatch(r: Sample) { Sampled(r) && r.cached.value != r.tidb.value }

  // The row's two reads were answered after so many steps of the demo.
  datatype Look = Look(row: nat, get: nat, read: nat)

  function StateAt(s0: State, ttlMs: nat, steps: seq<Step>, n: nat): Option<State> {
    if n <= |steps| then Run(s0, ttlMs, steps[..n]) else None
  }

  // What the stores of the run answer.
  function SampleAt(s0: State, ttlMs: nat, steps: seq<Step>, look: Look): Sample {
    var atGet, atRead := StateAt(s0, ttlMs, steps, look.get), StateAt(s0, ttlMs, steps, look.read);
    Sample(look.row,
           if atGet.Some? then CachedVersion(atGet.value, look.row) else None,
           if atRead.Some? then RowVersion(atRead.value, look.row) else None)
  }

  function Samples(s0: State, ttlMs: nat, steps: seq<Step>, looks: seq<Look>): seq<Sample> {
    if looks == [] then []
    else Samples(s0, ttlMs, steps, looks[..|looks| - 1]) + [SampleAt(s0, ttlMs, steps, looks[|looks| - 1])]
  }

  function RowIds(samples: seq<Sample>): seq<nat> {
    if samples == [] then [] else RowIds(samples[..|samples| - 1]) + [samples[|samples| - 1].rowId]
  }

  // The sampler looked at these rows in turn, between these two points of the run.
  ghost predicate LooksAt(looks: seq<Look>, ids: seq<nat>, from: nat, to: nat) {
    && |looks| == |ids|
    && forall i :: 0 <= i < |looks| ==> looks[i].row == ids[i] && from <= looks[i].get <= looks[i].read <= to
  }

  lemma {:induction false} SamplesStay(s0: State, ttlMs: nat, steps: seq<Step>, longer: seq<Step>, looks: seq<Look>)
    requires steps <= longer && forall i :: 0 <= i < |looks| ==> looks[i].get <= looks[i].read <= |steps|
    ensures Samples(s0, ttlMs, longer, looks) == Samples(s0, ttlMs, steps, looks)
  {
    if looks != [] {
      var last := looks[|looks| - 1];
      SamplesStay(s0, ttlMs, steps, longer, looks[..|looks| - 1]);
      assert longer[..last.get] == steps[..last.get] && longer[..last.read] == steps[..last.read];
    }
  }

  lemma OneLookMore(s0: State, ttlMs: nat, steps: seq<Step>, longer: seq<Step>, looks: seq<Look>, look: Look)
    requires steps <= longer && forall i :: 0 <= i < |looks| ==> looks[i].get <= looks[i].read <= |steps|
    ensures Samples(s0, ttlMs, longer, looks + [look]) ==
            Samples(s0, ttlMs, steps, looks) + [SampleAt(s0, ttlMs, longer, look)]
  {
    SamplesStay(s0, ttlMs, steps, longer, looks);
    assert (looks + [look])[..|looks|] == looks;
  }

  lemma LooksGoOn(looks: seq<Look>, ids: seq<nat>, from: nat, to: nat, look: Look, later: nat)
    requires |looks| < |ids| && LooksAt(looks, ids[..|looks|], from, to) && look.row == ids[|looks|]
    requires from <= to <= look.get <= look.read <= later
    ensures LooksAt(looks + [look], ids[..|looks| + 1], from, later)
  {
  }

  lemma OneMismatchMore(samples: seq<Sample>, r: Sample)
    ensures RowIds(Filter(samples + [r], Mismatch)) ==
            RowIds(Filter(samples, Mismatch)) + if Mismatch(r) then [r.rowId] else []
  {
    var before := Filter(samples, Mismatch);
    FilterOneMore(samples, r, Mismatch);
    assert (before + [r])[..|before|] == before;
  }

  // What the rest of the program does while the sampler waits.
  method Await(demo: CacheDemo, meanwhile: seq<Step>)
    requires demo.Valid()
    modifies demo
    ensures demo.Valid() && old(demo.steps) <= demo.steps
  {
    for i := 0 to |meanwhile|
      invariant demo.Valid() && old(demo.steps) <= demo.steps
    {
      demo.Do(meanwhile[i]);
    }
  }

  // The GET and the SELECT of one row, each answered after other steps may have been taken.
  method SampleRow(demo: CacheDemo, id: nat, meanwhile: (seq<Step>, seq<Step>)) returns (r: Sample, ghost look: Look)
    requires demo.Valid()
    modifies demo
    ensures demo.Valid() && old(demo.steps) <= demo.steps
    ensures look.row == id && |old(demo.steps)| <= look.get <= look.read <= |demo.steps|
    ensures r == SampleAt(Begin(demo.rows, Ttl), demo.ttlMs, demo.steps, look)
  {
    Await(demo, meanwhile.0);
    ghost var atGet := demo.steps;
    var cached := demo.GetCachedPayload(id);
    Await(demo, meanwhile.1);
    r := Sample(id, cached, RowVersion(demo.View(), id));
    look := Look(id, |atGet|, |demo.steps|);
    assert demo.steps[..|atGet|] == atGet && demo.steps[..|demo.steps|] == demo.steps;
  }

  // Counts exactly the stale samples, whatever goes on meanwhile.
  method SampleStaleness(demo: CacheDemo, ids: seq<nat>, meanwhile: seq<(seq<Step>, seq<Step>)>)
    returns (staleCount: nat, sampleCount: nat, ghost looks: seq<Look>)
    requires demo.Valid() && |meanwhile| == |ids|
    modifies demo
    ensures demo.Valid() && old(demo.steps) <= demo.steps
    ensures LooksAt(looks, ids, |old(demo.steps)|, |demo.steps|) && sampleCount == |ids|
    ensures staleCount == |Filter(Samples(Begin(demo.rows, Ttl), demo.ttlMs, demo.steps, looks), StaleRead)|
  {
    staleCount, sampleCount, looks := 0, |ids|, [];
    ghost var s0, samples := Begin(demo.rows, Ttl), [];
    for i := 0 to |ids|
      invariant demo.Valid() && old(demo.steps) <= demo.steps
      invariant LooksAt(looks, ids[..i], |old(demo.steps)|, |demo.steps|)
      invariant samples == Samples(s0, demo.ttlMs, demo.steps, looks)
      invariant staleCount == |Filter(samples, StaleRead)|
    {
      ghost var before := demo.steps;
      var r, look := SampleRow(demo, ids[i], meanwhile[i]);
      LooksGoOn(looks, ids, |old(demo.steps)|, |before|, look, |demo.steps|);
      OneLookMore(s0, demo.ttlMs, before, demo.steps, looks, look);
      FilterOneMore(samples, r, StaleRead);
      looks, samples := looks + [look], samples + [r];
      if StaleRead(r) {
        staleCount := staleCount + 1;
      }
    }
    assert ids[..|ids|] == ids;
  }

  // Lists exactly the rows whose two versions differed, and counts the rows that had both.
  method SampleVersionsConverge(demo: CacheDemo, ids: seq<nat>, meanwhile: seq<(seq<Step>, seq<Step>)>)
    returns (mismatched: seq<nat>, sampledRowCount: nat, ghost looks: seq<Look>)
    requires demo.Valid() && |meanwhile| == |ids|
    modifies demo
    ensures demo.Valid() && old(demo.steps) <= demo.steps
    ensures LooksAt(looks, ids, |old(demo.steps)|, |demo.steps|)
    ensures mismatched == RowIds(Filter(Samples(Begin(demo.rows, Ttl), demo.ttlMs, demo.steps, looks), Mismatch))
    ensures sampledRowCount == |Filter(Samples(Begin(demo.rows, Ttl), demo.ttlMs, demo.steps, looks), Sampled)|
  {
    mismatched, sampledRowCount, looks := [], 0, [];
    ghost var s0, samples := Begin(demo.rows, Ttl), [];
    for i := 0 to |ids|
      invariant demo.Valid() && old(demo.steps) <= demo.steps
      invariant LooksAt(looks, ids[..i], |old(demo.steps)|, |demo.steps|)
      invariant samples == Samples(s0, demo.ttlMs, demo.steps, looks)
      invariant mismatched == RowIds(Filter(samples, Mismatch))
      invariant sampledRowCount == |Filter(samples, Sampled)|
    {
      ghost var before := demo.steps;
      var r, look := SampleRow(demo, ids[i], meanwhile[i]);
      LooksGoOn(looks, ids, |old(demo.steps)|, |before|, look, |demo.steps|);
      OneLookMore(s0, demo.ttlMs, before, demo.steps, looks, look);
      FilterOneMore(samples, r, Sampled);
      OneMismatchMore(samples, r);
      looks, samples := looks + [look], samples + [r];
      if Sampled(r) {
        sampledRowCount := sampledRowCount + 1;
        if r.cached.value != r.tidb.value {
          mismatched := mismatched + [r.rowId];
        }
      }
    }
    assert ids[..|ids|] == ids;
  }
}
