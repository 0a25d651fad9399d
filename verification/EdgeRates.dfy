/** The rate shown on an edge: `edgeRate` of ui/src/state/selectors.ts, over the capped sample window. */
module EdgeRates {
  import opened Options
  import opened Contract
  import opened DemoStates
  import opened Sequences

  const DENSE_SAMPLE_MS := 500.0

  // The sum of the counts of samples later than a time.
  function CountAfter(samples: seq<FlowSample>, t: real): nat {
    if samples == [] then 0
    else
      var last := samples[|samples| - 1];
      CountAfter(samples[..|samples| - 1], t) + (if t < last.t then last.count else 0)
  }

  // By the last sample and the one before it, with the count of the last second given.
  function RateBy(last: FlowSample, before: Option<FlowSample>, count: nat, now: real, staleMs: real): real {
    if staleMs < now - last.t then 0.0
    else
      var intervalMs := if before == None then 1000.0 else last.t - before.value.t;
      if DENSE_SAMPLE_MS <= intervalMs then last.count as real / (intervalMs / 1000.0) else count as real
  }

  function Rate(samples: seq<FlowSample>, now: real, staleMs: real): real {
    if samples == [] then 0.0
    else
      var last := samples[|samples| - 1];
      var before := if |samples| == 1 then None else Some(samples[|samples| - 2]);
      RateBy(last, before, CountAfter(samples, last.t - 1000.0), now, staleMs)
  }

  function EdgeRate(s: DemoState, edge: string, staleMs: real := 2500.0): real {
    Rate(Lookup(s.flows, edge).GetOr([]), s.t, staleMs)
  }

  function SumOfCounts(samples: seq<FlowSample>): nat {
    if samples == [] then 0 else SumOfCounts(samples[..|samples| - 1]) + samples[|samples| - 1].count
  }

  ghost function LaterThan(t: real): FlowSample -> bool { (s: FlowSample) => t < s.t }

  lemma {:induction false} CountAfterIsASum(samples: seq<FlowSample>, t: real)
    ensures CountAfter(samples, t) == SumOfCounts(Filter(samples, LaterThan(t)))
  {
    if samples != [] {
      var front, last := samples[..|samples| - 1], samples[|samples| - 1];
      CountAfterIsASum(front, t);
      var kept := Filter(front, LaterThan(t));
      assert (kept + [last])[..|kept|] == kept;
    }
  }

  // What the rate of an edge is, by the flow events there have been: nothing without a fresh sample;
  // a lone sample's count; the last sample's count per second of the time it stands for; or, for
  // samples closer than half a second, what the kept samples of the last second count.
  lemma EdgeRateIs(m: Manifest, es: seq<Event>, edge: string, staleMs: real)
    ensures var (rate, all, now) := (EdgeRate(Fold(m, es), edge, staleMs), FlowSamples(es, edge), Fold(m, es).t);
            && (all == [] ==> rate == 0.0)
            && (all != [] ==>
                  var last := all[|all| - 1];
                  var recent := now - last.t <= staleMs;
                  && (!recent ==> rate == 0.0)
                  && (recent && |all| == 1 ==> rate == last.count as real)
                  && (recent && 2 <= |all| ==>
                        var intervalMs := last.t - all[|all| - 2].t;
                        && (500.0 <= intervalMs ==> rate * intervalMs == 1000.0 * last.count as real)
                        && (intervalMs < 500.0 ==>
                              rate == SumOfCounts(Filter(LastN(all, 30), LaterThan(last.t - 1000.0))) as real)))
  {
    hide RateBy, FlowSamples, Fold, Filter, SumOfCounts, CountAfter, LaterThan;
    FoldKeepsTheLastSamples(m, es, edge);
    var all := FlowSamples(es, edge);
    if all != [] {
      var window := LastN(all, FLOW_LIMIT);
      var last := all[|all| - 1];
      var before := if |all| == 1 then None else Some(all[|all| - 2]);
      WindowEnds(all);
      CountAfterIsASum(window, last.t - 1000.0);
      RateByIs(last, before, CountAfter(window, last.t - 1000.0), Fold(m, es).t, staleMs);
    }
  }

  lemma RateByIs(last: FlowSample, before: Option<FlowSample>, count: nat, now: real, staleMs: real)
    ensures var rate := RateBy(last, before, count, now, staleMs);
            && (staleMs < now - last.t ==> rate == 0.0)
            && (now - last.t <= staleMs ==>
                  && (before == None ==> rate == last.count as real)
                  && (before.Some? ==>
                        var intervalMs := last.t - before.value.t;
                        && (500.0 <= intervalMs ==> rate * intervalMs == 1000.0 * last.count as real)
                        && (intervalMs < 500.0 ==> rate == count as real)))
  {
    LoneSample(last.count as real);
    if before.Some? {
      PerSecond(last.count as real, last.t - before.value.t);
    }
  }

  lemma PerSecond(count: real, intervalMs: real)
    ensures intervalMs != 0.0 ==> count / (intervalMs / 1000.0) * intervalMs == 1000.0 * count
  {
    if intervalMs != 0.0 {
      var seconds := intervalMs / 1000.0;
      var rate := count / seconds;
      assert rate * seconds == count;
      assert rate * intervalMs == rate * (1000.0 * seconds) == 1000.0 * (rate * seconds);
    }
  }

  lemma LoneSample(count: real)
    ensures count / (1000.0 / 1000.0) == count
  {
    assert 1000.0 / 1000.0 == 1.0;
  }

  // Unless it is told otherwise, the view takes samples for stale after two and a half seconds.
  lemma StaleAfterTwoAndAHalfSeconds(s: DemoState, edge: string)
    ensures EdgeRate(s, edge) == EdgeRate(s, edge, 2500.0)
  {
  }

  // The samples the window of an edge has dropped.
  function Dropped(samples: seq<FlowSample>): seq<FlowSample> {
    samples[..|samples| - |LastN(samples, FLOW_LIMIT)|]
  }

  // The last samples are so close that the rate is a count over the last second.
  predicate Dense(samples: seq<FlowSample>) {
    2 <= |samples| && samples[|samples| - 1].t - samples[|samples| - 2].t < DENSE_SAMPLE_MS
  }

  lemma {:induction false} CountAfterConcat(a: seq<FlowSample>, b: seq<FlowSample>, t: real)
    ensures CountAfter(a + b, t) == CountAfter(a, t) + CountAfter(b, t)
  {
    if b == [] {
      assert a + b == a;
    } else {
      CountAfterConcat(a, b[..|b| - 1], t);
      assert (a + b)[..|a + b| - 1] == a + b[..|b| - 1];
    }
  }

  lemma {:induction false} NoCountAfter(samples: seq<FlowSample>, t: real)
    ensures CountAfter(samples, t) == 0 <==>
            forall i :: 0 <= i < |samples| && t < samples[i].t ==> samples[i].count == 0
  {
    if samples != [] {
      var front := samples[..|samples| - 1];
      NoCountAfter(front, t);
      if forall i :: 0 <= i < |samples| && t < samples[i].t ==> samples[i].count == 0 {
        assert forall i :: 0 <= i < |front| ==> front[i] == samples[i];
      }
    }
  }

  // The dropped samples of the last second are all empty.
  ghost predicate NothingMissed(all: seq<FlowSample>)
    requires all != []
  {
    forall i :: 0 <= i < |Dropped(all)| && all[|all| - 1].t - 1000.0 < Dropped(all)[i].t ==> Dropped(all)[i].count == 0
  }

  lemma WindowEnds(all: seq<FlowSample>)
    requires all != []
    ensures var window := LastN(all, FLOW_LIMIT);
            && window != [] && window[|window| - 1] == all[|all| - 1] && (|window| == 1 <==> |all| == 1)
            && (2 <= |all| ==> window[|window| - 2] == all[|all| - 2])
  {
  }

  lemma CountOfWindow(all: seq<FlowSample>)
    requires all != []
    ensures var since, window := all[|all| - 1].t - 1000.0, LastN(all, FLOW_LIMIT);
            && CountAfter(window, since) <= CountAfter(all, since)
            && (CountAfter(window, since) == CountAfter(all, since) <==> NothingMissed(all))
  {
    var since := all[|all| - 1].t - 1000.0;
    assert all == Dropped(all) + LastN(all, FLOW_LIMIT);
    CountAfterConcat(Dropped(all), LastN(all, FLOW_LIMIT), since);
    NoCountAfter(Dropped(all), since);
  }

  lemma RateOfWindow(all: seq<FlowSample>, now: real, staleMs: real)
    requires all != []
    ensures var windowed, full := Rate(LastN(all, FLOW_LIMIT), now, staleMs), Rate(all, now, staleMs);
            && windowed <= full
            && (windowed == full <==> !Dense(all) || staleMs < now - all[|all| - 1].t || NothingMissed(all))
  {
    WindowEnds(all);
    CountOfWindow(all);
  }

  // The windowed rate of a folded view against the rate of all the samples there have been: never
  // more, and less exactly when the rate counts the last second and that second holds a non-empty
  // sample the window has dropped.
  lemma WindowedRate(m: Manifest, es: seq<Event>, edge: string, staleMs: real)
    ensures var all, s := FlowSamples(es, edge), Fold(m, es);
            && EdgeRate(s, edge, staleMs) <= Rate(all, s.t, staleMs)
            && (EdgeRate(s, edge, staleMs) == Rate(all, s.t, staleMs) <==>
                  all == [] || !Dense(all) || staleMs < s.t - all[|all| - 1].t || NothingMissed(all))
  {
    FoldKeepsTheLastSamples(m, es, edge);
    var all := FlowSamples(es, edge);
    if all != [] {
      RateOfWindow(all, Fold(m, es).t, staleMs);
    }
  }

  ghost predicate InTimeOrder(samples: seq<FlowSample>) {
    forall i, j :: 0 <= i < j < |samples| ==> samples[i].t <= samples[j].t
  }

  // In particular nothing is lost while at most 30 time-ordered samples fall in the last second.
  lemma WindowIsEnough(m: Manifest, es: seq<Event>, edge: string, staleMs: real)
    requires var all := FlowSamples(es, edge);
             && InTimeOrder(all)
             && (30 < |all| ==> all[|all| - 30 - 1].t <= all[|all| - 1].t - 1000.0)
    ensures EdgeRate(Fold(m, es), edge, staleMs) == Rate(FlowSamples(es, edge), Fold(m, es).t, staleMs)
  {
    var all := FlowSamples(es, edge);
    WindowedRate(m, es, edge, staleMs);
    if FLOW_LIMIT < |all| {
      var dropped := Dropped(all);
      forall i | 0 <= i < |dropped| ensures dropped[i].t <= all[|all| - 1].t - 1000.0 {
        if i < |dropped| - 1 {
          assert all[i].t <= all[|dropped| - 1].t;
        }
      }
    }
  }
}
