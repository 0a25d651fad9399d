/** Recording and checking a trace: relay/src/trace-builder.ts and relay/src/validate.ts, and
    how a replay of the recording compares with having watched the run. */
module Traces {
  import opened Options
  import opened Decimals
  import opened Contract
  import opened Sequences
  import opened Sorting
  import opened DemoStates
  import opened ReplayFolds
  import opened RelayLines

  datatype Trace = Trace(manifest: Manifest, durationMs: real, events: seq<Event>)
  datatype Report = Report(errors: seq<string>, warnings: seq<string>, eventCount: nat)

  function MaxTime(es: seq<Event>): real {
    if es == [] then 0.0 else Max(MaxTime(es[..|es| - 1]), es[|es| - 1].t)
  }

  function BuildTrace(m: Manifest, es: seq<Event>): Trace {
    Trace(m, MaxTime(es), StableSort(es, TimeOf))
  }

  predicate IsSortedByTime(es: seq<Event>) {
    forall i :: 0 <= i < |es| ==> i == 0 || es[i - 1].t <= es[i].t
  }

  function Labelled(index: nat, messages: seq<string>): seq<string> {
    if messages == [] then []
    else ["event " + Decimal(index) + ": " + messages[0]] + Labelled(index, messages[1..])
  }

  function ReferenceErrors(m: Manifest, es: seq<Event>): seq<string> {
    if es == [] then []
    else ReferenceErrors(m, es[..|es| - 1]) + Labelled(|es| - 1, EventReferenceErrors(m, es[|es| - 1]))
  }

  predicate HasPhase(es: seq<Event>) {
    exists i :: 0 <= i < |es| && IsPhase(es[i])
  }

  function ValidateTrace(current: Manifest, trace: Trace): Report {
    Report(
      (if trace.manifest.id == current.id then []
       else ["trace belongs to " + trace.manifest.id + ", not " + current.id])
      + ReferenceErrors(trace.manifest, trace.events)
      + (if IsSortedByTime(trace.events) then [] else ["events are not sorted by t"])
      + (if HasPhase(trace.events) then [] else ["trace has no phase events"]),
      if trace.manifest == current then []
      else ["manifest changed since this trace was recorded; re-record before publishing"],
      |trace.events|)
  }

  lemma {:induction false} MaxTimeBounds(es: seq<Event>, e: Event)
    ensures 0.0 <= MaxTime(es)
    ensures e in es ==> e.t <= MaxTime(es)
  {
    if es != [] {
      MaxTimeBounds(es[..|es| - 1], e);
      assert es == es[..|es| - 1] + [es[|es| - 1]];
    }
  }

  lemma {:induction false} MaxTimeIsAttained(es: seq<Event>) returns (e: Event)
    requires MaxTime(es) != 0.0
    ensures e in es && e.t == MaxTime(es)
  {
    e := es[|es| - 1];
    if e.t != MaxTime(es) {
      e := MaxTimeIsAttained(es[..|es| - 1]);
    }
  }

  lemma SameEventsSameMaxTime(a: seq<Event>, b: seq<Event>)
    requires forall e :: e in a <==> e in b
    ensures MaxTime(a) == MaxTime(b)
  {
    if MaxTime(a) != 0.0 {
      var e := MaxTimeIsAttained(a);
      MaxTimeBounds(b, e);
    }
    if MaxTime(b) != 0.0 {
      var e := MaxTimeIsAttained(b);
      MaxTimeBounds(a, e);
    }
    if a != [] {
      MaxTimeBounds(a, a[0]);
      MaxTimeBounds(b, a[0]);
    } else if b != [] {
      assert b[0] in a;
    }
  }

  lemma {:induction false} FoldTimeIsMaxTime(m: Manifest, es: seq<Event>)
    ensures Fold(m, es).t == MaxTime(es)
  {
    if es != [] {
      FoldTimeIsMaxTime(m, es[..|es| - 1]);
      ReduceTime(Fold(m, es[..|es| - 1]), es[|es| - 1]);
    }
  }

  lemma SortKeepsEvents(es: seq<Event>)
    ensures forall e :: e in StableSort(es, TimeOf) <==> e in es
  {
    StableSortSorts(es, TimeOf);
    var r := StableSort(es, TimeOf);
    forall e ensures e in r <==> e in es {
      assert e in r <==> e in multiset(r);
      assert e in es <==> e in multiset(es);
    }
  }

  // The adjacent comparison of the validator decides global order.
  lemma {:induction false} AdjacentOrderIsOrder(es: seq<Event>)
    ensures IsSortedByTime(es) <==> Sorted(es, TimeOf)
  {
    if es != [] {
      var front := es[..|es| - 1];
      AdjacentOrderIsOrder(front);
      if Sorted(es, TimeOf) {
        forall i | 0 <= i < |es| ensures i == 0 || es[i - 1].t <= es[i].t {
          assert i > 0 ==> TimeOf(es[i - 1]) <= TimeOf(es[i]);
        }
      } else if IsSortedByTime(es) {
        assert forall i :: 0 <= i < |front| ==> front[i] == es[i];
        assert Sorted(front, TimeOf);
        forall i, j | 0 <= i < j < |es| ensures TimeOf(es[i]) <= TimeOf(es[j]) {
          if j < |front| {
            assert TimeOf(front[i]) <= TimeOf(front[j]);
          } else if i < j - 1 {
            assert TimeOf(front[i]) <= TimeOf(front[j - 1]);
          }
        }
      }
    }
  }

  lemma SortedTraceEndsAtItsDuration(es: seq<Event>)
    ensures |StableSort(es, TimeOf)| == |es|
    ensures MaxTime(es) == if es == [] then 0.0 else StableSort(es, TimeOf)[|es| - 1].t
  {
    var sorted := StableSort(es, TimeOf);
    StableSortSorts(es, TimeOf);
    SortKeepsEvents(es);
    SortKeepsLength(es);
    SameEventsSameMaxTime(es, sorted);
    if es != [] {
      var last := sorted[|sorted| - 1];
      MaxTimeBounds(sorted, last);
      if MaxTime(sorted) != 0.0 {
        var e := MaxTimeIsAttained(sorted);
        SortedLast(sorted, TimeOf, e);
      }
    }
  }

  lemma SortKeepsLength(es: seq<Event>)
    ensures |StableSort(es, TimeOf)| == |es|
  {
    StableSortSorts(es, TimeOf);
    assert |multiset(StableSort(es, TimeOf))| == |multiset(es)|;
  }

  lemma RecordingHasNoReferenceErrors(m: Manifest, inputs: seq<Input>)
    ensures ReferenceErrors(m, StableSort(History(m, inputs), TimeOf)) == []
  {
    var es := History(m, inputs);
    var sorted := StableSort(es, TimeOf);
    SortKeepsEvents(es);
    forall i | 0 <= i < |sorted| ensures Known(m, sorted[i]) {
      assert sorted[i] in es;
      HistoryHasNoReferenceErrors(m, inputs, sorted[i]);
    }
    NoReferenceErrorsExactlyIfKnown(m, sorted);
  }

  lemma SortKeepsPhases(es: seq<Event>)
    ensures HasPhase(StableSort(es, TimeOf)) <==> exists e :: e in es && IsPhase(e)
  {
    var sorted := StableSort(es, TimeOf);
    SortKeepsEvents(es);
    if HasPhase(sorted) {
      var i :| 0 <= i < |sorted| && IsPhase(sorted[i]);
      assert sorted[i] in es;
    }
    if e :| e in es && IsPhase(e) {
      assert e in sorted;
    }
  }

  // A recording of any run is valid against its own manifest but for, possibly, lacking a phase,
  // and lasts exactly until its last event.
  lemma RecordingValidates(m: Manifest, inputs: seq<Input>)
    ensures var es := History(m, inputs);
            var trace := BuildTrace(m, es);
            var report := ValidateTrace(m, trace);
            && report.warnings == []
            && report.eventCount == |es|
            && report.errors == (if exists e :: e in es && IsPhase(e) then [] else ["trace has no phase events"])
            && trace.durationMs == if es == [] then 0.0 else trace.events[|trace.events| - 1].t
  {
    hide History, StableSort, ReferenceErrors, MaxTime, HasPhase, IsSortedByTime;
    var es := History(m, inputs);
    StableSortSorts(es, TimeOf);
    AdjacentOrderIsOrder(StableSort(es, TimeOf));
    SortKeepsLength(es);
    RecordingHasNoReferenceErrors(m, inputs);
    SortKeepsPhases(es);
    SortedTraceEndsAtItsDuration(es);
  }

  // The messages are about the events that are not known, each under the index of its event, in order.
  lemma ReferenceErrorsNameTheUnknown(m: Manifest, front: seq<Event>, e: Event)
    ensures ReferenceErrors(m, front + [e]) ==
            ReferenceErrors(m, front)
            + if Known(m, e) then [] else ["event " + Decimal(|front|) + ": unknown " + Subject(e)]
  {
    hide Known, Subject;
    var es := front + [e];
    assert es[..|es| - 1] == front;
    ReferenceErrorsOfTheUnknown(m, e);
    if !Known(m, e) {
      LabelledOne(|front|, "unknown " + Subject(e));
      Prefixed("event " + Decimal(|front|), Subject(e));
    }
  }

  lemma Prefixed(prefix: string, subject: string)
    ensures prefix + ": " + ("unknown " + subject) == prefix + ": unknown " + subject
  {
  }

  lemma {:induction false} NoReferenceErrorsExactlyIfKnown(m: Manifest, es: seq<Event>)
    ensures ReferenceErrors(m, es) == [] <==> forall i :: 0 <= i < |es| ==> Known(m, es[i])
  {
    hide Known, Subject, Decimal;
    if es != [] {
      var front, last := es[..|es| - 1], es[|es| - 1];
      NoReferenceErrorsExactlyIfKnown(m, front);
      assert es == front + [last];
      ReferenceErrorsNameTheUnknown(m, front, last);
      assert forall i :: 0 <= i < |front| ==> front[i] == es[i];
    }
  }

  lemma LabelledOne(index: nat, message: string)
    ensures Labelled(index, [message]) == ["event " + Decimal(index) + ": " + message]
  {
    assert [message][1..] == [];
  }

  lemma AllEmpty<T>(a: seq<T>, b: seq<T>, c: seq<T>, d: seq<T>)
    ensures a + b + c + d == [] <==> a == [] && b == [] && c == [] && d == []
  {
    assert |a + b + c + d| == |a| + |b| + |c| + |d|;
  }

  // When any trace, not only a fresh recording, passes the validator: its manifest has the current
  // id and knows all its events, these are in time order and there is a phase. It is unremarkable
  // exactly if its manifest is the current one.
  lemma ValidExactlyWhen(current: Manifest, trace: Trace)
    ensures var (report, m, es) := (ValidateTrace(current, trace), trace.manifest, trace.events);
            && (report.errors == [] <==>
                  && m.id == current.id
                  && (forall i :: 0 <= i < |es| ==> Known(m, es[i]))
                  && Sorted(es, TimeOf)
                  && (exists e :: e in es && e.Phase?))
            && (report.warnings == [] <==> m == current)
            && report.eventCount == |es|
  {
    hide ValidateTrace, ReferenceErrors, IsSortedByTime, HasPhase, Sorted, Known;
    NoReferenceErrorsExactlyIfKnown(trace.manifest, trace.events);
    AdjacentOrderIsOrder(trace.events);
    PhaseIsThere(trace.events);
    NoErrorsExactlyWhen(current, trace);
  }

  lemma NoErrorsExactlyWhen(current: Manifest, trace: Trace)
    ensures var report := ValidateTrace(current, trace);
            && (report.errors == [] <==>
                  && trace.manifest.id == current.id && ReferenceErrors(trace.manifest, trace.events) == []
                  && IsSortedByTime(trace.events) && HasPhase(trace.events))
            && (report.warnings == [] <==> trace.manifest == current)
            && report.eventCount == |trace.events|
  {
    hide ReferenceErrors, IsSortedByTime, HasPhase;
    var es := trace.events;
    var a := if trace.manifest.id == current.id then []
             else ["trace belongs to " + trace.manifest.id + ", not " + current.id];
    var c := if IsSortedByTime(es) then [] else ["events are not sorted by t"];
    var d := if HasPhase(es) then [] else ["trace has no phase events"];
    assert ValidateTrace(current, trace).errors == a + ReferenceErrors(trace.manifest, es) + c + d;
    AllEmpty(a, ReferenceErrors(trace.manifest, es), c, d);
  }

  lemma PhaseIsThere(es: seq<Event>)
    ensures HasPhase(es) <==> exists e :: e in es && e.Phase?
  {
    if e :| e in es && e.Phase? {
      var i :| 0 <= i < |es| && es[i] == e;
      assert IsPhase(es[i]);
    }
    if HasPhase(es) {
      var i :| 0 <= i < |es| && IsPhase(es[i]);
      assert es[i] in es;
    }
  }

  // All of the view except its clock, logs and controls.
  function SignalView(s: DemoState): DemoState {
    s.(t := 0.0, logs := [], controls := [])
  }

  lemma ReduceSignal(a: DemoState, b: DemoState, e: Event)
    requires SignalView(a) == SignalView(b)
    ensures SignalView(ReduceEvent(a, e)) == SignalView(if IsSignal(e) then ReduceEvent(b, e) else b)
  {
  }

  lemma {:induction false} SignalsDecideTheView(m: Manifest, es: seq<Event>)
    ensures SignalView(Fold(m, es)) == SignalView(Fold(m, Filter(es, IsSignal)))
  {
    if es != [] {
      var front, e := es[..|es| - 1], es[|es| - 1];
      SignalsDecideTheView(m, front);
      ReduceSignal(Fold(m, front), Fold(m, Filter(front, IsSignal)), e);
      ReduceOne(InitialState(m), Filter(front, IsSignal), e);
    }
  }

  // Replaying the recording to its end shows what the live view showed, but for the order of
  // log entries, provided neither clock went back.
  lemma ReplayAgreesWithLive(m: Manifest, inputs: seq<Input>)
    requires RelayClockNeverGoesBack(inputs) && Sorted(RunnerEvents(m, inputs), TimeOf)
    ensures var live := Fold(m, History(m, inputs));
            var trace := BuildTrace(m, History(m, inputs));
            var replay := FromScratch(m, trace.events, trace.durationMs);
            replay.(logs := live.logs) == live
  {
    var es := History(m, inputs);
    var sorted := StableSort(es, TimeOf);
    SignalsAreTheRunners(m, inputs);
    FilterSorted(RunnerEvents(m, inputs), TimeOf, IsSignal);
    SelectionSurvivesExactlyIfSorted(es, TimeOf, IsSignal);
    SignalsDecideTheView(m, es);
    SignalsDecideTheView(m, sorted);
    ControlsAreInTimeOrder(m, inputs);
    SelectionSurvivesExactlyIfSorted(es, TimeOf, IsControl);
    FoldKeepsEveryControl(m, es);
    FoldKeepsEveryControl(m, sorted);
    WholeTraceAtItsEnd(m, es);
  }

  // At its duration a trace has been replayed whole, and the clock stands where the live clock stood.
  lemma WholeTraceAtItsEnd(m: Manifest, es: seq<Event>)
    ensures FromScratch(m, StableSort(es, TimeOf), MaxTime(es)) == Fold(m, StableSort(es, TimeOf))
    ensures Fold(m, StableSort(es, TimeOf)).t == Fold(m, es).t
    ensures FromScratch(m, StableSort(es, TimeOf), MaxTime(es)) == FoldEvents(m, StableSort(es, TimeOf), None)
  {
    var sorted := StableSort(es, TimeOf);
    SortKeepsEvents(es);
    SameEventsSameMaxTime(es, sorted);
    FoldTimeIsMaxTime(m, es);
    FoldTimeIsMaxTime(m, sorted);
    forall i | 0 <= i < |sorted| ensures sorted[i].t <= MaxTime(es) {
      MaxTimeBounds(sorted, sorted[i]);
    }
    AtOrBeforeSplit(sorted, MaxTime(es), |sorted|);
    assert sorted[..|sorted|] == sorted;
  }

  // The log panel: the same entries while none has scrolled off, and in the same order exactly
  // when the entries arrived in time order. This needs neither clock.
  lemma ReplayedLogs(m: Manifest, es: seq<Event>)
    ensures var live := Fold(m, es).logs;
            var replay := FromScratch(m, StableSort(es, TimeOf), MaxTime(es)).logs;
            && replay == LastN(StableSort(Filter(es, IsLog), TimeOf), 200)
            && (|Filter(es, IsLog)| <= 200 ==>
                  && multiset(replay) == multiset(live)
                  && (replay == live <==> Sorted(Filter(es, IsLog), TimeOf)))
  {
    WholeTraceAtItsEnd(m, es);
    FoldKeepsTheLastLogs(m, es);
    FoldKeepsTheLastLogs(m, StableSort(es, TimeOf));
    StableSortFilter(es, TimeOf, IsLog);
    var logs := Filter(es, IsLog);
    StableSortSorts(logs, TimeOf);
    var sorted := StableSort(logs, TimeOf);
    assert |sorted| == |multiset(sorted)| == |multiset(logs)| == |logs|;
    if Sorted(logs, TimeOf) {
      SortedIsFixed(logs, TimeOf);
    }
  }

  // Controls, and the points of a metric, are replayed as they were seen live exactly when they
  // arrived in time order; this needs neither clock either.
  lemma ReplayedControls(m: Manifest, es: seq<Event>)
    ensures FromScratch(m, StableSort(es, TimeOf), MaxTime(es)).controls == Fold(m, es).controls <==>
            Sorted(Filter(es, IsControl), TimeOf)
  {
    WholeTraceAtItsEnd(m, es);
    FoldKeepsEveryControl(m, es);
    FoldKeepsEveryControl(m, StableSort(es, TimeOf));
    SelectionSurvivesExactlyIfSorted(es, TimeOf, IsControl);
  }

  ghost function OfMetric(id: string): Event -> bool { (e: Event) => e.Metric? && e.id == id }

  lemma {:induction false} PointsOfTheMetric(es: seq<Event>, id: string)
    ensures var own, points := Filter(es, OfMetric(id)), MetricPoints(es, id);
            && |points| == |own|
            && forall i :: 0 <= i < |own| ==> own[i].Metric? && points[i] == SeriesPoint(own[i].t, own[i].value)
  {
    if es != [] {
      PointsOfTheMetric(es[..|es| - 1], id);
    }
  }

  lemma SamePointsExactlyIfSorted(es: seq<Event>, id: string)
    ensures MetricPoints(StableSort(es, TimeOf), id) == MetricPoints(es, id) <==>
            Sorted(Filter(es, OfMetric(id)), TimeOf)
  {
    var sorted := StableSort(es, TimeOf);
    var live, replayed := Filter(es, OfMetric(id)), Filter(sorted, OfMetric(id));
    SelectionSurvivesExactlyIfSorted(es, TimeOf, OfMetric(id));
    PointsOfTheMetric(es, id);
    PointsOfTheMetric(sorted, id);
    if MetricPoints(sorted, id) == MetricPoints(es, id) {
      forall i, j | 0 <= i < j < |live| ensures TimeOf(live[i]) <= TimeOf(live[j]) {
        assert TimeOf(replayed[i]) <= TimeOf(replayed[j]);
        assert MetricPoints(es, id)[i] == MetricPoints(sorted, id)[i];
        assert MetricPoints(es, id)[j] == MetricPoints(sorted, id)[j];
      }
    }
  }

  lemma ReplayedSeries(m: Manifest, es: seq<Event>, id: string)
    ensures var replay := FromScratch(m, StableSort(es, TimeOf), MaxTime(es));
            Lookup(replay.metrics, id) == Lookup(Fold(m, es).metrics, id) <==> Sorted(Filter(es, OfMetric(id)), TimeOf)
  {
    WholeTraceAtItsEnd(m, es);
    FoldKeepsEveryPoint(m, es, id);
    FoldKeepsEveryPoint(m, StableSort(es, TimeOf), id);
    SamePointsExactlyIfSorted(es, id);
  }

  // However the viewer scrubbed on the way, ending on the last instant shows the live view.
  lemma ScrubbedReplayAgreesWithLive(m: Manifest, inputs: seq<Input>, positions: seq<real>)
    requires RelayClockNeverGoesBack(inputs) && Sorted(RunnerEvents(m, inputs), TimeOf)
    requires positions != [] && positions[|positions| - 1] == MaxTime(History(m, inputs))
    ensures var live := Fold(m, History(m, inputs));
            var trace := BuildTrace(m, History(m, inputs));
            Chain(m, trace.events, positions).value.state.(logs := live.logs) == live
  {
    StableSortSorts(History(m, inputs), TimeOf);
    ChainIsFromScratch(m, BuildTrace(m, History(m, inputs)).events, positions);
    ReplayAgreesWithLive(m, inputs);
  }

  // The assumption on the runner's clock is needed: a status reported later with an earlier
  // time wins live and loses in the replay.
  lemma RunnerClockMatters(m: Manifest)
    requires "tidb" in m.nodes
    ensures var inputs := [Stdout(Parsed(Node(2.0, "tidb", Busy, None)), 2.0),
                           Stdout(Parsed(Node(1.0, "tidb", Done, None)), 2.0)];
            && RelayClockNeverGoesBack(inputs)
            && Lookup(Fold(m, History(m, inputs)).nodes, "tidb") == Some(Done)
            && Lookup(Fold(m, BuildTrace(m, History(m, inputs)).events).nodes, "tidb") == Some(Busy)
  {
    var a, b := Node(2.0, "tidb", Busy, None), Node(1.0, "tidb", Done, None);
    HistoryOfTwo(m, Stdout(Parsed(a), 2.0), Stdout(Parsed(b), 2.0));
    LineIsPassedOnOrReported(m, Parsed(a), 2.0);
    LineIsPassedOnOrReported(m, Parsed(b), 2.0);
    assert [a] + [b] == [a, b];
    SortTwo(a, b);
    FoldShowsTheLatestStatus(m, [a, b], "tidb", 1);
    FoldShowsTheLatestStatus(m, [b, a], "tidb", 1);
  }

  lemma HistoryOfTwo(m: Manifest, a: Input, b: Input)
    ensures History(m, [a, b]) == AsSeq(Published(m, a)) + AsSeq(Published(m, b))
  {
    assert [a, b][..1] == [a] && [a][..0] == [];
    assert History(m, [a]) == AsSeq(Published(m, a));
  }

  lemma SortTwo(a: Event, b: Event)
    requires b.t < a.t
    ensures StableSort([a, b], TimeOf) == [b, a]
  {
    assert [a, b][..1] == [a] && [a][..0] == [];
    assert StableSort([a], TimeOf) == [a];
    assert Insert([a], b, TimeOf) == Insert([], b, TimeOf) + [a];
  }
}
