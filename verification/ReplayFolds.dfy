/** The incremental fold behind the replay scrubber: ui/src/state/replay-fold.ts. */
module ReplayFolds {
  import opened Options
  import opened Contract
  import opened DemoStates
  import opened Sorting
  import opened Sequences

  datatype Folded = Folded(state: DemoState, cursor: nat, positionMs: real)

  // `findIndex` from an offset; the length when there is none.
  function FirstIndexAfter(es: seq<Event>, t: real, from: nat): (k: nat)
    requires from <= |es|
    ensures from <= k <= |es|
    ensures forall i :: from <= i < k ==> es[i].t <= t
    ensures k < |es| ==> t < es[k].t
    decreases |es| - from
  {
    if from == |es| || t < es[from].t then from else FirstIndexAfter(es, t, from + 1)
  }

  function Bump(s: DemoState, t: real): DemoState {
    s.(t := Max(s.t, t))
  }

  function Base(m: Manifest, previous: Option<Folded>, positionMs: real): Folded {
    if previous.Some? && previous.value.positionMs <= positionMs then previous.value
    else Folded(InitialState(m), 0, 0.0)
  }

  ghost predicate Fits(es: seq<Event>, previous: Option<Folded>) {
    previous.Some? ==> previous.value.cursor <= |es|
  }

  // The events one call hands to the reducer.
  function Applied(m: Manifest, es: seq<Event>, previous: Option<Folded>, positionMs: real): seq<Event>
    requires Fits(es, previous)
  {
    var from := Base(m, previous, positionMs).cursor;
    es[from..FirstIndexAfter(es, positionMs, from)]
  }

  function FoldTo(m: Manifest, es: seq<Event>, previous: Option<Folded>, positionMs: real): (r: Folded)
    requires Fits(es, previous)
    ensures r.cursor <= |es| && r.positionMs == positionMs
  {
    var base := Base(m, previous, positionMs);
    var end := FirstIndexAfter(es, positionMs, base.cursor);
    Folded(Bump(Reduce(base.state, es[base.cursor..end]), positionMs), end, positionMs)
  }

  // What a reader expects at a position: the fold from scratch, with the clock on the position.
  function FromScratch(m: Manifest, es: seq<Event>, positionMs: real): DemoState {
    Bump(FoldEvents(m, es, Some(positionMs)), positionMs)
  }

  lemma {:induction false} AtOrBeforeSelects(es: seq<Event>, until: real)
    ensures AtOrBefore(es, until) == Filter(es, (e: Event) => e.t <= until)
  {
    if es != [] {
      AtOrBeforeSelects(es[..|es| - 1], until);
    }
  }

  // At a position a reader sees the fold of exactly the events up to it, in the order of the trace,
  // with the clock on the position or, if an event is later than that, on the event.
  lemma FromScratchShowsTheEventsUpTo(m: Manifest, es: seq<Event>, positionMs: real)
    ensures var (view, shown) := (FromScratch(m, es, positionMs), Fold(m, Filter(es, (e: Event) => e.t <= positionMs)));
            view == shown.(t := if shown.t < positionMs then positionMs else shown.t)
  {
    AtOrBeforeSelects(es, positionMs);
  }

  // The results of a series of calls, each given the result before it.
  function Chain(m: Manifest, es: seq<Event>, positions: seq<real>): (r: Option<Folded>)
    ensures Fits(es, r)
    ensures r.Some? <==> positions != []
  {
    if positions == [] then None
    else Some(FoldTo(m, es, Chain(m, es, positions[..|positions| - 1]), positions[|positions| - 1]))
  }

  // The first index after t splits a sorted trace.
  lemma SplitAt(es: seq<Event>, t: real, k: nat)
    requires Sorted(es, TimeOf) && k <= |es|
    requires forall i :: 0 <= i < k ==> es[i].t <= t
    requires k < |es| ==> t < es[k].t
    ensures forall j :: k <= j < |es| ==> t < es[j].t
    ensures AtOrBefore(es, t) == es[..k]
  {
    forall j | k <= j < |es| ensures t < es[j].t {
      if k < j {
        assert TimeOf(es[k]) <= TimeOf(es[j]);
      }
    }
    AtOrBeforeSplit(es, t, k);
  }

  lemma {:induction false} AtOrBeforeSplit(es: seq<Event>, t: real, k: nat)
    requires k <= |es|
    requires forall i :: 0 <= i < k ==> es[i].t <= t
    requires forall i :: k <= i < |es| ==> t < es[i].t
    ensures AtOrBefore(es, t) == es[..k]
  {
    if es != [] {
      var front := es[..|es| - 1];
      if k == |es| {
        AtOrBeforeSplit(front, t, k - 1);
        assert es[..k] == front[..k - 1] + [es[k - 1]];
      } else {
        AtOrBeforeSplit(front, t, k);
        assert es[..k] == front[..k];
      }
    }
  }

  // The reducer never reads the clock except to raise it.
  lemma {:induction false} ReduceBumped(s: DemoState, es: seq<Event>, t: real)
    ensures Reduce(Bump(s, t), es) == Bump(Reduce(s, es), t)
  {
    if es != [] {
      ReduceBumped(s, es[..|es| - 1], t);
      ReduceEventBumped(Reduce(s, es[..|es| - 1]), es[|es| - 1], t);
    }
  }

  lemma ReduceEventBumped(s: DemoState, e: Event, t: real)
    ensures ReduceEvent(Bump(s, t), e) == Bump(ReduceEvent(s, e), t)
  {
  }

  // A cached fold stands for its position.
  ghost predicate Shows(m: Manifest, es: seq<Event>, f: Folded) {
    && f.cursor == FirstIndexAfter(es, f.positionMs, 0)
    && f.state == FromScratch(m, es, f.positionMs)
  }

  // Going on from the cursor of an earlier position ends at the cursor of the later one.
  lemma CursorGoesOn(es: seq<Event>, earlier: real, later: real)
    requires Sorted(es, TimeOf) && earlier <= later
    ensures FirstIndexAfter(es, later, FirstIndexAfter(es, earlier, 0)) == FirstIndexAfter(es, later, 0)
  {
    var from := FirstIndexAfter(es, earlier, 0);
    var a, b := FirstIndexAfter(es, later, from), FirstIndexAfter(es, later, 0);
    SplitAt(es, later, b);
    forall i | 0 <= i < a ensures es[i].t <= later {}
    SplitAt(es, later, a);
  }

  lemma ShownPrefix(m: Manifest, es: seq<Event>, f: Folded)
    requires Sorted(es, TimeOf) && f.cursor == FirstIndexAfter(es, f.positionMs, 0)
    ensures f.cursor <= |es|
    ensures Shows(m, es, f) <==> f.state == Bump(Fold(m, es[..f.cursor]), f.positionMs)
  {
    SplitAt(es, f.positionMs, f.cursor);
  }

  lemma BumpTwice(s: DemoState, earlier: real, later: real)
    requires earlier <= later
    ensures Bump(Bump(s, earlier), later) == Bump(s, later)
  {
  }

  // Reducing the next stretch of events on top of a shown state.
  lemma ShownStateGoesOn(m: Manifest, es: seq<Event>, c: nat, d: nat, earlier: real, later: real)
    requires c <= d <= |es| && earlier <= later
    ensures Bump(Reduce(Bump(Fold(m, es[..c]), earlier), es[c..d]), later) == Bump(Fold(m, es[..d]), later)
  {
    ReduceBumped(Fold(m, es[..c]), es[c..d], earlier);
    ReduceConcat(InitialState(m), es[..c], es[c..d]);
    assert es[..c] + es[c..d] == es[..d];
    BumpTwice(Fold(m, es[..d]), earlier, later);
  }

  lemma FoldToShows(m: Manifest, es: seq<Event>, previous: Option<Folded>, positionMs: real)
    requires Sorted(es, TimeOf)
    requires previous.Some? ==> Shows(m, es, previous.value)
    ensures Shows(m, es, FoldTo(m, es, previous, positionMs))
  {
    var r := FoldTo(m, es, previous, positionMs);
    if previous.Some? && previous.value.positionMs <= positionMs {
      var f := previous.value;
      CursorGoesOn(es, f.positionMs, positionMs);
      ShownPrefix(m, es, f);
      ShownStateGoesOn(m, es, f.cursor, r.cursor, f.positionMs, positionMs);
      ShownPrefix(m, es, r);
    } else {
      assert r.cursor == FirstIndexAfter(es, positionMs, 0);
      assert es[0..r.cursor] == es[..r.cursor];
      ShownPrefix(m, es, r);
    }
  }

  // Scrubbing forwards or backwards, any number of times, never shows anything but the fold
  // from scratch at the last position.
  lemma {:induction false} ChainIsFromScratch(m: Manifest, es: seq<Event>, positions: seq<real>)
    requires Sorted(es, TimeOf) && positions != []
    ensures Shows(m, es, Chain(m, es, positions).value)
    ensures Chain(m, es, positions).value.positionMs == positions[|positions| - 1]
  {
    var front := positions[..|positions| - 1];
    if front != [] {
      ChainIsFromScratch(m, es, front);
    }
    FoldToShows(m, es, Chain(m, es, front), positions[|positions| - 1]);
  }

  lemma {:induction false} AtOrBeforeKeepsPrefix(es: seq<Event>, t: real, k: nat)
    requires k <= |es| && forall i :: 0 <= i < k ==> es[i].t <= t
    ensures |AtOrBefore(es, t)| >= k
    ensures forall i :: k <= i < |es| && es[i].t <= t ==> |AtOrBefore(es, t)| > k
  {
    if es != [] {
      var front := es[..|es| - 1];
      AtOrBeforeKeepsPrefix(front, t, if k == |es| then k - 1 else k);
      forall i | k <= i < |es| && es[i].t <= t ensures |AtOrBefore(es, t)| > k {
        if i < |front| {
          assert front[i] == es[i];
        }
      }
    }
  }

  // Sortedness is exactly what the cursor needs: only for a sorted trace is the part before
  // the cursor the part up to the position, wherever the position is.
  lemma CursorNeedsSortedTrace(es: seq<Event>)
    ensures (forall t :: AtOrBefore(es, t) == es[..FirstIndexAfter(es, t, 0)]) <==> Sorted(es, TimeOf)
  {
    if Sorted(es, TimeOf) {
      forall t ensures AtOrBefore(es, t) == es[..FirstIndexAfter(es, t, 0)] {
        SplitAt(es, t, FirstIndexAfter(es, t, 0));
      }
    } else {
      var i, j :| 0 <= i < j < |es| && TimeOf(es[j]) < TimeOf(es[i]);
      var t := es[j].t;
      var k := FirstIndexAfter(es, t, 0);
      assert k <= i;
      AtOrBeforeKeepsPrefix(es, t, k);
      assert |AtOrBefore(es, t)| > k;
      assert AtOrBefore(es, t) != es[..k];
    }
  }

  // The events handed to the reducer by a series of forward calls after f.
  function AppliedAlong(m: Manifest, es: seq<Event>, f: Folded, positions: seq<real>): (r: (seq<Event>, Folded))
    requires f.cursor <= |es|
    ensures r.1.cursor <= |es|
  {
    if positions == [] then ([], f)
    else
      var (before, g) := AppliedAlong(m, es, f, positions[..|positions| - 1]);
      var p := positions[|positions| - 1];
      (before + Applied(m, es, Some(g), p), FoldTo(m, es, Some(g), p))
  }

  ghost predicate Forward(from: real, positions: seq<real>) {
    && (forall i :: 0 <= i < |positions| ==> from <= positions[i])
    && forall i, j :: 0 <= i < j < |positions| ==> positions[i] <= positions[j]
  }

  lemma ForwardStep(m: Manifest, es: seq<Event>, g: Folded, positionMs: real)
    requires g.cursor <= |es| && g.positionMs <= positionMs
    ensures g.cursor <= FoldTo(m, es, Some(g), positionMs).cursor
    ensures Applied(m, es, Some(g), positionMs) == es[g.cursor..FoldTo(m, es, Some(g), positionMs).cursor]
  {
  }

  // Between two backward moves every event is reduced at most once, in trace order, with none
  // skipped; this needs no sortedness.
  lemma {:induction false} ForwardAppliesEachOnce(m: Manifest, es: seq<Event>, f: Folded, positions: seq<real>)
    requires f.cursor <= |es| && Forward(f.positionMs, positions)
    ensures var (applied, g) := AppliedAlong(m, es, f, positions);
            && f.cursor <= g.cursor && applied == es[f.cursor..g.cursor]
            && g.positionMs == if positions == [] then f.positionMs else positions[|positions| - 1]
  {
    if positions != [] {
      var front, p := positions[..|positions| - 1], positions[|positions| - 1];
      ForwardAppliesEachOnce(m, es, f, front);
      var (before, g) := AppliedAlong(m, es, f, front);
      assert g.positionMs <= p;
      ForwardStep(m, es, g, p);
      JoinedStretches(es, f.cursor, g.cursor, FoldTo(m, es, Some(g), p).cursor);
    }
  }

  lemma JoinedStretches(es: seq<Event>, a: nat, b: nat, c: nat)
    requires a <= b <= c <= |es|
    ensures es[a..b] + es[b..c] == es[a..c]
  {
  }

  // Staying where one is reduces nothing.
  lemma RepeatedCallAppliesNothing(m: Manifest, es: seq<Event>, previous: Option<Folded>, positionMs: real)
    requires Fits(es, previous)
    ensures var f := FoldTo(m, es, previous, positionMs);
            Applied(m, es, Some(f), positionMs) == [] && FoldTo(m, es, Some(f), positionMs) == f
  {
    var f := FoldTo(m, es, previous, positionMs);
    assert FirstIndexAfter(es, positionMs, f.cursor) == f.cursor;
    assert es[f.cursor..f.cursor] == [];
  }
}
