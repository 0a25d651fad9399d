/** The cutover control and its drain loops, which may overlap when the control is pressed again,
    next to the load generator: aws-dms/runner/main.ts and aws-dms/runner/src/load-generator.ts. */
module Cutovers {
  import opened Options
  import opened Sequences
  import opened CutoverMachines

  // Where one press's handler waits.
  datatype Stage =
    | AtLoop                      // at the top of `every`, or asleep between two ticks
    | Polling                     // the tick asked for the replication latency
    | Validating(seen: seq<int>)  // source count, target count, source sum, target sum, so far
    | Left                        // the loop ended
    | Confirming                  // `SELECT 1`
    | Finished

  datatype Handler = Handler(stage: Stage, aborted: bool)

  // inserting: the load generator waits for the inserts of a tick.
  datatype World = World(cutover: CutoverState, stopped: bool, inserting: bool, handlers: seq<Handler>)

  datatype Step =
    | Press
    | LoadTick
    | InsertsDone
    | LoopTop(h: nat)             // `every` checks its signal and, if not aborted, the task begins
    | Polled(h: nat, latencyS: Option<real>)
    | Reading(h: nat, value: int)
    | AfterLoop(h: nat)
    | Confirmed(h: nat)

  predicate Enabled(w: World, step: Step) {
    match step
    case Press => true
    case LoadTick => !w.inserting
    case InsertsDone => w.inserting
    case LoopTop(h) => h < |w.handlers| && w.handlers[h].stage.AtLoop?
    case Polled(h, _) => h < |w.handlers| && w.handlers[h].stage.Polling?
    case Reading(h, _) => h < |w.handlers| && w.handlers[h].stage.Validating?
    case AfterLoop(h) => h < |w.handlers| && w.handlers[h].stage.Left?
    case Confirmed(h) => h < |w.handlers| && w.handlers[h].stage.Confirming?
  }

  function Become(w: World, h: nat, handler: Handler): World
    requires h < |w.handlers|
  {
    w.(handlers := w.handlers[h := handler])
  }

  // rowCountDiff is 0 and the checksums match.
  predicate Clean(readings: seq<int>) {
    |readings| == 4 && readings[0] == readings[1] && readings[2] == readings[3]
  }

  function Next(w: World, step: Step): World
    requires Enabled(w, step)
  {
    match step
    case Press =>
      World(BeginDraining(w.cutover).0, true, w.inserting, w.handlers + [Handler(AtLoop, false)])
    case LoadTick => if w.stopped then w else w.(inserting := true)
    case InsertsDone => w.(inserting := false)
    case LoopTop(h) =>
      var handler := w.handlers[h];
      if handler.aborted then Become(w, h, handler.(stage := Left))
      else if w.cutover != Draining then Become(w, h, handler.(aborted := true))
      else Become(w, h, handler.(stage := Polling))
    case Polled(h, latencyS) =>
      Become(w, h, w.handlers[h].(stage := if latencyS == Some(0.0) then Validating([]) else AtLoop))
    case Reading(h, value) =>
      var handler := w.handlers[h];
      var seen := handler.stage.seen + [value];
      if |seen| < 4 then Become(w, h, handler.(stage := Validating(seen)))
      else if Clean(seen) then
        Become(w, h, handler.(stage := AtLoop, aborted := true)).(cutover := MarkVerified(w.cutover).0)
      else Become(w, h, handler.(stage := AtLoop))
    case AfterLoop(h) =>
      Become(w, h, w.handlers[h].(stage := if w.cutover == Verified then Confirming else Finished))
    case Confirmed(h) =>
      Become(w, h, w.handlers[h].(stage := Finished)).(cutover := MarkFlipped(w.cutover).0)
  }

  function Run(w: World, steps: seq<Step>): Option<World> {
    if steps == [] then Some(w)
    else
      var mid := Run(w, steps[..|steps| - 1]);
      if mid.Some? && Enabled(mid.value, steps[|steps| - 1]) then Some(Next(mid.value, steps[|steps| - 1])) else None
  }

  const BEGIN := World(Running, false, false, [])

  lemma RunNext(w0: World, steps: seq<Step>, w: World, step: Step)
    requires Run(w0, steps) == Some(w) && Enabled(w, step)
    ensures Run(w0, steps + [step]) == Some(Next(w, step))
  {
    assert (steps + [step])[..|steps|] == steps;
  }

  // Two runs that met go on alike.
  lemma RunOneMore(w: World, steps: seq<Step>, w': World, steps': seq<Step>, step: Step)
    requires Run(w, steps) == Run(w', steps')
    ensures Run(w, steps + [step]) == Run(w', steps' + [step])
  {
    hide Next, Enabled;
    assert (steps + [step])[..|steps|] == steps && (steps' + [step])[..|steps'|] == steps';
  }

  lemma {:induction false} RunSplits(w: World, steps: seq<Step>, n: nat)
    requires Run(w, steps).Some? && n <= |steps|
    ensures Run(w, steps[..n]).Some?
    ensures Run(Run(w, steps[..n]).value, steps[n..]) == Run(w, steps)
  {
    hide Next, Enabled;
    if n == |steps| {
      assert steps[..n] == steps;
    } else {
      var front, last := steps[..|steps| - 1], steps[|steps| - 1];
      RunSplits(w, front, n);
      assert front[..n] == steps[..n] && front[n..] + [last] == steps[n..];
      RunOneMore(Run(w, steps[..n]).value, front[n..], w, front, last);
      assert front + [last] == steps;
    }
  }

  /* The states that are entered. */

  // What the cutover changed to, in order.
  function StatesEntered(steps: seq<Step>): seq<CutoverState>
    requires Run(BEGIN, steps).Some?
  {
    if steps == [] then []
    else
      var front := steps[..|steps| - 1];
      var now := Run(BEGIN, steps).value.cutover;
      StatesEntered(front) + if now == Run(BEGIN, front).value.cutover then [] else [now]
  }

  ghost predicate Ok(w: World) {
    w.handlers != [] ==> w.stopped && w.cutover != Running
  }

  lemma StepKeepsOk(w: World, step: Step)
    requires Ok(w) && Enabled(w, step)
    ensures Ok(Next(w, step))
    ensures w.stopped ==> Next(w, step).stopped
    ensures Next(w, step).stopped <==> w.stopped || step == Press
    ensures var next := Next(w, step).cutover;
            next == w.cutover || EnteredUpTo(next) == EnteredUpTo(w.cutover) + [next]
  {
  }

  lemma InFrontOrLast(steps: seq<Step>, step: Step)
    requires steps != []
    ensures step in steps <==> step in steps[..|steps| - 1] || step == steps[|steps| - 1]
  {
    assert steps == steps[..|steps| - 1] + [steps[|steps| - 1]];
  }

  lemma {:induction false} ReachableIsOk(steps: seq<Step>, w: World)
    requires Run(BEGIN, steps) == Some(w)
    ensures Ok(w) && (w.stopped <==> Press in steps)
    ensures StatesEntered(steps) == EnteredUpTo(w.cutover)
  {
    if steps != [] {
      var front, mid, last := RunBack(steps, w);
      ReachableIsOk(front, mid);
      StepKeepsOk(mid, last);
      InFrontOrLast(steps, Press);
      assert StatesEntered(steps) == StatesEntered(front) + if w.cutover == mid.cutover then [] else [w.cutover];
    }
  }

  /* The evidence for verifying, in what the handlers were given. */

  function HandlerOf(step: Step): Option<nat> {
    match step
    case Press => None
    case LoadTick => None
    case InsertsDone => None
    case LoopTop(h) => Some(h)
    case Polled(h, _) => Some(h)
    case Reading(h, _) => Some(h)
    case AfterLoop(h) => Some(h)
    case Confirmed(h) => Some(h)
  }

  ghost function Of(h: nat): Step -> bool { (step: Step) => HandlerOf(step) == Some(h) }

  // A handler's own steps of a tick that was told zero latency and then these values.
  function TickSteps(h: nat, readings: seq<int>): seq<Step> {
    if readings == [] then [LoopTop(h), Polled(h, Some(0.0))]
    else TickSteps(h, readings[..|readings| - 1]) + [Reading(h, readings[|readings| - 1])]
  }

  // From step b on, which came after a press, handler h has taken exactly these steps.
  ghost predicate Tick(steps: seq<Step>, b: nat, h: nat, own: seq<Step>) {
    && b < |steps| && steps[b] == LoopTop(h) && Press in steps[..b]
    && Filter(steps[b..], Of(h)) == own
  }

  // By step n some handler has been through a tick, begun after the stop, that was told zero
  // latency, equal counts and equal checksums.
  ghost predicate CleanTick(steps: seq<Step>, n: nat) {
    && n <= |steps|
    && exists b: nat, h: nat, readings: seq<int> ::
         && |readings| == 4 && readings[0] == readings[1] && readings[2] == readings[3]
         && Tick(steps[..n], b, h, TickSteps(h, readings))
  }

  lemma TickGoesOn(steps: seq<Step>, b: nat, h: nat, own: seq<Step>, step: Step)
    requires Tick(steps, b, h, own)
    ensures Tick(steps + [step], b, h, if HandlerOf(step) == Some(h) then own + [step] else own)
  {
    assert (steps + [step])[b..] == steps[b..] + [step];
    assert (steps + [step])[..b] == steps[..b];
    FilterOneMore(steps[b..], step, Of(h));
  }

  lemma TickStarts(steps: seq<Step>, h: nat)
    requires Press in steps
    ensures Tick(steps + [LoopTop(h)], |steps|, h, [LoopTop(h)])
  {
    var all := steps + [LoopTop(h)];
    assert all[|steps|..] == [] + [LoopTop(h)] && all[..|steps|] == steps;
    FilterOneMore([], LoopTop(h), Of(h));
  }

  // What a waiting handler has been told in its tick so far.
  ghost predicate TickSoFar(steps: seq<Step>, stage: Stage, h: nat) {
    match stage
    case Polling => exists b: nat :: Tick(steps, b, h, [LoopTop(h)])
    case Validating(seen) => |seen| < 4 && exists b: nat :: Tick(steps, b, h, TickSteps(h, seen))
    case _ => true
  }

  ghost predicate Evidenced(steps: seq<Step>, w: World) {
    && (forall h :: 0 <= h < |w.handlers| ==> TickSoFar(steps, w.handlers[h].stage, h))
    && (w.cutover == Verified || w.cutover == Flipped ==> exists n: nat :: CleanTick(steps, n))
  }

  lemma OthersKeepTheTick(steps: seq<Step>, stage: Stage, h: nat, step: Step)
    requires TickSoFar(steps, stage, h) && HandlerOf(step) != Some(h)
    ensures TickSoFar(steps + [step], stage, h)
  {
    match stage
    case Polling =>
      var b: nat :| Tick(steps, b, h, [LoopTop(h)]);
      TickGoesOn(steps, b, h, [LoopTop(h)], step);
    case Validating(seen) =>
      var b: nat :| Tick(steps, b, h, TickSteps(h, seen));
      TickGoesOn(steps, b, h, TickSteps(h, seen), step);
    case _ =>
  }

  // The stage a handler comes to by a step of its own.
  lemma OwnStepGoesOn(steps: seq<Step>, w: World, h: nat, step: Step)
    requires Enabled(w, step) && HandlerOf(step) == Some(h) && Press in steps
    requires TickSoFar(steps, w.handlers[h].stage, h)
    ensures TickSoFar(steps + [step], Next(w, step).handlers[h].stage, h)
  {
    match step
    case LoopTop(_) => TickStarts(steps, h);
    case Polled(_, latencyS) => PollingGoesOn(steps, w, h, latencyS);
    case Reading(_, value) =>
      ReadingGoesOn(steps, h, w.handlers[h].stage.seen, value);
      ReadingDecides(w, h, value);
    case _ =>
  }

  // The latency guard.
  lemma PollingGoesOn(steps: seq<Step>, w: World, h: nat, latencyS: Option<real>)
    requires Enabled(w, Polled(h, latencyS)) && TickSoFar(steps, Polling, h)
    ensures TickSoFar(steps + [Polled(h, latencyS)], Next(w, Polled(h, latencyS)).handlers[h].stage, h)
  {
    if latencyS == Some(0.0) {
      var b: nat :| Tick(steps, b, h, [LoopTop(h)]);
      TickGoesOn(steps, b, h, [LoopTop(h)], Polled(h, latencyS));
      assert [LoopTop(h)] + [Polled(h, latencyS)] == TickSteps(h, []);
    }
  }

  lemma ReadingGoesOn(steps: seq<Step>, h: nat, seen: seq<int>, value: int)
    requires TickSoFar(steps, Validating(seen), h)
    ensures exists b: nat :: Tick(steps + [Reading(h, value)], b, h, TickSteps(h, seen + [value]))
  {
    var b: nat :| Tick(steps, b, h, TickSteps(h, seen));
    TickGoesOn(steps, b, h, TickSteps(h, seen), Reading(h, value));
    assert (seen + [value])[..|seen|] == seen;
    assert TickSteps(h, seen + [value]) == TickSteps(h, seen) + [Reading(h, value)];
  }

  lemma CleanTickStays(steps: seq<Step>, n: nat, step: Step)
    requires CleanTick(steps, n)
    ensures CleanTick(steps + [step], n)
  {
    assert (steps + [step])[..n] == steps[..n];
  }

  // Only a clean tick verifies.
  lemma VerifyingNeedsACleanTick(steps: seq<Step>, w: World, h: nat, value: int)
    requires Enabled(w, Reading(h, value)) && TickSoFar(steps, w.handlers[h].stage, h)
    requires Next(w, Reading(h, value)).cutover != w.cutover
    ensures CleanTick(steps + [Reading(h, value)], |steps| + 1)
  {
    var all, seen := steps + [Reading(h, value)], w.handlers[h].stage.seen;
    ReadingGoesOn(steps, h, seen, value);
    assert all[..|all|] == all && Clean(seen + [value]);
  }

  lemma StepKeepsTicks(steps: seq<Step>, w: World, step: Step, h: nat)
    requires Enabled(w, step) && Evidenced(steps, w) && (w.handlers != [] ==> Press in steps)
    requires h < |Next(w, step).handlers|
    ensures TickSoFar(steps + [step], Next(w, step).handlers[h].stage, h)
  {
    if HandlerOf(step) == Some(h) {
      OwnStepGoesOn(steps, w, h, step);
    } else if h < |w.handlers| {
      assert Next(w, step).handlers[h] == w.handlers[h];
      OthersKeepTheTick(steps, w.handlers[h].stage, h, step);
    }
  }

  lemma StepKeepsEvidence(steps: seq<Step>, w: World, step: Step, all: seq<Step>, w': World)
    requires Enabled(w, step) && Evidenced(steps, w) && (w.handlers != [] ==> Press in steps)
    requires all == steps + [step] && w' == Next(w, step)
    ensures Evidenced(all, w')
  {
    forall h | 0 <= h < |w'.handlers| ensures TickSoFar(all, w'.handlers[h].stage, h) {
      StepKeepsTicks(steps, w, step, h);
    }
    if w.cutover == Verified || w.cutover == Flipped {
      var n: nat :| CleanTick(steps, n);
      CleanTickStays(steps, n, step);
    } else if w'.cutover == Verified {
      VerifyingNeedsACleanTick(steps, w, step.h, step.value);
    }
  }

  lemma {:induction false} ReachableIsEvidenced(steps: seq<Step>, w: World)
    requires Run(BEGIN, steps) == Some(w)
    ensures Evidenced(steps, w)
  {
    if steps == [] {
      NothingIsEvidence();
    } else {
      var front, mid, last := RunBack(steps, w);
      ReachableIsOk(front, mid);
      ReachableIsEvidenced(front, mid);
      StepKeepsEvidence(front, mid, last, steps, w);
    }
  }

  lemma NothingIsEvidence()
    ensures Evidenced([], BEGIN)
  {
  }

  // And every clean tick does: up to its last reading its handler is waiting for the next one.
  lemma {:induction false} TickIsUnderWay(steps: seq<Step>, w: World, b: nat, h: nat, seen: seq<int>)
    requires Run(BEGIN, steps) == Some(w) && Tick(steps, b, h, TickSteps(h, seen)) && |seen| < 4
    ensures h < |w.handlers| && w.handlers[h].stage == Validating(seen)
  {
    var front, mid, last := RunBack(steps, w);
    TickBackwards(steps, b, h, seen);
    if HandlerOf(last) != Some(h) {
      TickIsUnderWay(front, mid, b, h, seen);
      OthersKeepTheHandler(mid, last, h);
    } else if seen == [] {
      PolledZero(mid, h);
    } else {
      TickIsUnderWay(front, mid, b, h, seen[..|seen| - 1]);
      ReadingDecides(mid, h, seen[|seen| - 1]);
      assert seen == seen[..|seen| - 1] + [seen[|seen| - 1]];
    }
  }

  lemma RunBack(steps: seq<Step>, w: World) returns (front: seq<Step>, mid: World, last: Step)
    requires Run(BEGIN, steps) == Some(w) && steps != []
    ensures front == steps[..|steps| - 1] && last == steps[|steps| - 1] && steps == front + [last]
    ensures Run(BEGIN, front) == Some(mid) && Enabled(mid, last) && w == Next(mid, last)
  {
    front, last := steps[..|steps| - 1], steps[|steps| - 1];
    mid := Run(BEGIN, front).value;
  }

  lemma OthersKeepTheHandler(w: World, step: Step, h: nat)
    requires Enabled(w, step) && HandlerOf(step) != Some(h) && h < |w.handlers|
    ensures h < |Next(w, step).handlers| && Next(w, step).handlers[h] == w.handlers[h]
  {
  }

  lemma PolledZero(w: World, h: nat)
    requires Enabled(w, Polled(h, Some(0.0)))
    ensures h < |Next(w, Polled(h, Some(0.0))).handlers|
    ensures Next(w, Polled(h, Some(0.0))).handlers[h].stage == Validating([])
  {
  }

  lemma ReadingDecides(w: World, h: nat, value: int)
    requires Enabled(w, Reading(h, value))
    ensures var (w', seen) := (Next(w, Reading(h, value)), w.handlers[h].stage.seen + [value]);
            && |w'.handlers| == |w.handlers|
            && w'.handlers[h].stage == (if |seen| < 4 then Validating(seen) else AtLoop)
            && w'.cutover == if |seen| >= 4 && Clean(seen) && w.cutover == Draining then Verified else w.cutover
  {
  }

  lemma StepKeepsVerified(w: World, step: Step)
    requires Enabled(w, step) && (w.cutover == Verified || w.cutover == Flipped)
    ensures Next(w, step).cutover == Verified || Next(w, step).cutover == Flipped
  {
  }

  // The last step of a tick so far is somebody else's, or its own last one.
  lemma TickBackwards(steps: seq<Step>, b: nat, h: nat, seen: seq<int>)
    requires Tick(steps, b, h, TickSteps(h, seen))
    ensures var (front, last) := (steps[..|steps| - 1], steps[|steps| - 1]);
            if HandlerOf(last) != Some(h) then Tick(front, b, h, TickSteps(h, seen))
            else if seen == [] then last == Polled(h, Some(0.0))
            else last == Reading(h, seen[|seen| - 1]) && Tick(front, b, h, TickSteps(h, seen[..|seen| - 1]))
  {
    hide TickSteps, Filter;
    var front, last := steps[..|steps| - 1], steps[|steps| - 1];
    var own := TickSteps(h, seen);
    assert steps[b..] == front[b..] + [last];
    FilterOneMore(front[b..], last, Of(h));
    TickStepsLast(h, seen);
    assert 2 <= |own| <= |steps[b..]|;
    assert front[..b] == steps[..b] && front[b] == steps[b];
    if HandlerOf(last) == Some(h) {
      assert own[..|own| - 1] == Filter(front[b..], Of(h));
    }
  }

  lemma TickStepsLast(h: nat, seen: seq<int>)
    ensures |TickSteps(h, seen)| >= 2
    ensures var own := TickSteps(h, seen);
            if seen == [] then own[|own| - 1] == Polled(h, Some(0.0))
            else own[|own| - 1] == Reading(h, seen[|seen| - 1]) && own[..|own| - 1] == TickSteps(h, seen[..|seen| - 1])
  {
    if seen != [] {
      TickStepsLast(h, seen[..|seen| - 1]);
    }
  }

  lemma {:induction false} CleanTickVerifies(steps: seq<Step>, w: World, b: nat, h: nat, readings: seq<int>)
    requires Run(BEGIN, steps) == Some(w) && Tick(steps, b, h, TickSteps(h, readings)) && Clean(readings)
    ensures w.cutover == Verified || w.cutover == Flipped
  {
    var front, mid, last := RunBack(steps, w);
    TickBackwards(steps, b, h, readings);
    if HandlerOf(last) != Some(h) {
      CleanTickVerifies(front, mid, b, h, readings);
      StepKeepsVerified(mid, last);
    } else {
      TickIsUnderWay(front, mid, b, h, readings[..3]);
      ReachableIsOk(front, mid);
      ReadingDecides(mid, h, readings[3]);
      assert readings == readings[..3] + [readings[3]];
    }
  }

  lemma {:induction false} VerifiedStays(w: World, steps: seq<Step>)
    requires Run(w, steps).Some? && (w.cutover == Verified || w.cutover == Flipped)
    ensures Run(w, steps).value.cutover == Verified || Run(w, steps).value.cutover == Flipped
  {
    if steps != [] {
      VerifiedStays(w, steps[..|steps| - 1]);
      StepKeepsVerified(Run(w, steps[..|steps| - 1]).value, steps[|steps| - 1]);
    }
  }

  // The cutover is verified, or flipped, exactly when some handler has been through a clean tick
  // that began after the writer was stopped.
  lemma VerifiedExactlyByACleanTick(steps: seq<Step>, w: World)
    requires Run(BEGIN, steps) == Some(w)
    ensures w.cutover == Verified || w.cutover == Flipped <==> exists n: nat :: CleanTick(steps, n)
  {
    ReachableIsEvidenced(steps, w);
    if n: nat :| CleanTick(steps, n) {
      RunSplits(BEGIN, steps, n);
      var mid := Run(BEGIN, steps[..n]).value;
      var b: nat, h: nat, readings: seq<int> :|
        && |readings| == 4 && readings[0] == readings[1] && readings[2] == readings[3]
        && Tick(steps[..n], b, h, TickSteps(h, readings));
      CleanTickVerifies(steps[..n], mid, b, h, readings);
      VerifiedStays(mid, steps[n..]);
    }
  }

  // However presses and drain loops interleave: the states are entered once each and in order,
  // being flipped has its evidence, and no load tick begins inserts after a press.
  lemma CutoverIsSafe(steps: seq<Step>, w: World)
    requires Run(BEGIN, steps) == Some(w)
    ensures StatesEntered(steps) == EnteredUpTo(w.cutover)
    ensures w.cutover == Flipped ==> exists n: nat :: CleanTick(steps, n)
    ensures Press in steps && Enabled(w, LoadTick) ==> !Next(w, LoadTick).inserting
  {
    ReachableIsOk(steps, w);
    VerifiedExactlyByACleanTick(steps, w);
  }

  /* No press waits for ever. */

  // A handler leaves its loop only once it is aborted, is aborted only once the cutover is past
  // draining, and finishes only once it is flipped.
  ghost predicate Bound(cutover: CutoverState, handler: Handler) {
    && (handler.stage.Left? || handler.stage.Confirming? || handler.stage.Finished? ==> handler.aborted)
    && (handler.aborted ==> cutover == Verified || cutover == Flipped)
    && (handler.stage.Finished? ==> cutover == Flipped)
    && (handler.stage.Polling? || handler.stage.Validating? ==> !handler.aborted)
    && (handler.stage.Validating? ==> |handler.stage.seen| < 4)
  }

  ghost predicate AllBound(w: World) {
    && (forall h :: 0 <= h < |w.handlers| ==> Bound(w.cutover, w.handlers[h]))
    && (w.cutover != Running ==> w.handlers != [])
  }

  lemma StepKeepsBound(w: World, step: Step, h: nat)
    requires AllBound(w) && Ok(w) && Enabled(w, step) && h < |Next(w, step).handlers|
    ensures Bound(Next(w, step).cutover, Next(w, step).handlers[h])
  {
    if h < |w.handlers| {
      assert Bound(w.cutover, w.handlers[h]);
    }
  }

  lemma {:induction false} ReachableIsBound(steps: seq<Step>, w: World)
    requires Run(BEGIN, steps) == Some(w)
    ensures AllBound(w)
  {
    if steps != [] {
      var front, mid, last := RunBack(steps, w);
      ReachableIsBound(front, mid);
      ReachableIsOk(front, mid);
      forall h | 0 <= h < |w.handlers| ensures Bound(w.cutover, w.handlers[h]) {
        StepKeepsBound(mid, last, h);
      }
    }
  }

  // In every interleaving: out of the loop means aborted, and aborted means past draining.
  lemma LeavingMeansAborted(steps: seq<Step>, w: World, h: nat)
    requires Run(BEGIN, steps) == Some(w) && h < |w.handlers|
    ensures w.handlers[h].stage.Left? || w.handlers[h].stage.Confirming? || w.handlers[h].stage.Finished? ==>
              w.handlers[h].aborted
    ensures w.handlers[h].aborted ==> w.cutover == Verified || w.cutover == Flipped
    ensures w.handlers[h].stage.Finished? ==> w.cutover == Flipped
  {
    ReachableIsBound(steps, w);
  }

  predicate AllSevens(seen: seq<int>) { forall i :: 0 <= i < |seen| ==> seen[i] == 7 }

  // What a handler does next if all it is told is clean.
  function OwnStep(w: World, h: nat): Step
    requires h < |w.handlers| && !w.handlers[h].stage.Finished?
  {
    match w.handlers[h].stage
    case AtLoop => LoopTop(h)
    case Polling => Polled(h, if w.cutover == Draining then Some(0.0) else None)
    case Validating(_) => Reading(h, 7)
    case Left => AfterLoop(h)
    case Confirming => Confirmed(h)
  }

  // How far it is from the flip.
  function Distance(w: World, h: nat): nat
    requires h < |w.handlers|
  {
    if w.cutover == Flipped then 0
    else if w.cutover == Draining then
      match w.handlers[h].stage
      case Validating(seen) =>
        var left := if |seen| < 4 then 4 - |seen| else 0;
        if AllSevens(seen) then 11 + left else 20 + left
      case Polling => 16
      case _ => 17
    else
      match w.handlers[h].stage
      case Validating(seen) => 5 + if |seen| < 4 then 4 - |seen| else 0
      case Polling => 5
      case AtLoop => if w.handlers[h].aborted then 3 else 4
      case Left => 2
      case _ => 1
  }

  lemma OwnStepComesCloser(w: World, h: nat)
    requires AllBound(w) && h < |w.handlers| && (w.cutover == Draining || w.cutover == Verified)
    ensures !w.handlers[h].stage.Finished? && Enabled(w, OwnStep(w, h))
    ensures var w' := Next(w, OwnStep(w, h));
            && h < |w'.handlers| && w'.cutover != Running && Distance(w', h) < Distance(w, h)
  {
    assert Bound(w.cutover, w.handlers[h]);
    if w.handlers[h].stage.Validating? {
      ReadingSeven(w, h);
    }
  }

  lemma ReadingSeven(w: World, h: nat)
    requires AllBound(w) && h < |w.handlers| && w.handlers[h].stage.Validating?
    requires w.cutover == Draining || w.cutover == Verified
    ensures Distance(Next(w, Reading(h, 7)), h) < Distance(w, h)
  {
    assert Bound(w.cutover, w.handlers[h]);
    var seen := w.handlers[h].stage.seen;
    assert AllSevens(seen) ==> AllSevens(seen + [7]);
    assert AllSevens(seen) && |seen| == 3 ==> Clean(seen + [7]);
  }

  lemma {:induction false} RunsOn(w0: World, a: seq<Step>, mid: World, b: seq<Step>)
    requires Run(w0, a) == Some(mid)
    ensures Run(w0, a + b) == Run(mid, b)
  {
    if b == [] {
      assert a + b == a;
    } else {
      RunsOn(w0, a, mid, b[..|b| - 1]);
      assert (a + b)[..|a + b| - 1] == a + b[..|b| - 1];
    }
  }

  lemma StepKeepsAllBound(w: World, step: Step)
    requires AllBound(w) && Ok(w) && Enabled(w, step)
    ensures AllBound(Next(w, step)) && Ok(Next(w, step))
  {
    StepKeepsOk(w, step);
    forall h | 0 <= h < |Next(w, step).handlers| ensures Bound(Next(w, step).cutover, Next(w, step).handlers[h]) {
      StepKeepsBound(w, step, h);
    }
  }

  lemma {:induction false} OwnStepsFlip(w: World, h: nat) returns (more: seq<Step>, w': World)
    requires AllBound(w) && Ok(w) && h < |w.handlers| && w.cutover != Running
    ensures Run(w, more) == Some(w') && w'.cutover == Flipped
    ensures forall i :: 0 <= i < |more| ==> HandlerOf(more[i]) == Some(h)
    decreases Distance(w, h)
  {
    if w.cutover == Flipped {
      return [], w;
    }
    OwnStepComesCloser(w, h);
    var step := OwnStep(w, h);
    StepKeepsAllBound(w, step);
    var rest;
    rest, w' := OwnStepsFlip(Next(w, step), h);
    RunNext(w, [], w, step);
    assert [] + [step] == [step];
    RunsOn(w, [step], Next(w, step), rest);
    more := [step] + rest;
  }

  // From every reachable world past the first press, every handler there is can bring about the flip
  // by its own steps alone, whatever the others do not do.
  lemma AnyHandlerCanFlip(steps: seq<Step>, w: World, h: nat) returns (more: seq<Step>, w': World)
    requires Run(BEGIN, steps) == Some(w) && h < |w.handlers|
    ensures Run(w, more) == Some(w') && w'.cutover == Flipped
    ensures forall i :: 0 <= i < |more| ==> HandlerOf(more[i]) == Some(h)
  {
    ReachableIsBound(steps, w);
    ReachableIsOk(steps, w);
    more, w' := OwnStepsFlip(w, h);
  }

  // So the cutover is never stuck: from every reachable world it can still be flipped.
  lemma FlipIsAlwaysReachable(steps: seq<Step>, w: World) returns (more: seq<Step>, w': World)
    requires Run(BEGIN, steps) == Some(w)
    ensures Run(w, more) == Some(w') && w'.cutover == Flipped
  {
    ReachableIsBound(steps, w);
    if w.handlers != [] {
      more, w' := AnyHandlerCanFlip(steps, w, 0);
    } else {
      RunNext(BEGIN, steps, w, Press);
      var rest;
      rest, w' := AnyHandlerCanFlip(steps + [Press], Next(w, Press), 0);
      RunNext(w, [], w, Press);
      assert [] + [Press] == [Press];
      RunsOn(w, [Press], Next(w, Press), rest);
      more := [Press] + rest;
    }
  }

  /* Inserts that land late. */

  // Stopped, with no inserts under way: none will ever land.
  lemma {:induction false} NothingMoreLands(w: World, more: seq<Step>)
    requires w.stopped && !w.inserting && Run(w, more).Some?
    ensures InsertsDone !in more
    ensures Run(w, more).value.stopped && !Run(w, more).value.inserting
  {
    if more != [] {
      var front, last := more[..|more| - 1], more[|more| - 1];
      NothingMoreLands(w, front);
      NothingBegins(Run(w, front).value, last);
      assert more == front + [last];
    }
  }

  lemma NothingBegins(w: World, step: Step)
    requires Enabled(w, step) && w.stopped && !w.inserting
    ensures step != InsertsDone && Next(w, step).stopped && !Next(w, step).inserting
  {
  }

  // Once the writer is stopped, inserts can still land exactly when some are under way.
  lemma InsertsLandExactlyIfUnderWay(w: World)
    requires w.stopped
    ensures (exists more :: Run(w, more).Some? && InsertsDone in more) <==> w.inserting
  {
    if w.inserting {
      RunNext(w, [], w, InsertsDone);
      assert [] + [InsertsDone] == [InsertsDone];
      assert InsertsDone in [InsertsDone];
    } else {
      forall more | Run(w, more).Some? ensures InsertsDone !in more {
        NothingMoreLands(w, more);
      }
    }
  }

  // What lands after a press was under way at the press, and it is the only thing that lands.
  lemma LateInsertsWereUnderWay(steps: seq<Step>, i: nat, j: nat)
    requires Run(BEGIN, steps).Some? && i < j < |steps| && steps[i] == Press && steps[j] == InsertsDone
    ensures Run(BEGIN, steps[..i]).Some? && Run(BEGIN, steps[..i]).value.inserting
    ensures forall k :: i < k < |steps| && steps[k] == InsertsDone ==> k == j
  {
    PressedAt(steps, i);
    var pressed := Run(BEGIN, steps[..i + 1]).value;
    RunSplits(BEGIN, steps, i + 1);
    if !pressed.inserting {
      NothingMoreLands(pressed, steps[i + 1..]);
      InTheRest(steps, i + 1, j);
    }
    forall k | i < k < |steps| && steps[k] == InsertsDone ensures k == j {
      OneLandsAfter(steps, i, k);
      OneLandsAfter(steps, i, j);
    }
  }

  lemma PressedAt(steps: seq<Step>, i: nat)
    requires Run(BEGIN, steps).Some? && i < |steps| && steps[i] == Press
    ensures Run(BEGIN, steps[..i]).Some? && Run(BEGIN, steps[..i + 1]).Some?
    ensures var (w, w') := (Run(BEGIN, steps[..i]).value, Run(BEGIN, steps[..i + 1]).value);
            w'.stopped && w'.inserting == w.inserting
  {
    RunSplits(BEGIN, steps, i);
    RunSplits(BEGIN, steps, i + 1);
    assert steps[..i + 1][..i] == steps[..i];
  }

  lemma LandedAt(steps: seq<Step>, i: nat, j: nat)
    requires Run(BEGIN, steps).Some? && i < j < |steps| && steps[i] == Press && steps[j] == InsertsDone
    ensures Run(BEGIN, steps[..j + 1]).Some?
    ensures Run(BEGIN, steps[..j + 1]).value.stopped && !Run(BEGIN, steps[..j + 1]).value.inserting
  {
    var landed := steps[..j + 1];
    RunSplits(BEGIN, steps, j + 1);
    var w := Run(BEGIN, landed).value;
    assert landed[i] == Press;
    ReachableIsOk(landed, w);
    var front, mid, last := RunBack(landed, w);
  }

  lemma OneLandsAfter(steps: seq<Step>, i: nat, j: nat)
    requires Run(BEGIN, steps).Some? && i < j < |steps| && steps[i] == Press && steps[j] == InsertsDone
    ensures forall k :: j < k < |steps| ==> steps[k] != InsertsDone
  {
    hide Next, Enabled, Run;
    LandedAt(steps, i, j);
    RunSplits(BEGIN, steps, j + 1);
    NothingMoreLands(Run(BEGIN, steps[..j + 1]).value, steps[j + 1..]);
    forall k | j < k < |steps| ensures steps[k] != InsertsDone {
      InTheRest(steps, j + 1, k);
    }
  }

  lemma InTheRest(steps: seq<Step>, n: nat, k: nat)
    requires n <= k < |steps|
    ensures steps[k] in steps[n..]
  {
    assert steps[n..][k - n] == steps[k];
  }

  // The stop does not reach back: inserts under way at the press may land after the flip, so
  // equality of source and target at the flip is not a property of the demo.
  lemma InsertsCanLandAfterTheFlip() returns (steps: seq<Step>, w: World)
    ensures Run(BEGIN, steps) == Some(w) && w.cutover == Flipped && w.inserting
    ensures Run(BEGIN, steps + [InsertsDone]).Some?
  {
    var verified, w1 := VerifiedWhileInserting();
    var w2 := Next(w1, LoopTop(0));
    RunNext(BEGIN, verified, w1, LoopTop(0));
    var w3 := Next(w2, AfterLoop(0));
    RunNext(BEGIN, verified + [LoopTop(0)], w2, AfterLoop(0));
    w := Next(w3, Confirmed(0));
    RunNext(BEGIN, verified + [LoopTop(0)] + [AfterLoop(0)], w3, Confirmed(0));
    steps := verified + [LoopTop(0)] + [AfterLoop(0)] + [Confirmed(0)];
    RunNext(BEGIN, steps, w, InsertsDone);
  }

  lemma VerifiedWhileInserting() returns (steps: seq<Step>, w: World)
    ensures Run(BEGIN, steps) == Some(w) && w == World(Verified, true, true, [Handler(AtLoop, true)])
  {
    var w1 := Next(BEGIN, LoadTick);
    RunNext(BEGIN, [], BEGIN, LoadTick);
    var w2 := Next(w1, Press);
    RunNext(BEGIN, [] + [LoadTick], w1, Press);
    var w3 := Next(w2, LoopTop(0));
    RunNext(BEGIN, [] + [LoadTick] + [Press], w2, LoopTop(0));
    var w4 := Next(w3, Polled(0, Some(0.0)));
    var t4 := [] + [LoadTick] + [Press] + [LoopTop(0)];
    RunNext(BEGIN, t4, w3, Polled(0, Some(0.0)));
    assert w4 == World(Draining, true, true, [Handler(Validating([]), false)]);
    steps, w := FourEqualReadings(t4 + [Polled(0, Some(0.0))], w4);
  }

  lemma OneReading(before: seq<Step>, w0: World, seen: seq<int>) returns (steps: seq<Step>, w: World)
    requires Run(BEGIN, before) == Some(w0) && |seen| < 3
    requires w0.handlers == [Handler(Validating(seen), false)]
    ensures Run(BEGIN, steps) == Some(w)
    ensures w == w0.(handlers := [Handler(Validating(seen + [7]), false)])
  {
    RunNext(BEGIN, before, w0, Reading(0, 7));
    steps, w := before + [Reading(0, 7)], Next(w0, Reading(0, 7));
  }

  lemma FourEqualReadings(before: seq<Step>, w0: World) returns (steps: seq<Step>, w: World)
    requires Run(BEGIN, before) == Some(w0) && w0 == World(Draining, true, true, [Handler(Validating([]), false)])
    ensures Run(BEGIN, steps) == Some(w) && w == World(Verified, true, true, [Handler(AtLoop, true)])
  {
    var t1, w1 := OneReading(before, w0, []);
    var t2, w2 := OneReading(t1, w1, [] + [7]);
    var t3, w3 := OneReading(t2, w2, [] + [7] + [7]);
    RunNext(BEGIN, t3, w3, Reading(0, 7));
    steps, w := t3 + [Reading(0, 7)], Next(w3, Reading(0, 7));
  }
}
