/** The mutable side of the AWS DMS demo: the control handlers of aws-dms/runner/main.ts over the
    state machine, and the load generator of aws-dms/runner/src/load-generator.ts. */
module CutoverDemos {
  import opened Options
  import opened CutoverMachines
  import opened Cutovers

  class LoadGenerator {
    const baselineRowsPerTick: nat
    const burstMultiplier: nat
    const burstDurationMs: real
    var burstUntilMs: Option<real>
    var stopped: bool

    constructor (baselineRowsPerTick: nat, burstMultiplier: nat, burstDurationMs: real)
      ensures !stopped && burstUntilMs == None
      ensures this.baselineRowsPerTick == baselineRowsPerTick
      ensures this.burstMultiplier == burstMultiplier && this.burstDurationMs == burstDurationMs
    {
      this.baselineRowsPerTick, this.burstMultiplier := baselineRowsPerTick, burstMultiplier;
      this.burstDurationMs, burstUntilMs, stopped := burstDurationMs, None, false;
    }

    method Burst(now: real)
      modifies this`burstUntilMs
      ensures burstUntilMs == Some(now + burstDurationMs)
    {
      burstUntilMs := Some(now + burstDurationMs);
    }

    method Stop()
      modifies this`stopped
      ensures stopped
    {
      stopped := true;
    }

    // How many rows a tick goes on to insert; a stopped generator begins no inserts, burst or not.
    method BeginTick(now: real) returns (rows: Option<nat>)
      ensures rows == None <==> stopped
      ensures rows.Some? && burstUntilMs.Some? && now < burstUntilMs.value ==>
                rows.value == baselineRowsPerTick * burstMultiplier
      ensures rows.Some? && (burstUntilMs.Some? ==> burstUntilMs.value <= now) ==> rows.value == baselineRowsPerTick
    {
      if stopped { return None; }
      var bursting := burstUntilMs.Some? && now < burstUntilMs.value;
      rows := Some(if bursting then baselineRowsPerTick * burstMultiplier else baselineRowsPerTick);
    }
  }

  // Every stretch of the demo between two awaits is one method.
  class CutoverDemo {
    const cutover: CutoverStateMachine
    const generator: LoadGenerator
    var inserting: bool
    var handlers: seq<Handler>
    ghost var steps: seq<Step>

    ghost function View(): World
      reads this, cutover, generator
    {
      World(cutover.state, generator.stopped, inserting, handlers)
    }

    // The variables stand where the steps taken lead, and the machine has entered what they enter.
    ghost predicate Valid()
      reads this, cutover, generator
    {
      Run(BEGIN, steps) == Some(View()) && cutover.Valid()
    }

    constructor (generator: LoadGenerator)
      requires !generator.stopped
      ensures Valid() && steps == [] && this.generator == generator && fresh(cutover)
    {
      this.generator := generator;
      cutover := new CutoverStateMachine();
      inserting, handlers, steps := false, [], [];
    }

    // The start-cutover control, up to its loop. The writer is stopped for good: from here on
    // inserts can land only if some are under way.
    method StartCutover()
      requires Valid()
      modifies this, cutover, generator`stopped
      ensures Valid() && steps == old(steps) + [Press]
      ensures generator.stopped && cutover.state != Running && inserting == old(inserting)
      ensures handlers == old(handlers) + [Handler(AtLoop, false)]
      ensures (exists more :: Run(View(), more).Some? && InsertsDone in more) <==> inserting
    {
      RunNext(BEGIN, steps, View(), Press);
      generator.Stop();
      var _ := cutover.Begin();
      handlers := handlers + [Handler(AtLoop, false)];
      steps := steps + [Press];
      InsertsLandExactlyIfUnderWay(View());
    }

    // A load tick begins inserts exactly if no press has come before it.
    method BeginLoadTick(now: real) returns (rows: Option<nat>)
      requires Valid() && !inserting
      modifies this`inserting, this`steps
      ensures Valid() && steps == old(steps) + [LoadTick]
      ensures rows.Some? <==> inserting
      ensures inserting <==> Press !in old(steps)
    {
      RunNext(BEGIN, steps, View(), LoadTick);
      ReachableIsOk(steps, View());
      rows := generator.BeginTick(now);
      inserting := rows.Some?;
      steps := steps + [LoadTick];
    }

    method EndLoadTick()
      requires Valid() && inserting
      modifies this`inserting, this`steps
      ensures Valid() && steps == old(steps) + [InsertsDone] && !inserting
    {
      RunNext(BEGIN, steps, View(), InsertsDone);
      inserting := false;
      steps := steps + [InsertsDone];
    }

    // `every` looks at its signal; the task looks at the cutover before it asks for the latency.
    method AtTopOfLoop(h: nat)
      requires Valid() && Enabled(View(), LoopTop(h))
      modifies this`handlers, this`steps
      ensures Valid() && steps == old(steps) + [LoopTop(h)]
      ensures handlers[h].stage == Polling <==> !old(handlers[h].aborted) && cutover.state == Draining
      ensures handlers[h].stage == Left <==> old(handlers[h].aborted)
      ensures !old(handlers[h].aborted) && cutover.state != Draining ==> handlers[h] == Handler(AtLoop, true)
    {
      RunNext(BEGIN, steps, View(), LoopTop(h));
      var handler := handlers[h];
      if handler.aborted {
        handlers := handlers[h := handler.(stage := Left)];
      } else if cutover.state != Draining {
        handlers := handlers[h := handler.(aborted := true)];
      } else {
        handlers := handlers[h := handler.(stage := Polling)];
      }
      steps := steps + [LoopTop(h)];
    }

    // Only a latency of zero starts the readings; any other, or none, leaves the handler at its loop.
    method OnLatency(h: nat, latencyS: Option<real>)
      requires Valid() && Enabled(View(), Polled(h, latencyS))
      modifies this`handlers, this`steps
      ensures Valid() && steps == old(steps) + [Polled(h, latencyS)]
      ensures latencyS == Some(0.0) ==> handlers[h] == Handler(Validating([]), old(handlers[h].aborted))
      ensures latencyS != Some(0.0) ==> handlers[h] == Handler(AtLoop, false)
    {
      RunNext(BEGIN, steps, View(), Polled(h, latencyS));
      ReachableIsBound(steps, View());
      var stage := if latencyS == Some(0.0) then Validating([]) else AtLoop;
      handlers := handlers[h := handlers[h].(stage := stage)];
      steps := steps + [Polled(h, latencyS)];
    }

    // The next of the two counts and two checksums; after the last one the tick decides. Whatever
    // it decides, the cutover is past draining exactly if there has been a clean tick.
    method OnReading(h: nat, value: int)
      requires Valid() && Enabled(View(), Reading(h, value))
      modifies this`handlers, this`steps, cutover
      ensures Valid() && steps == old(steps) + [Reading(h, value)]
      ensures cutover.state == Verified || cutover.state == Flipped <==> exists n: nat :: CleanTick(steps, n)
      ensures cutover.state != old(cutover.state) ==> cutover.state == Verified && handlers[h].aborted
    {
      RunNext(BEGIN, steps, View(), Reading(h, value));
      var handler := handlers[h];
      var seen := handler.stage.seen + [value];
      if |seen| < 4 {
        handlers := handlers[h := handler.(stage := Validating(seen))];
      } else if Clean(seen) {
        handlers := handlers[h := handler.(stage := AtLoop, aborted := true)];
        var _ := cutover.Verify();
      } else {
        handlers := handlers[h := handler.(stage := AtLoop)];
      }
      steps := steps + [Reading(h, value)];
      VerifiedExactlyByACleanTick(steps, View());
    }

    method AfterItsLoop(h: nat)
      requires Valid() && Enabled(View(), AfterLoop(h))
      modifies this`handlers, this`steps
      ensures Valid() && steps == old(steps) + [AfterLoop(h)]
      ensures cutover.state == Verified ==> handlers[h].stage == Confirming
      ensures handlers[h].stage == Finished ==> cutover.state == Flipped
    {
      RunNext(BEGIN, steps, View(), AfterLoop(h));
      ReachableIsBound(steps, View());
      handlers := handlers[h := handlers[h].(stage := if cutover.state == Verified then Confirming else Finished)];
      steps := steps + [AfterLoop(h)];
    }

    // A flip has its evidence: a clean tick, begun after the stop.
    method OnConfirmed(h: nat)
      requires Valid() && Enabled(View(), Confirmed(h))
      modifies this`handlers, this`steps, cutover
      ensures Valid() && steps == old(steps) + [Confirmed(h)]
      ensures cutover.state == Flipped ==> exists n: nat :: CleanTick(steps, n)
      ensures cutover.state != old(cutover.state) ==> old(cutover.state) == Verified && cutover.state == Flipped
    {
      RunNext(BEGIN, steps, View(), Confirmed(h));
      handlers := handlers[h := handlers[h].(stage := Finished)];
      var _ := cutover.Flip();
      steps := steps + [Confirmed(h)];
      VerifiedExactlyByACleanTick(steps, View());
    }
  }
}
