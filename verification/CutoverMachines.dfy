/** The cutover's state machine: aws-dms/runner/src/cutover-state.ts. */
module CutoverMachines {
  datatype CutoverState = Running | Draining | Verified | Flipped

  datatype TransitionResult = Moved(state: CutoverState) | Refused(state: CutoverState, reason: string)

  function NameOf(s: CutoverState): string {
    match s
    case Running => "running"
    case Draining => "draining"
    case Verified => "verified"
    case Flipped => "flipped"
  }

  function AttemptTransition(current: CutoverState, requiredFrom: CutoverState, next: CutoverState,
                             actionName: string): (CutoverState, TransitionResult) {
    if current != requiredFrom then
      var reason := "cannot " + actionName + " from " + NameOf(current) + ", expected " + NameOf(requiredFrom);
      (current, Refused(current, reason))
    else (next, Moved(next))
  }

  function BeginDraining(s: CutoverState): (CutoverState, TransitionResult) {
    AttemptTransition(s, Running, Draining, "beginDraining")
  }

  function MarkVerified(s: CutoverState): (CutoverState, TransitionResult) {
    AttemptTransition(s, Draining, Verified, "markVerified")
  }

  function MarkFlipped(s: CutoverState): (CutoverState, TransitionResult) {
    AttemptTransition(s, Verified, Flipped, "markFlipped")
  }

  // The states entered on the way to s, in order.
  function EnteredUpTo(s: CutoverState): seq<CutoverState> {
    match s
    case Running => []
    case Draining => [Draining]
    case Verified => [Draining, Verified]
    case Flipped => [Draining, Verified, Flipped]
  }

  class CutoverStateMachine {
    var state: CutoverState
    ghost var entered: seq<CutoverState>

    // Each state is entered at most once and only in order.
    ghost predicate Valid()
      reads this
    {
      entered == EnteredUpTo(state)
    }

    constructor ()
      ensures Valid() && state == Running
    {
      state, entered := Running, [];
    }

    method Begin() returns (result: TransitionResult)
      requires Valid()
      modifies this
      ensures Valid() && (state, result) == BeginDraining(old(state))
      ensures old(state) == Running ==> state == Draining && result == Moved(Draining)
      ensures old(state) != Running ==> state == old(state) && result.Refused? && result.state == state
      ensures entered == old(entered) + (if result.Moved? then [Draining] else [])
    {
      var (next, r) := AttemptTransition(state, Running, Draining, "beginDraining");
      entered := entered + (if r.Moved? then [next] else []);
      state, result := next, r;
    }

    method Verify() returns (result: TransitionResult)
      requires Valid()
      modifies this
      ensures Valid() && (state, result) == MarkVerified(old(state))
      ensures old(state) == Draining ==> state == Verified && result == Moved(Verified)
      ensures old(state) != Draining ==> state == old(state) && result.Refused? && result.state == state
      ensures entered == old(entered) + (if result.Moved? then [Verified] else [])
    {
      var (next, r) := AttemptTransition(state, Draining, Verified, "markVerified");
      entered := entered + (if r.Moved? then [next] else []);
      state, result := next, r;
    }

    method Flip() returns (result: TransitionResult)
      requires Valid()
      modifies this
      ensures Valid() && (state, result) == MarkFlipped(old(state))
      ensures old(state) == Verified ==> state == Flipped && result == Moved(Flipped)
      ensures old(state) != Verified ==> state == old(state) && result.Refused? && result.state == state
      ensures entered == old(entered) + (if result.Moved? then [Flipped] else [])
    {
      var (next, r) := AttemptTransition(state, Verified, Flipped, "markFlipped");
      entered := entered + (if r.Moved? then [next] else []);
      state, result := next, r;
    }
  }
}
