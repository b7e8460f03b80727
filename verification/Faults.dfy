/**
 What a call to a store outside the process may do.

 Every database statement, object request and file operation draws one fault. Nothing is
 assumed about which one: a theorem over fault lists covers every pattern of outages.
 */
module Faults {
  datatype Fault =
    | Works           // the call takes effect and says so
    | Fails           // no effect, an error is reported
    | FailsAfter      // the effect happens, an error is reported
    | Contended       // no effect, a conditional write is told that the object exists
    | ContendedAfter  // a client's own retry collides with the write that already landed
  {
    /** The statement or request reached the store and changed it. */
    predicate TakesEffect() {
      Works? || FailsAfter? || ContendedAfter?
    }
  }

  /** The outside world as the imperative code meets it: each draw is arbitrary, and recorded. */
  class Oracle {
    ghost var log: seq<Fault>

    constructor ()
      ensures log == []
    {
      log := [];
    }

    method Draw() returns (fault: Fault)
      modifies this
      ensures log == old(log) + [fault]
    {
      fault := *;
      log := log + [fault];
    }
  }
}
