/** What the daemon asks of the world around it may fail. */
module Media {
  /** Something outside, and how often it has failed to do what it was asked. */
  class Medium {
    ghost var faults: nat

    constructor ()
      ensures faults == 0
    {
      faults := 0;
    }

    method Try() returns (ok: bool)
      modifies this
      ensures faults == if ok then old(faults) else old(faults) + 1
    {
      ok := *;
      if !ok {
        faults := faults + 1;
      }
    }
  }
}
