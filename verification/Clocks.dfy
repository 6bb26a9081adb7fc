/** Time as the workloads and the runner see it: a natural number that never runs backwards. */
module Clocks {
  class Clock {
    var now: nat

    constructor ()
    {
      now := 0;
    }

    /** Reads the time; any amount of it may have passed meanwhile. */
    method Read() returns (t: nat)
      modifies this
      ensures t == now && now >= old(now)
    {
      var passed :| 0 <= passed;
      now := now + passed;
      t := now;
    }

    method Sleep(w: nat)
      modifies this
      ensures now >= old(now) + w
    {
      var late :| 0 <= late;
      now := now + w + late;
    }
  }
}
