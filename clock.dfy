/** The wall clock behind `new Date()`, whose readings never go backwards. */
module SystemClock {

  class Clock {
    /** Milliseconds since the epoch at the latest reading. */
    var now: nat

    constructor (start: nat)
      ensures now == start
    {
      now := start;
    }

    /** One `new Date()`: some instant no earlier than the previous reading. */
    method Read() returns (t: nat)
      modifies this
      ensures old(now) <= now && t == now
    {
      var next :| next >= now;
      now := next;
      t := now;
    }
  }
}
