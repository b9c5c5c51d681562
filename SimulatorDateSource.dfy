/** A settable clock counting nanoseconds, and DateSource's millisecond reading of it. */
module SimulatorDateSource {
  import opened Wrappers
  import opened DateSourceHelper

  class SimulatorDateSource {
    var ctNanos: int

    /** The clock starts at 0 nanoseconds. */
    constructor ()
      ensures ctNanos == 0
    {
      ctNanos := 0;
    }

    method AddNanos(nanos: int)
      modifies this
      ensures ctNanos == old(ctNanos) + nanos
    {
      ctNanos := ctNanos + nanos;
    }

    method AddMillis(millis: int)
      modifies this
      ensures ctNanos == old(ctNanos) + millis * NanosPerMilli
    {
      ctNanos := ctNanos + MsToNs(millis);
    }

    /** A negative time is rejected with IllegalArgumentException and leaves the clock as it was. */
    method SetNanos(nanos: int) returns (r: Result<()>)
      modifies this
      ensures nanos < 0 ==> r == Err(IllegalArgument) && ctNanos == old(ctNanos)
      ensures nanos >= 0 ==> r == Ok(()) && ctNanos == nanos
    {
      if nanos < 0 {
        return Err(IllegalArgument);
      }
      ctNanos := nanos;
      return Ok(());
    }

    /** setMillis(m) is setNanos(msToNs(m)): it succeeds iff m >= 0 and then reads back m. */
    method SetMillis(millis: int) returns (r: Result<()>)
      modifies this
      ensures millis < 0 ==> r == Err(IllegalArgument) && ctNanos == old(ctNanos)
      ensures millis >= 0 ==> r == Ok(()) && ctNanos == MsToNs(millis) && NsToMs(ctNanos) == millis
    {
      r := SetNanos(MsToNs(millis));
    }

    method Nanos() returns (n: int)
      ensures n == ctNanos
    {
      n := ctNanos;
    }

    /** DateSource.millis: the clock in whole milliseconds, truncated toward zero. */
    method Millis() returns (ms: int)
      ensures ctNanos >= 0 ==> ms * NanosPerMilli <= ctNanos < (ms + 1) * NanosPerMilli
      ensures ms == NsToMs(ctNanos)
    {
      ms := NsToMs(ctNanos);
    }
  }

  /** The clock test: after adding 1_000 ns the clock reads 0 ms, after 1_000_000 ns more it reads 1 ms. */
  method ClockScenario() returns (first: int, second: int)
    ensures first == 0 && second == 1
  {
    var clock := new SimulatorDateSource();
    clock.AddNanos(1_000);
    first := clock.Millis();
    clock.AddNanos(999_000);
    second := clock.Millis();
  }
}
