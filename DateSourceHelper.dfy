/** Conversions between nanoseconds and milliseconds since the epoch. */
module DateSourceHelper {

  const NanosPerMilli: int := 1_000_000

  /**
   * nsToMs: Java long division by 1_000_000, which truncates toward zero
   * (Dafny's own division on int rounds toward negative infinity).
   */
  function NsToMs(nanos: int): (ms: int)
    ensures nanos >= 0 ==> 0 <= ms && ms * NanosPerMilli <= nanos < (ms + 1) * NanosPerMilli
    ensures nanos <= 0 ==> ms <= 0 && (ms - 1) * NanosPerMilli < nanos <= ms * NanosPerMilli
  {
    if nanos >= 0 then nanos / NanosPerMilli else -((-nanos) / NanosPerMilli)
  }

  /** msToNs: multiplication by 1_000_000; converting back gives the millis again. */
  function MsToNs(millis: int): (nanos: int)
    ensures NsToMs(nanos) == millis
    ensures nanos % NanosPerMilli == 0
  {
    millis * NanosPerMilli
  }

  /** Round trip: nsToMs(msToNs(m)) == m, and msToNs is injective. */
  lemma MsToNsRoundTrip(m1: int, m2: int)
    ensures NsToMs(MsToNs(m1)) == m1
    ensures MsToNs(m1) == MsToNs(m2) ==> m1 == m2
  {
    assert NsToMs(MsToNs(m2)) == m2;
  }

  /** nsToMs is monotone. */
  lemma NsToMsMonotone(a: int, b: int)
    requires a <= b
    ensures NsToMs(a) <= NsToMs(b)
  {
  }

  /** Converting nanos to millis and back loses less than one millisecond and never rounds up. */
  lemma NsToMsToNs(nanos: int)
    requires nanos >= 0
    ensures MsToNs(NsToMs(nanos)) <= nanos < MsToNs(NsToMs(nanos)) + NanosPerMilli
  {
  }

  /** The two readings of the clock test: 1_000 ns is 0 ms and 1_000_000 ns is 1 ms. */
  lemma MillisOfSmallNanos()
    ensures NsToMs(1_000) == 0 && NsToMs(1_000_000) == 1 && NsToMs(-1_000) == 0
  {
  }
}
