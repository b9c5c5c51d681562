/**
 * TurnoverCounter: a rate limiter whose recorded turnover decays linearly to
 * zero over a time range. Amounts are doubles in the source and reals here;
 * the clock is a SimulatorDateSource read in nanoseconds.
 */
module TurnoverCounter {
  import opened Wrappers
  import opened DateSourceHelper
  import SDS = SimulatorDateSource

  function Max(a: int, b: int): int { if a >= b then a else b }

  /** getLastVal: the recorded value scaled by max(range - elapsed, 0) / range. */
  function Decayed(lastValue: real, lastTsNanos: int, now: int, rangeNanos: int): (r: real)
    requires rangeNanos > 0
  {
    lastValue * (Max(rangeNanos - (now - lastTsNanos), 0) as real) / (rangeNanos as real)
  }

  /** The decay is linear: the full value at the recording time, a fraction in between, nothing once the range has passed. */
  lemma DecayIsLinear(lastValue: real, lastTsNanos: int, elapsed: int, rangeNanos: int)
    requires rangeNanos > 0 && elapsed >= 0
    ensures elapsed == 0 ==> Decayed(lastValue, lastTsNanos, lastTsNanos + elapsed, rangeNanos) == lastValue
    ensures elapsed >= rangeNanos ==> Decayed(lastValue, lastTsNanos, lastTsNanos + elapsed, rangeNanos) == 0.0
    ensures elapsed < rangeNanos ==>
              Decayed(lastValue, lastTsNanos, lastTsNanos + elapsed, rangeNanos)
              == lastValue * ((rangeNanos - elapsed) as real) / (rangeNanos as real)
    ensures lastValue >= 0.0 ==>
              0.0 <= Decayed(lastValue, lastTsNanos, lastTsNanos + elapsed, rangeNanos) <= lastValue
  {
    var f := (Max(rangeNanos - elapsed, 0) as real) / (rangeNanos as real);
    assert 0.0 <= f <= 1.0;
    assert Decayed(lastValue, lastTsNanos, lastTsNanos + elapsed, rangeNanos) == lastValue * f;
    if lastValue >= 0.0 {
      assert lastValue * f <= lastValue * 1.0;
    }
  }

  /** canAddValue(v) for v > 0: the decayed value plus v stays within the maximum. */
  function CanAdd(lastValue: real, lastTsNanos: int, now: int, rangeNanos: int, maxValue: real, value: real): bool
    requires rangeNanos > 0
  {
    Decayed(lastValue, lastTsNanos, now, rangeNanos) + value <= maxValue
  }

  /** What addValue records: the decayed value plus v, at the current time; it is then read back undecayed. */
  lemma AddRecordsUndecayed(lastValue: real, lastTsNanos: int, now: int, rangeNanos: int, value: real)
    requires rangeNanos > 0
    ensures var v := Decayed(lastValue, lastTsNanos, now, rangeNanos) + value;
            Decayed(v, now, now, rangeNanos) == v
  {
  }

  class TurnoverCounter {
    var dateSource: SDS.SimulatorDateSource
    const maxValue: real
    const rangeNanos: int
    var lastTsNanos: int
    var lastValue: real

    /** The range is kept in nanoseconds. */
    constructor (rangeMillis: int, maxValue: real, dateSource: SDS.SimulatorDateSource)
      requires rangeMillis > 0
      ensures rangeNanos == MsToNs(rangeMillis) && rangeNanos > 0 && this.maxValue == maxValue
      ensures lastTsNanos == 0 && lastValue == 0.0 && this.dateSource == dateSource
    {
      rangeNanos := MsToNs(rangeMillis);
      this.maxValue := maxValue;
      this.dateSource := dateSource;
      lastTsNanos := 0;
      lastValue := 0.0;
    }

    /** The decayed value at the clock's current reading. */
    function LastVal(): real
      requires rangeNanos > 0
      reads this, dateSource
    {
      Decayed(lastValue, lastTsNanos, dateSource.ctNanos, rangeNanos)
    }

    method GetLastVal() returns (r: real)
      requires rangeNanos > 0
      ensures r == LastVal()
    {
      var now := dateSource.Nanos();
      r := lastValue * (Max(rangeNanos - (now - lastTsNanos), 0) as real) / (rangeNanos as real);
    }

    /**
     * addValue: a non-positive value throws IllegalArgumentException; otherwise
     * the decayed value plus v is recorded at the current time, and
     * ValidationException is thrown after recording when that exceeds the maximum.
     */
    method AddValue(value: real) returns (r: Result<()>)
      requires rangeNanos > 0
      modifies this
      ensures dateSource == old(dateSource)
      ensures value <= 0.0 ==> r == Err(IllegalArgument) && lastValue == old(lastValue) && lastTsNanos == old(lastTsNanos)
      ensures value > 0.0 ==>
                && lastValue == Decayed(old(lastValue), old(lastTsNanos), dateSource.ctNanos, rangeNanos) + value
                && lastTsNanos == dateSource.ctNanos
                && (r == Err(Validation) <==> lastValue > maxValue)
                && (r.Ok? <==> !(lastValue > maxValue))
    {
      if value <= 0.0 {
        return Err(IllegalArgument);
      }
      var decayed := GetLastVal();
      AddRecordsUndecayed(old(lastValue), old(lastTsNanos), dateSource.ctNanos, rangeNanos, value);
      lastValue := decayed + value;
      lastTsNanos := dateSource.Nanos();
      var after := GetLastVal();
      assert after == lastValue;
      if after > maxValue {
        return Err(Validation);
      }
      return Ok(());
    }

    /** canAddValue: IllegalArgumentException for a non-positive value, else whether it fits. */
    method CanAddValue(value: real) returns (r: Result<bool>)
      requires rangeNanos > 0
      ensures value <= 0.0 ==> r == Err(IllegalArgument)
      ensures value > 0.0 ==> r == Ok(CanAdd(lastValue, lastTsNanos, dateSource.ctNanos, rangeNanos, maxValue, value))
    {
      if value <= 0.0 {
        return Err(IllegalArgument);
      }
      var v := GetLastVal();
      return Ok(v + value <= maxValue);
    }

    /** runIfCan: when a unit fits, record it and run the action; report whether it ran. */
    method RunIfCan() returns (ran: bool)
      requires rangeNanos > 0
      modifies this
      ensures dateSource == old(dateSource)
      ensures ran == CanAdd(old(lastValue), old(lastTsNanos), dateSource.ctNanos, rangeNanos, maxValue, 1.0)
      ensures ran ==> lastValue == Decayed(old(lastValue), old(lastTsNanos), dateSource.ctNanos, rangeNanos) + 1.0
                      && lastTsNanos == dateSource.ctNanos && lastValue <= maxValue
      ensures !ran ==> lastValue == old(lastValue) && lastTsNanos == old(lastTsNanos)
    {
      var can := CanAddValue(1.0);
      ran := false;
      if can == Ok(true) {
        var r := AddValue(1.0);
        // a unit that fits is never rejected
        if r.Ok? {
          ran := true;
        }
      }
    }

    /** setDateSource: null throws NullPointerException and keeps the clock. */
    method SetDateSource(ds: SDS.SimulatorDateSource?) returns (r: Result<()>)
      modifies this
      ensures ds == null ==> r == Err(NullPointer) && dateSource == old(dateSource)
      ensures ds != null ==> r == Ok(()) && dateSource == ds
      ensures lastValue == old(lastValue) && lastTsNanos == old(lastTsNanos)
    {
      if ds == null {
        return Err(NullPointer);
      }
      dateSource := ds;
      return Ok(());
    }
  }

  /** For a positive value, canAddValue holds exactly when addValue at the same instant would not throw. */
  lemma CanAddIffAddAccepted(lastValue: real, lastTsNanos: int, now: int, rangeNanos: int, maxValue: real, value: real)
    requires rangeNanos > 0 && value > 0.0
    ensures var recorded := Decayed(lastValue, lastTsNanos, now, rangeNanos) + value;
            CanAdd(lastValue, lastTsNanos, now, rangeNanos, maxValue, value) <==> !(Decayed(recorded, now, now, rangeNanos) > maxValue)
  {
    AddRecordsUndecayed(lastValue, lastTsNanos, now, rangeNanos, value);
  }

  /**
   * A one-second counter allowing 2: two units fit and a third does not;
   * half a second later half the turnover has decayed and a unit fits again.
   * A rejected add still counts.
   */
  method TurnoverScenario() returns (third: bool, later: bool, rejected: Result<()>, afterReject: real)
    ensures !third && later
    ensures rejected == Err(Validation) && afterReject == 3.0
  {
    var clock := new SDS.SimulatorDateSource();
    var counter := new TurnoverCounter(1000, 2.0, clock);
    var a := counter.AddValue(1.0);
    var b := counter.AddValue(1.0);
    var c := counter.CanAddValue(1.0);
    third := c == Ok(true);
    clock.AddMillis(500);
    var d := counter.CanAddValue(1.0);
    later := d == Ok(true);
    rejected := counter.AddValue(2.0);
    afterReject := counter.lastValue;
  }
}
