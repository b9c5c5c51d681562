/**
 * OhlcProducer: builds bars from a stream of (time, price) ticks. Each tick's
 * time is mapped by an aligner to the start of its bar; a tick aligned after
 * the open bar completes it. Times are milliseconds (UTC), prices reals; the
 * bar-created and bar-completed consumers are modelled as logs of the bars
 * they would receive.
 */
module OhlcProducer {
  import opened Wrappers
  import O = Ohlc
  import Arith

  /** The producer's prices and the open bar's time; null is None. */
  datatype Prices = Prices(open: Option<real>, high: Option<real>, low: Option<real>, close: Option<real>, curBarTime: Option<int>)

  /** Either no price yet, or four prices with high and low bounding open and close; an open bar has prices. */
  predicate Inv(s: Prices)
  {
    && (s.open.Some? <==> s.high.Some?) && (s.open.Some? <==> s.low.Some?) && (s.open.Some? <==> s.close.Some?)
    && (s.open.Some? ==>
          s.low.value <= s.open.value <= s.high.value && s.low.value <= s.close.value <= s.high.value)
    && (s.curBarTime.Some? ==> s.open.Some?)
  }

  /** The bar the prices make. */
  function BarOf(symbol: string, time: int, s: Prices): (b: O.Bar)
    requires Inv(s) && s.open.Some?
    ensures O.Valid(b)
  {
    O.Bar(symbol, time, s.open.value, s.high.value, s.low.value, s.close.value, map[])
  }

  /** addPrice: a clear (or a first price) starts over at the price; then high and low widen to it and it becomes the close. */
  function AddPriceState(s: Prices, price: real, clear: bool): (r: Prices)
    requires Inv(s)
  {
    var reset := s.open.None? || clear;
    var open := if reset then price else s.open.value;
    var high := if reset then price else s.high.value;
    var low := if reset then price else s.low.value;
    Prices(Some(open), Some(if high < price then price else high), Some(if low > price then price else low),
           Some(price), s.curBarTime)
  }

  /** What update returns and reports: the new prices, the completed bar and the created bar. */
  datatype Step = Step(state: Prices, completed: Option<O.Bar>, created: Option<O.Bar>)

  /** update, with the tick's aligned time given. */
  function UpdateStep(symbol: string, s: Prices, aligned: int, barTime: int, price: real): Step
    requires Inv(s)
  {
    var done := s.curBarTime.Some? && aligned > s.curBarTime.value;
    var completed := if done then Some(BarOf(symbol, s.curBarTime.value, s)) else None;
    var s1 := if done then s.(curBarTime := None, open := s.close) else s;
    if s1.curBarTime.None? then
      var first := if aligned == barTime then price else if s1.close.Some? then s1.close.value else price;
      var s2 := AddPriceState(s1, first, true).(curBarTime := Some(aligned));
      var created := BarOf(symbol, aligned, s2);
      var s3 := if aligned != barTime then AddPriceState(s2, price, false) else s2;
      Step(s3, completed, Some(created))
    else
      Step(AddPriceState(s1, price, false), completed, None)
  }

  /**
   * addPrice keeps the invariant. With clear, open, high, low and close are
   * all the price; without, the open stays, high and low widen to the price,
   * and the close is the price.
   */
  lemma AddPriceSpec(s: Prices, price: real, clear: bool)
    requires Inv(s)
    ensures var r := AddPriceState(s, price, clear);
            && Inv(r) && r.curBarTime == s.curBarTime && r.close == Some(price)
            && (clear || s.open.None? ==> r.open == Some(price) && r.high == Some(price) && r.low == Some(price))
            && (!clear && s.open.Some? ==>
                  && r.open == s.open
                  && r.high == Some(O.Max(s.high.value, price))
                  && r.low == Some(O.Min(s.low.value, price)))
  {
  }

  /**
   * update keeps the invariant. It returns a bar exactly when there is an
   * open bar and the tick aligns after it; that bar carries the open bar's
   * time and prices.
   */
  lemma UpdateCompletes(symbol: string, s: Prices, aligned: int, barTime: int, price: real)
    requires Inv(s)
    ensures var st := UpdateStep(symbol, s, aligned, barTime, price);
            && Inv(st.state)
            && (st.completed.Some? <==> s.curBarTime.Some? && aligned > s.curBarTime.value)
            && (st.completed.Some? ==>
                  && O.Valid(st.completed.value)
                  && st.completed.value.time == s.curBarTime.value
                  && st.completed.value.open == s.open.value && st.completed.value.high == s.high.value
                  && st.completed.value.low == s.low.value && st.completed.value.close == s.close.value)
  {
  }

  /**
   * A tick that opens a bar (none open, or aligned after the open one) sets
   * the bar time to its aligned time. On a boundary the new bar is the tick's
   * price alone; off a boundary it opens at the previous close (the price if
   * there is none) and then takes the tick. The created bar is the bar as
   * opened, before the tick off a boundary is added.
   */
  lemma UpdateOpens(symbol: string, s: Prices, aligned: int, barTime: int, price: real)
    requires Inv(s)
    requires s.curBarTime.None? || aligned > s.curBarTime.value
    ensures var st := UpdateStep(symbol, s, aligned, barTime, price);
            var prev := if s.close.Some? then s.close.value else price;
            && st.state.curBarTime == Some(aligned) && st.created.Some?
            && st.created.value.time == aligned
            && (aligned == barTime ==>
                  && st.state == Prices(Some(price), Some(price), Some(price), Some(price), Some(aligned))
                  && st.created.value == BarOf(symbol, aligned, st.state))
            && (aligned != barTime ==>
                  && st.state == Prices(Some(prev), Some(O.Max(prev, price)), Some(O.Min(prev, price)), Some(price), Some(aligned))
                  && st.created.value.open == prev && st.created.value.close == prev
                  && st.created.value.high == prev && st.created.value.low == prev)
  {
  }

  /** A tick aligned no later than the open bar is folded into it: no bar is completed or created. */
  lemma UpdateFolds(symbol: string, s: Prices, aligned: int, barTime: int, price: real)
    requires Inv(s) && s.curBarTime.Some? && aligned <= s.curBarTime.value
    ensures UpdateStep(symbol, s, aligned, barTime, price) == Step(AddPriceState(s, price, false), None, None)
  {
  }

  class OhlcProducer {
    const symbol: string
    const aligner: int -> int
    var open: Option<real>
    var high: Option<real>
    var low: Option<real>
    var close: Option<real>
    var curBarTime: Option<int>
    /** Whether consumers are registered, and the bars they have been given. */
    var onBarCompleted: bool
    var onBarCreated: bool
    var completedLog: seq<O.Bar>
    var createdLog: seq<O.Bar>

    function State(): Prices
      reads this
    {
      Prices(open, high, low, close, curBarTime)
    }

    constructor (symbol: string, aligner: int -> int)
      ensures this.symbol == symbol && this.aligner == aligner
      ensures State() == Prices(None, None, None, None, None) && Inv(State())
      ensures !onBarCompleted && !onBarCreated && completedLog == [] && createdLog == []
    {
      this.symbol := symbol;
      this.aligner := aligner;
      open, high, low, close, curBarTime := None, None, None, None, None;
      onBarCompleted, onBarCreated := false, false;
      completedLog, createdLog := [], [];
    }

    method SetOnBarCreated(on: bool)
      modifies this
      ensures onBarCreated == on && State() == old(State()) && onBarCompleted == old(onBarCompleted)
      ensures completedLog == old(completedLog) && createdLog == old(createdLog)
    {
      onBarCreated := on;
    }

    method SetOnBarCompleted(on: bool)
      modifies this
      ensures onBarCompleted == on && State() == old(State()) && onBarCreated == old(onBarCreated)
      ensures completedLog == old(completedLog) && createdLog == old(createdLog)
    {
      onBarCompleted := on;
    }

    method AddPrice(price: real, clear: bool)
      requires Inv(State())
      modifies this
      ensures State() == AddPriceState(old(State()), price, clear)
      ensures onBarCompleted == old(onBarCompleted) && onBarCreated == old(onBarCreated)
      ensures completedLog == old(completedLog) && createdLog == old(createdLog)
    {
      if open.None? || clear {
        open := Some(price);
        high := Some(price);
        low := Some(price);
      }
      if high.value < price {
        high := Some(price);
      }
      if low.value > price {
        low := Some(price);
      }
      close := Some(price);
    }

    /** update(barTime, price): the completed bar or None; consumers registered receive the bars. */
    method Update(barTime: int, price: real) returns (ret: Option<O.Bar>)
      requires Inv(State())
      modifies this
      ensures var st := UpdateStep(symbol, old(State()), aligner(barTime), barTime, price);
              && State() == st.state && ret == st.completed
              && completedLog == old(completedLog) + (if onBarCompleted && ret.Some? then [ret.value] else [])
              && createdLog == old(createdLog) + (if onBarCreated && st.created.Some? then [st.created.value] else [])
      ensures Inv(State()) && onBarCompleted == old(onBarCompleted) && onBarCreated == old(onBarCreated)
    {
      ghost var s := State();
      UpdateCompletes(symbol, s, aligner(barTime), barTime, price);
      ret := None;
      var aligned := aligner(barTime);
      if curBarTime.Some? && aligned > curBarTime.value {
        ret := Some(O.Bar(symbol, curBarTime.value, open.value, high.value, low.value, close.value, map[]));
        curBarTime := None;
        open := close;
        if onBarCompleted {
          completedLog := completedLog + [ret.value];
        }
      }
      if curBarTime.None? {
        if aligned == barTime {
          AddPrice(price, true);
        } else {
          AddPrice(if close.Some? then close.value else price, true);
        }
        curBarTime := Some(aligned);
        if onBarCreated {
          createdLog := createdLog + [O.Bar(symbol, aligned, open.value, high.value, low.value, close.value, map[])];
        }
        if aligned != barTime {
          AddPrice(price, false);
        }
      } else {
        AddPrice(price, false);
      }
    }
  }

  function Abs(x: int): nat { if x < 0 then -x else x }

  /** minutesAligned's aligner: the time truncated to the minute, then back to a multiple of minutes within the hour. */
  function Align(minutes: int, t: int): int
    requires minutes != 0
  {
    var minuteOfHour := (t / 60000) % 60;
    (t / 60000) * 60000 - (minuteOfHour % minutes) * 60000
  }

  /** minutesAligned: 60 % minutes must be zero (a zero divisor throws first). */
  function MinutesAligned(minutes: int): (r: Result<int -> int>)
    ensures r.Ok? <==> minutes != 0 && 60 % minutes == 0
    ensures r.Err? ==> (minutes == 0 ==> r.error == Arithmetic) && (minutes != 0 ==> r.error == IllegalArgument)
    ensures r.Ok? ==> forall t :: r.value(t) == Align(minutes, t)
  {
    if minutes == 0 then Err(Arithmetic)
    else if 60 % minutes != 0 then Err(IllegalArgument)
    else Ok(t => Align(minutes, t))
  }

  /** A remainder depends only on the divisor's magnitude. */
  lemma ModAbs(a: int, b: int)
    requires b != 0
    ensures a % b == a % Abs(b)
  {
    if b < 0 {
      assert a == b * (a / b) + a % b;
      assert a == (-b) * (-(a / b)) + a % b;
      Arith.DivModUnique(a, -b, -(a / b), a % b);
    }
  }

  /** Within the hour: the minute less its offset is a multiple of the slot, the offset below the slot. */
  lemma SlotOfMinute(minutes: int, mm: int)
    requires minutes != 0 && 0 <= mm < 60
    ensures var r := mm % minutes;
            && 0 <= r <= Abs(minutes) - 1 && r <= mm
            && (mm - r) % minutes == 0
  {
    var k := Abs(minutes);
    var r := mm % minutes;
    ModAbs(mm, minutes);
    if mm < k {
      Arith.DivModUnique(mm, k, 0, mm);
    }
    var j := mm / k;
    assert mm - r == k * j;
    Arith.DivModUnique(mm - r, k, j, 0);
    ModAbs(mm - r, minutes);
  }

  /**
   * The aligner of minutesAligned(minutes) maps a time to the start of its
   * |minutes|-minute slot: a whole minute, a multiple of |minutes| into the
   * hour, at most the time and less than one slot before it; aligning again
   * changes nothing.
   */
  lemma AlignSpec(minutes: int, t: int)
    requires minutes != 0 && 60 % minutes == 0
    ensures var k := Abs(minutes);
            var a := Align(minutes, t);
            && a <= t < a + k * 60000
            && a % 60000 == 0
            && ((a / 60000) % 60) % minutes == 0
            && Align(minutes, a) == a
  {
    var k := Abs(minutes);
    var m := t / 60000;
    var mm := m % 60;
    var r := mm % minutes;
    SlotOfMinute(minutes, mm);
    var a := Align(minutes, t);
    assert a == (m - r) * 60000;
    assert t - m * 60000 < 60000;
    assert a / 60000 == m - r;
    var h := m / 60;
    assert m - r == 60 * h + (mm - r);
    assert (m - r) % 60 == mm - r;
  }
}
