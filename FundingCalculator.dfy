/**
 * FundingCalculator: follows the interest-rate and premium-index ticks of a
 * BitMEX pair and, once a funding instant (04:00, 12:00 or 20:00 UTC) has
 * passed, emits the funding rate for it. Times are milliseconds since the
 * epoch, in UTC; prices are reals. The funding and state consumers are modelled
 * as logs of what they would receive.
 */
module FundingCalculator {
  import opened Wrappers
  import Arith
  import C = CcyPair

  const HourMs: int := 3600000
  const FourHoursMs: int := 4 * HourMs
  const EightHoursMs: int := 8 * HourMs
  const DayMs: int := 24 * HourMs

  /** tm is the funding instant nearestFundingTime gives for t: a funding instant, not before t, less than eight hours after. */
  predicate IsFundingTimeFor(t: int, tm: int)
  {
    tm % EightHoursMs == FourHoursMs && t <= tm < t + EightHoursMs
  }

  /** The first funding instant not before t. */
  function NextFundingTime(t: int): int
  {
    var offset := (t - FourHoursMs) % EightHoursMs;
    if offset == 0 then t else t - offset + EightHoursMs
  }

  lemma NextFundingTimeSpec(t: int)
    ensures IsFundingTimeFor(t, NextFundingTime(t))
  {
    var q := (t - FourHoursMs) / EightHoursMs;
    var offset := (t - FourHoursMs) % EightHoursMs;
    assert t - FourHoursMs == EightHoursMs * q + offset;
    if offset == 0 {
      Arith.DivModUnique(t, EightHoursMs, q, FourHoursMs);
    } else {
      Arith.DivModUnique(t - offset + EightHoursMs, EightHoursMs, q + 1, FourHoursMs);
    }
  }

  /** At most one funding instant is not before t and less than eight hours after it. */
  lemma FundingTimeUnique(t: int, a: int, b: int)
    requires IsFundingTimeFor(t, a) && IsFundingTimeFor(t, b)
    ensures a == b
  {
    var qa, qb := a / EightHoursMs, b / EightHoursMs;
    assert a == EightHoursMs * qa + FourHoursMs;
    assert b == EightHoursMs * qb + FourHoursMs;
  }

  /**
   * nearestFundingTime: from 04:00 UTC of the time's day, step eight hours at
   * a time until not before the time.
   */
  method NearestFundingTime(currTime: int) returns (tm: int)
    ensures IsFundingTimeFor(currTime, tm)
    ensures tm == NextFundingTime(currTime)
  {
    var day := currTime / DayMs;
    tm := day * DayMs + FourHoursMs;
    Arith.DivModUnique(tm, EightHoursMs, 3 * day, FourHoursMs);
    while tm < currTime
      invariant tm % EightHoursMs == FourHoursMs
      invariant tm < currTime + EightHoursMs
      decreases currTime - tm
    {
      Arith.DivModUnique(tm + EightHoursMs, EightHoursMs, tm / EightHoursMs + 1, FourHoursMs);
      tm := tm + EightHoursMs;
    }
    NextFundingTimeSpec(currTime);
    FundingTimeUnique(currTime, tm, NextFundingTime(currTime));
  }

  /** A tick: its symbol, price and local time. */
  datatype Tick = Tick(symbol: string, price: real, time: int)

  /** What accept is given: a tick (which is time-stamped), another time-stamped object, or anything else. */
  datatype Input = TickInput(tick: Tick) | Timed(time: int) | Other

  function InputTime(input: Input): Option<int>
  {
    match input
    case TickInput(t) => Some(t.time)
    case Timed(t) => Some(t)
    case Other => None
  }

  /** The last tick of each followed symbol: premium index, left- and right-currency interest rates. */
  datatype Slots = Slots(premium: Option<Tick>, lccy: Option<Tick>, rccy: Option<Tick>)

  /** A Funding record: the funding instant, the pair's symbol and the rate. */
  datatype Funding = Funding(time: int, symbol: string, rate: real)

  /** A FundingCalcState record: the last tick time (None for the initial minimum) and the three slots. */
  datatype CalcState = CalcState(lastTickTime: Option<int>, premium: Option<Tick>, lccy: Option<Tick>, rccy: Option<Tick>)

  /** The symbols the constructor derives from the pair. */
  datatype Symbols = Symbols(left: string, right: string, premium: string)

  function DerivedSymbols(pair: C.Pair): Symbols
  {
    Symbols("BMEX:" + pair.ccyLeft + "BON8H", "BMEX:" + pair.ccyRight + "BON8H",
            "BMEX:" + pair.ccyLeft + pair.ccyRight + "PI8H")
  }

  datatype Slot = LccySlot | RccySlot | PremiumSlot

  /** The consumer registered for a symbol; a later put replaces an earlier one under the same key. */
  function SlotOf(syms: Symbols, symbol: string): Option<Slot>
  {
    if symbol == syms.premium then Some(PremiumSlot)
    else if symbol == syms.right then Some(RccySlot)
    else if symbol == syms.left then Some(LccySlot)
    else None
  }

  /**
   * The premium symbol is never a rate symbol, so the three slots are all
   * reachable unless both currencies are the same, when the left-rate
   * symbol feeds the right-rate slot.
   */
  lemma DerivedSymbolsSlots(pair: C.Pair)
    requires |pair.ccyLeft| == 3 && |pair.ccyRight| == 3
    ensures var syms := DerivedSymbols(pair);
            && SlotOf(syms, syms.premium) == Some(PremiumSlot)
            && SlotOf(syms, syms.right) == Some(RccySlot)
            && (SlotOf(syms, syms.left) == Some(LccySlot) <==> pair.ccyLeft != pair.ccyRight)
  {
    var syms := DerivedSymbols(pair);
    assert |syms.premium| == 15 && |syms.left| == 13 && |syms.right| == 13;
    if pair.ccyLeft != pair.ccyRight {
      assert syms.left[5..8] == pair.ccyLeft && syms.right[5..8] == pair.ccyRight;
    }
  }

  function SetSlot(s: Slots, slot: Slot, tick: Tick): Slots
  {
    match slot
    case PremiumSlot => s.(premium := Some(tick))
    case LccySlot => s.(lccy := Some(tick))
    case RccySlot => s.(rccy := Some(tick))
  }

  /** isComplete: all three slots are set. */
  predicate AllSet(s: Slots)
  {
    s.premium.Some? && s.lccy.Some? && s.rccy.Some?
  }

  function Clamp(x: real, lo: real, hi: real): real
  {
    if x < lo then lo else if x > hi then hi else x
  }

  /**
   * getFundingRate: the premium index plus the interest rate's distance from
   * it (a third of right rate less left rate) clamped to 0.05%; an incomplete
   * calculator is an illegal argument.
   */
  function FundingRate(s: Slots): Result<real>
  {
    if !AllSet(s) then Err(IllegalArgument)
    else
      var interestRate := (s.rccy.value.price - s.lccy.value.price) / 3.0;
      var premiumRate := s.premium.value.price;
      Ok(premiumRate + Clamp(interestRate - premiumRate, -0.0005, 0.0005))
  }

  /**
   * The rate exists iff the calculator is complete. It is within 0.0005 of
   * the premium index; it is the interest rate when that is within 0.0005 of
   * the premium, and otherwise the premium moved 0.0005 towards it.
   */
  lemma FundingRateSpec(s: Slots)
    ensures FundingRate(s).Ok? <==> AllSet(s)
    ensures FundingRate(s).Err? ==> FundingRate(s).error == IllegalArgument
    ensures FundingRate(s).Ok? ==>
              var rate := FundingRate(s).value;
              var premium := s.premium.value.price;
              var interest := (s.rccy.value.price - s.lccy.value.price) / 3.0;
              && premium - 0.0005 <= rate <= premium + 0.0005
              && (premium - 0.0005 <= interest <= premium + 0.0005 ==> rate == interest)
              && (interest > premium + 0.0005 ==> rate == premium + 0.0005)
              && (interest < premium - 0.0005 ==> rate == premium - 0.0005)
  {
  }

  /** The calculator's changing state: the slots, last and next times, and what the consumers received. */
  datatype Calc = Calc(slots: Slots, lastTime: Option<int>, nextTime: Option<int>,
                       fundings: seq<Funding>, states: seq<CalcState>)

  /** The FundingCalcState the state consumer is given. */
  function Snapshot(c: Calc): CalcState
  {
    CalcState(c.lastTime, c.slots.premium, c.slots.lccy, c.slots.rccy)
  }

  /** accept's first two steps: record the time (scheduling the next funding if none), then store a followed tick. */
  function Observe(syms: Symbols, onState: bool, c: Calc, input: Input): Calc
  {
    var c1 := match InputTime(input)
              case None => c
              case Some(t) =>
                c.(nextTime := if c.nextTime.None? then Some(NextFundingTime(t)) else c.nextTime,
                   lastTime := Some(t));
    if input.TickInput? && SlotOf(syms, input.tick.symbol).Some? then
      var c2 := c1.(slots := SetSlot(c1.slots, SlotOf(syms, input.tick.symbol).value, input.tick));
      if onState then c2.(states := c2.states + [Snapshot(c2)]) else c2
    else c1
  }

  /** Whether the last time has passed the next funding instant. */
  predicate FundingDue(c: Calc)
  {
    c.nextTime.Some? && c.lastTime.Some? && c.lastTime.value > c.nextTime.value
  }

  /**
   * accept: after observing the input, a due funding is emitted (if a
   * consumer is registered) and unscheduled; computing the rate of an
   * incomplete calculator throws, leaving the funding scheduled.
   */
  function AcceptStep(symbol: string, syms: Symbols, onFunding: bool, onState: bool, c: Calc, input: Input): (Calc, Option<Exception>)
  {
    var c2 := Observe(syms, onState, c, input);
    if !FundingDue(c2) then (c2, None)
    else if !onFunding then (c2.(nextTime := None), None)
    else
      match FundingRate(c2.slots)
      case Err(e) => (c2, Some(e))
      case Ok(rate) => (c2.(fundings := c2.fundings + [Funding(c2.nextTime.value, symbol, rate)], nextTime := None), None)
  }

  /**
   * A time-stamped input becomes the last time, and schedules the first
   * funding instant not before it only when none is scheduled; any other
   * input leaves both times alone.
   */
  lemma ObserveTimes(syms: Symbols, onState: bool, c: Calc, input: Input)
    ensures var o := Observe(syms, onState, c, input);
            && o.fundings == c.fundings
            && (input.Other? ==> o == c)
            && (InputTime(input).Some? ==>
                  var t := InputTime(input).value;
                  && o.lastTime == Some(t)
                  && (c.nextTime.None? ==> o.nextTime == Some(NextFundingTime(t)) && IsFundingTimeFor(t, o.nextTime.value))
                  && (c.nextTime.Some? ==> o.nextTime == c.nextTime))
  {
    if InputTime(input).Some? {
      NextFundingTimeSpec(InputTime(input).value);
    }
  }

  /**
   * A tick of a followed symbol replaces that symbol's slot only and, with a
   * state consumer, sends it one snapshot; any other input changes no slot
   * and sends nothing.
   */
  lemma ObserveSlots(syms: Symbols, onState: bool, c: Calc, input: Input)
    ensures var o := Observe(syms, onState, c, input);
            if input.TickInput? && SlotOf(syms, input.tick.symbol).Some? then
              var tick := input.tick;
              && (SlotOf(syms, tick.symbol) == Some(PremiumSlot) ==> o.slots == c.slots.(premium := Some(tick)))
              && (SlotOf(syms, tick.symbol) == Some(LccySlot) ==> o.slots == c.slots.(lccy := Some(tick)))
              && (SlotOf(syms, tick.symbol) == Some(RccySlot) ==> o.slots == c.slots.(rccy := Some(tick)))
              && o.states == c.states + (if onState then [CalcState(Some(tick.time), o.slots.premium, o.slots.lccy, o.slots.rccy)] else [])
            else
              o.slots == c.slots && o.states == c.states
  {
  }

  /**
   * accept emits at most one funding, and only when the last time is past
   * the scheduled instant: that instant, the pair's symbol and the rate of
   * the slots. Emitting (or having no consumer) unschedules it; an
   * incomplete calculator throws an illegal argument instead and keeps it.
   */
  lemma AcceptEmits(symbol: string, syms: Symbols, onFunding: bool, onState: bool, c: Calc, input: Input)
    ensures var (r, err) := AcceptStep(symbol, syms, onFunding, onState, c, input);
            var o := Observe(syms, onState, c, input);
            && r.slots == o.slots && r.lastTime == o.lastTime && r.states == o.states
            && (!FundingDue(o) ==> r == o && err.None?)
            && (FundingDue(o) && onFunding && !AllSet(o.slots) ==> r == o && err == Some(IllegalArgument))
            && (FundingDue(o) && (!onFunding || AllSet(o.slots)) ==>
                  && err.None? && r.nextTime.None?
                  && r.fundings == o.fundings + (if onFunding then [Funding(o.nextTime.value, symbol, FundingRate(o.slots).value)] else []))
  {
    FundingRateSpec(Observe(syms, onState, c, input).slots);
  }

  /**
   * Every funding emitted from an input with a time is at a funding instant
   * strictly before that time, and (when the input scheduled it) within
   * eight hours of it.
   */
  lemma EmittedAtFundingInstant(symbol: string, syms: Symbols, onFunding: bool, onState: bool, c: Calc, input: Input)
    requires c.nextTime.Some? ==> c.nextTime.value % EightHoursMs == FourHoursMs
    ensures var (r, _) := AcceptStep(symbol, syms, onFunding, onState, c, input);
            && (r.nextTime.Some? ==> r.nextTime.value % EightHoursMs == FourHoursMs)
            && (|r.fundings| > |c.fundings| ==>
                  && |r.fundings| == |c.fundings| + 1
                  && var f := r.fundings[|c.fundings|];
                     && f.time % EightHoursMs == FourHoursMs
                     && r.lastTime.Some? && f.time < r.lastTime.value)
  {
    ObserveTimes(syms, onState, c, input);
  }

  /** setState as intended: the premium and both rates restored from the state. */
  function SetStateSlots(state: CalcState): Slots
  {
    Slots(state.premium, state.lccy, state.rccy)
  }

  /** setState as written: the right-rate slot is filled from the state's left rate. */
  function SetStateSlotsAsWritten(state: CalcState): Slots
  {
    Slots(state.premium, state.lccy, state.lccy)
  }

  /** Restoring a snapshot the state consumer received gives back the slots, and so the same funding rate. */
  lemma SetStateRestores(c: Calc)
    ensures SetStateSlots(Snapshot(c)) == c.slots
    ensures FundingRate(SetStateSlots(Snapshot(c))) == FundingRate(c.slots)
  {
  }

  /**
   * As written, restoring a snapshot whose two rates differ loses the right
   * rate: with rates 0.0003 and 0.0006 and a zero premium, the rate should be
   * 0.0001 but comes out 0.
   */
  lemma SetStateAsWrittenLosesRate()
    ensures var tick := (p: real) => Tick("", p, 0);
            var slots := Slots(Some(tick(0.0)), Some(tick(0.0003)), Some(tick(0.0006)));
            var snapshot := CalcState(None, slots.premium, slots.lccy, slots.rccy);
            && FundingRate(slots) == Ok(0.0001)
            && FundingRate(SetStateSlotsAsWritten(snapshot)) == Ok(0.0)
            && SetStateSlotsAsWritten(snapshot) != slots
  {
  }

  class FundingCalculator {
    const symbol: string
    const syms: Symbols
    var lastLccyRate: Option<Tick>
    var lastRccyRate: Option<Tick>
    var lastPremiumIndex: Option<Tick>
    var lastDateTime: Option<int>
    var nextDateTime: Option<int>
    /** Whether the consumers are registered, and what they received. */
    var onFunding: bool
    var onState: bool
    var fundings: seq<Funding>
    var states: seq<CalcState>

    function Rates(): Slots
      reads this
    {
      Slots(lastPremiumIndex, lastLccyRate, lastRccyRate)
    }

    function State(): Calc
      reads this
    {
      Calc(Rates(), lastDateTime, nextDateTime, fundings, states)
    }

    /** The constructor parses the symbol (an unparsable one throws) and derives the three followed symbols. */
    constructor (symbol: string)
      requires C.ParseSpot(symbol).Ok?
      ensures this.symbol == symbol && syms == DerivedSymbols(C.ParseSpot(symbol).value)
      ensures State() == Calc(Slots(None, None, None), None, None, [], []) && !onFunding && !onState
    {
      this.symbol := symbol;
      syms := DerivedSymbols(C.ParseSpot(symbol).value);
      lastLccyRate, lastRccyRate, lastPremiumIndex := None, None, None;
      lastDateTime, nextDateTime := None, None;
      onFunding, onState := false, false;
      fundings, states := [], [];
    }

    method OnNewFunding(on: bool)
      modifies this
      ensures onFunding == on && onState == old(onState) && State() == old(State())
    {
      onFunding := on;
    }

    method OnNewState(on: bool)
      modifies this
      ensures onState == on && onFunding == old(onFunding) && State() == old(State())
    {
      onState := on;
    }

    method IsComplete() returns (b: bool)
      ensures b <==> AllSet(Rates())
    {
      b := lastPremiumIndex.Some? && lastRccyRate.Some? && lastLccyRate.Some?;
    }

    method GetFundingRate() returns (r: Result<real>)
      ensures r == FundingRate(Rates())
    {
      var complete := IsComplete();
      if !complete {
        return Err(IllegalArgument);
      }
      var interestRate := (lastRccyRate.value.price - lastLccyRate.value.price) / 3.0;
      var premiumRate := lastPremiumIndex.value.price;
      var d := interestRate - premiumRate;
      if d < -0.0005 {
        d := -0.0005;
      } else if d > 0.0005 {
        d := 0.0005;
      }
      r := Ok(premiumRate + d);
    }

    /** accept's first half: the time and a followed tick's slot. */
    method Record(input: Input)
      modifies this
      ensures State() == Observe(syms, onState, old(State()), input)
      ensures onFunding == old(onFunding) && onState == old(onState)
    {
      var time := InputTime(input);
      if time.Some? {
        if nextDateTime.None? {
          var next := NearestFundingTime(time.value);
          nextDateTime := Some(next);
        }
        lastDateTime := time;
      }
      if input.TickInput? {
        var slot := SlotOf(syms, input.tick.symbol);
        if slot.Some? {
          match slot.value {
            case PremiumSlot => lastPremiumIndex := Some(input.tick);
            case LccySlot => lastLccyRate := Some(input.tick);
            case RccySlot => lastRccyRate := Some(input.tick);
          }
          if onState {
            states := states + [CalcState(lastDateTime, lastPremiumIndex, lastLccyRate, lastRccyRate)];
          }
        }
      }
    }

    /** accept: the exception, if getFundingRate threw. */
    method Accept(input: Input) returns (err: Option<Exception>)
      modifies this
      ensures (State(), err) == AcceptStep(symbol, syms, onFunding, onState, old(State()), input)
      ensures onFunding == old(onFunding) && onState == old(onState)
    {
      Record(input);
      err := None;
      if nextDateTime.Some? && lastDateTime.Some? && lastDateTime.value > nextDateTime.value {
        if onFunding {
          var rate := GetFundingRate();
          if rate.Err? {
            return Some(rate.error);
          }
          fundings := fundings + [Funding(nextDateTime.value, symbol, rate.value)];
        }
        nextDateTime := None;
      }
    }

    /** setState, with both rates restored from their own slots of the state. */
    method SetState(state: CalcState)
      modifies this
      ensures Rates() == SetStateSlots(state)
      ensures lastDateTime == old(lastDateTime) && nextDateTime == old(nextDateTime)
      ensures fundings == old(fundings) && states == old(states) && onFunding == old(onFunding) && onState == old(onState)
    {
      lastPremiumIndex := state.premium;
      lastRccyRate := state.rccy;
      lastLccyRate := state.lccy;
    }

    /** setState as written. */
    method SetStateAsWritten(state: CalcState)
      modifies this
      ensures Rates() == SetStateSlotsAsWritten(state)
      ensures lastDateTime == old(lastDateTime) && nextDateTime == old(nextDateTime)
      ensures fundings == old(fundings) && states == old(states) && onFunding == old(onFunding) && onState == old(onState)
    {
      lastPremiumIndex := state.premium;
      lastRccyRate := state.lccy;
      lastLccyRate := state.lccy;
    }
  }

  /** Creating a calculator fails, as parseSpot does, for an unparsable symbol. */
  method Create(symbol: string) returns (r: Result<FundingCalculator>)
    ensures r.Err? <==> C.ParseSpot(symbol).Err?
    ensures r.Err? ==> r.error == C.ParseSpot(symbol).error
    ensures r.Ok? ==> fresh(r.value) && r.value.symbol == symbol && r.value.State().slots == Slots(None, None, None)
  {
    var p := C.ParseSpot(symbol);
    if p.Err? {
      return Err(p.error);
    }
    var calculator := new FundingCalculator(symbol);
    r := Ok(calculator);
  }
}
