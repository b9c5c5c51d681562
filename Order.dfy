/**
 * Order: an order of one symbol placed against a quote, as a taker at the
 * touch or as a maker one price step inside it, and its lifecycle (placed,
 * rejected, executed in parts, pulled). Prices and quantities are exact reals;
 * the fee, the instrument's price step and the conversion to exchange
 * quantity are given by the caller. Times are milliseconds. The onExecuted
 * and onPull callbacks are modelled as what they receive.
 */
module Order {
  import opened Wrappers
  import B = BidAsk

  /**
   * The constructor's price: a taker buys at the ask and sells at the bid; a
   * maker buys a step under the ask and sells a step over the bid, and needs
   * the instrument's step.
   */
  function OrderPrice(quote: B.Quote, isBuy: bool, make: bool, step: Option<real>): Result<real>
  {
    if !make then Ok(if isBuy then quote.ask else quote.bid)
    else if step.None? then Err(NullPointer)
    else Ok(if isBuy then quote.ask - step.value else quote.bid + step.value)
  }

  /** The constructor's checks in order: a price source, not both maker and dependent, then the price. */
  function Validate(quote: B.Quote, isBuy: bool, hasPrcSrc: bool, make: bool, dependent: bool, step: Option<real>): Result<real>
  {
    if !hasPrcSrc then Err(NullPointer)
    else if make && dependent then Err(IllegalArgument)
    else OrderPrice(quote, isBuy, make, step)
  }

  /**
   * A dependent maker order, or one without a price source, is refused. A
   * taker trades at the touch on its side; a maker with a positive step
   * quotes strictly inside it, by exactly the step.
   */
  lemma ValidateSpec(quote: B.Quote, isBuy: bool, hasPrcSrc: bool, make: bool, dependent: bool, step: Option<real>)
    ensures var r := Validate(quote, isBuy, hasPrcSrc, make, dependent, step);
            && (!hasPrcSrc ==> r == Err(NullPointer))
            && (hasPrcSrc && make && dependent ==> r == Err(IllegalArgument))
            && (r.Ok? <==> hasPrcSrc && !(make && dependent) && (make ==> step.Some?))
            && (r.Ok? && !make ==> r.value == (if isBuy then quote.ask else quote.bid))
            && (r.Ok? && make ==>
                  && (isBuy ==> quote.ask - r.value == step.value)
                  && (!isBuy ==> r.value - quote.bid == step.value)
                  && (step.value > 0.0 ==> (if isBuy then r.value < quote.ask else r.value > quote.bid)))
  {
  }

  /** What the order's methods change: its lifecycle, and what the callbacks received. */
  datatype Progress = Progress(placedAt: Option<int>, cancelled: Option<int>, executedAt: Option<int>,
                               executedBidAsk: Option<B.Quote>, executedQty: real, rejected: bool,
                               executedPrice: real, executions: seq<real>, pulls: nat)

  /** A new order: nothing placed, executed or cancelled, executed price -1. */
  const Fresh := Progress(None, None, None, None, 0.0, false, -1.0, [], 0)

  /** isExecuted: the executed quantity is the ordered one. */
  predicate FullyExecuted(p: Progress, qty: real)
  {
    p.executedQty == qty
  }

  /** isInactive: rejected, executed or cancelled. */
  predicate Inactive(p: Progress, qty: real)
  {
    p.rejected || FullyExecuted(p, qty) || p.cancelled.Some?
  }

  /** getExecutedPrice: only a recorded positive price. */
  function ExecutedPrice(p: Progress): Result<real>
  {
    if p.executedPrice > 0.0 then Ok(p.executedPrice) else Err(IllegalArgument)
  }

  /**
   * executeAt: adds the quantity, records price and time, then needs the
   * execution's quote (a missing one throws after those are recorded); the
   * onExecuted callback gets the quantity.
   */
  function ExecuteStep(p: Progress, qty: real, at: int, q: real, price: real, bidAsk: Option<B.Quote>, onExecuted: bool)
    : (Progress, Result<bool>)
  {
    var p1 := p.(executedQty := p.executedQty + q, executedPrice := price, executedAt := Some(at));
    if bidAsk.None? then (p1, Err(NullPointer))
    else
      var p2 := p1.(executedBidAsk := bidAsk, executions := if onExecuted then p1.executions + [q] else p1.executions);
      (p2, Ok(FullyExecuted(p2, qty)))
  }

  /**
   * pull: a second cancellation is refused and changes nothing; otherwise
   * the order is cancelled at the given time, and onPull is called once
   * (a missing one throws, the order staying cancelled).
   */
  function PullStep(p: Progress, at: int, onPull: bool): (Progress, Option<Exception>)
  {
    if p.cancelled.Some? then (p, Some(IllegalArgument))
    else
      var p1 := p.(cancelled := Some(at));
      if !onPull then (p1, Some(NullPointer)) else (p1.(pulls := p1.pulls + 1), None)
  }

  /**
   * An execution adds its quantity to the executed one and records the price
   * and time; with a quote it reports isExecuted, which holds iff the order
   * had exactly that quantity left. The executed price is readable after an
   * execution at a positive price.
   */
  lemma ExecuteSpec(p: Progress, qty: real, at: int, q: real, price: real, bidAsk: Option<B.Quote>, onExecuted: bool)
    ensures var (r, res) := ExecuteStep(p, qty, at, q, price, bidAsk, onExecuted);
            && r.executedQty == p.executedQty + q && r.executedPrice == price && r.executedAt == Some(at)
            && r.placedAt == p.placedAt && r.cancelled == p.cancelled && r.rejected == p.rejected && r.pulls == p.pulls
            && (res.Err? <==> bidAsk.None?)
            && (res.Err? ==> res.error == NullPointer && r.executions == p.executions && r.executedBidAsk == p.executedBidAsk)
            && (res.Ok? ==>
                  && r.executedBidAsk == bidAsk
                  && (res.value <==> q == qty - p.executedQty)
                  && r.executions == p.executions + (if onExecuted then [q] else []))
            && (price > 0.0 ==> ExecutedPrice(r) == Ok(price))
            && (price <= 0.0 ==> ExecutedPrice(r) == Err(IllegalArgument))
  {
  }

  /** executeAt for each quantity in turn, at one time and price, each with a quote. */
  function ExecuteAll(p: Progress, qty: real, at: int, qs: seq<real>, price: real, quote: B.Quote, onExecuted: bool): Progress
    decreases |qs|
  {
    if |qs| == 0 then p
    else ExecuteAll(ExecuteStep(p, qty, at, qs[0], price, Some(quote), onExecuted).0, qty, at, qs[1..], price, quote, onExecuted)
  }

  function Sum(qs: seq<real>): real
  {
    if |qs| == 0 then 0.0 else qs[0] + Sum(qs[1..])
  }

  /** Executions add up: the order is executed iff the quantities executed sum to what was left. */
  lemma {:induction false} ExecuteAllSum(p: Progress, qty: real, at: int, qs: seq<real>, price: real, quote: B.Quote, onExecuted: bool)
    ensures var r := ExecuteAll(p, qty, at, qs, price, quote, onExecuted);
            && r.executedQty == p.executedQty + Sum(qs)
            && r.executions == p.executions + (if onExecuted then qs else [])
            && r.cancelled == p.cancelled && r.rejected == p.rejected
            && (FullyExecuted(r, qty) <==> Sum(qs) == qty - p.executedQty)
    decreases |qs|
  {
    if |qs| > 0 {
      var p1 := ExecuteStep(p, qty, at, qs[0], price, Some(quote), onExecuted).0;
      ExecuteAllSum(p1, qty, at, qs[1..], price, quote, onExecuted);
      assert qs == [qs[0]] + qs[1..];
      if onExecuted {
        assert p.executions + [qs[0]] + qs[1..] == p.executions + qs;
      }
    }
  }

  /**
   * pull cancels an order once: the first pull with onPull set cancels it
   * and calls onPull once, leaving it inactive; a second pull is refused
   * and changes nothing.
   */
  lemma PullOnce(p: Progress, qty: real, at1: int, at2: int)
    requires p.cancelled.None?
    ensures var (r1, e1) := PullStep(p, at1, true);
            && e1.None? && r1.cancelled == Some(at1) && r1.pulls == p.pulls + 1 && Inactive(r1, qty)
            && r1 == p.(cancelled := Some(at1), pulls := p.pulls + 1)
            && PullStep(r1, at2, true) == (r1, Some(IllegalArgument))
  {
  }

  /** A rejected or cancelled order stays inactive through any execution. */
  lemma InactiveStays(p: Progress, qty: real, at: int, q: real, price: real, bidAsk: Option<B.Quote>, onExecuted: bool)
    requires p.rejected || p.cancelled.Some?
    ensures Inactive(ExecuteStep(p, qty, at, q, price, bidAsk, onExecuted).0, qty)
  {
  }

  class Order {
    const bidAsk: B.Quote
    const symbol: string
    const isBuy: bool
    const qty: real
    const price: real
    const make: bool
    const dependent: bool
    const fee: real
    const exchQty: real
    var placedAt: Option<int>
    var cancelled: Option<int>
    var executedAt: Option<int>
    var executedBidAsk: Option<B.Quote>
    var executedQty: real
    var rejected: bool
    var executedPrice: real
    /** Whether the callbacks are set, what onExecuted got and how often onPull ran. */
    var onExecuted: bool
    var onPull: bool
    var executions: seq<real>
    var pulls: nat

    function Lifecycle(): Progress
      reads this
    {
      Progress(placedAt, cancelled, executedAt, executedBidAsk, executedQty, rejected, executedPrice, executions, pulls)
    }

    /** The constructor, once its checks pass; fee and exchange quantity are the caller's. */
    constructor (bidAsk: B.Quote, isBuy: bool, qty: real, hasPrcSrc: bool, make: bool, dependent: bool,
                 fee: real, step: Option<real>, exchangeQty: (real, real) -> real)
      requires Validate(bidAsk, isBuy, hasPrcSrc, make, dependent, step).Ok?
      ensures this.bidAsk == bidAsk && symbol == bidAsk.symbol && this.isBuy == isBuy && this.qty == qty
      ensures this.make == make && this.dependent == dependent && this.fee == fee
      ensures price == OrderPrice(bidAsk, isBuy, make, step).value && exchQty == exchangeQty(qty, price)
      ensures Lifecycle() == Fresh && !onExecuted && !onPull
    {
      this.bidAsk := bidAsk;
      symbol := bidAsk.symbol;
      this.isBuy := isBuy;
      this.qty := qty;
      this.make := make;
      this.dependent := dependent;
      this.fee := fee;
      var p: real;
      if !make {
        p := if isBuy then bidAsk.ask else bidAsk.bid;
      } else {
        p := if isBuy then bidAsk.ask - step.value else bidAsk.bid + step.value;
      }
      price := p;
      exchQty := exchangeQty(qty, p);
      placedAt, cancelled, executedAt, executedBidAsk := None, None, None, None;
      executedQty, rejected, executedPrice := 0.0, false, -1.0;
      onExecuted, onPull, executions, pulls := false, false, [], 0;
    }

    method Place(at: int)
      modifies this
      ensures Lifecycle() == old(Lifecycle()).(placedAt := Some(at))
      ensures onExecuted == old(onExecuted) && onPull == old(onPull)
    {
      placedAt := Some(at);
    }

    method IsPlaced() returns (b: bool)
      ensures b <==> placedAt.Some?
    {
      b := placedAt.Some?;
    }

    method OnExecuted(on: bool)
      modifies this
      ensures onExecuted == on && onPull == old(onPull) && Lifecycle() == old(Lifecycle())
    {
      onExecuted := on;
    }

    method OnPull(on: bool)
      modifies this
      ensures onPull == on && onExecuted == old(onExecuted) && Lifecycle() == old(Lifecycle())
    {
      onPull := on;
    }

    method Reject()
      modifies this
      ensures Lifecycle() == old(Lifecycle()).(rejected := true)
      ensures onExecuted == old(onExecuted) && onPull == old(onPull)
    {
      rejected := true;
    }

    method SetExecutedPrice(p: real)
      modifies this
      ensures Lifecycle() == old(Lifecycle()).(executedPrice := p)
      ensures onExecuted == old(onExecuted) && onPull == old(onPull)
    {
      executedPrice := p;
    }

    method IsExecuted() returns (b: bool)
      ensures b <==> FullyExecuted(Lifecycle(), qty)
    {
      b := executedQty == qty;
    }

    method ExecuteAt(at: int, q: real, p: real, quote: Option<B.Quote>) returns (r: Result<bool>)
      modifies this
      ensures (Lifecycle(), r) == ExecuteStep(old(Lifecycle()), qty, at, q, p, quote, onExecuted)
      ensures onExecuted == old(onExecuted) && onPull == old(onPull)
    {
      executedQty := executedQty + q;
      executedPrice := p;
      executedAt := Some(at);
      if quote.None? {
        return Err(NullPointer);
      }
      executedBidAsk := quote;
      if onExecuted {
        executions := executions + [q];
      }
      var done := IsExecuted();
      r := Ok(done);
    }

    method GetExecutedPrice() returns (r: Result<real>)
      ensures r == ExecutedPrice(Lifecycle())
    {
      if !(executedPrice > 0.0) {
        return Err(IllegalArgument);
      }
      r := Ok(executedPrice);
    }

    method Pull(at: int) returns (err: Option<Exception>)
      modifies this
      ensures (Lifecycle(), err) == PullStep(old(Lifecycle()), at, onPull)
      ensures onExecuted == old(onExecuted) && onPull == old(onPull)
    {
      if cancelled.Some? {
        return Some(IllegalArgument);
      }
      cancelled := Some(at);
      if !onPull {
        return Some(NullPointer);
      }
      pulls := pulls + 1;
      err := None;
    }

    method IsCancelled() returns (b: bool)
      ensures b <==> cancelled.Some?
    {
      b := cancelled.Some?;
    }

    method IsInactive() returns (b: bool)
      ensures b <==> Inactive(Lifecycle(), qty)
    {
      var executed := IsExecuted();
      var isCancelled := IsCancelled();
      b := rejected || executed || isCancelled;
    }
  }

  /** new Order(..): the checks' exception, or an order at the rule's price. */
  method Create(bidAsk: B.Quote, isBuy: bool, qty: real, hasPrcSrc: bool, make: bool, dependent: bool,
                fee: real, step: Option<real>, exchangeQty: (real, real) -> real) returns (r: Result<Order>)
    ensures r.Err? <==> Validate(bidAsk, isBuy, hasPrcSrc, make, dependent, step).Err?
    ensures r.Err? ==> r.error == Validate(bidAsk, isBuy, hasPrcSrc, make, dependent, step).error
    ensures r.Ok? ==> fresh(r.value) && r.value.price == Validate(bidAsk, isBuy, hasPrcSrc, make, dependent, step).value
    ensures r.Ok? ==> r.value.Lifecycle() == Fresh
  {
    var v := Validate(bidAsk, isBuy, hasPrcSrc, make, dependent, step);
    if v.Err? {
      return Err(v.error);
    }
    var order := new Order(bidAsk, isBuy, qty, hasPrcSrc, make, dependent, fee, step, exchangeQty);
    r := Ok(order);
  }
}
