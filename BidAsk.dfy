/**
 * BidAsk: a top-of-book quote (bid and ask with their sizes) of one symbol at
 * a local time, with four status flags a feed handler sets. Times are
 * milliseconds, prices and sizes reals.
 */
module BidAsk {
  import opened Wrappers
  import Text

  /** The quote's fields, fixed at construction; the exchange time may be null. */
  datatype Quote = Quote(symbol: string, localTime: int, exchangeTime: Option<int>,
                         bid: real, bidSize: real, ask: real, askSize: real)

  datatype Flags = Flags(stale: bool, reorder: bool, inconsistent: bool, priceLeap: bool)

  const NoFlags := Flags(false, false, false, false)

  /** new BidAsk(symbol, bid, ask, localtime): both sizes 1, no exchange time. */
  function QuoteOf(symbol: string, bid: real, ask: real, localTime: int): Quote
  {
    Quote(symbol, localTime, None, bid, 1.0, ask, 1.0)
  }

  /** isAlive: no flag set and both sizes positive. */
  predicate IsAlive(q: Quote, f: Flags)
  {
    !f.stale && !f.reorder && !f.inconsistent && !f.priceLeap && q.bidSize > 0.0 && q.askSize > 0.0
  }

  /** mid: the average of bid and ask; both must be positive. */
  function Mid(q: Quote): Result<real>
  {
    if q.bid > 0.0 && q.ask > 0.0 then Ok((q.bid + q.ask) / 2.0) else Err(IllegalArgument)
  }

  /** mid exists iff bid and ask are positive; it lies between them, as far from one as from the other. */
  lemma MidSpec(q: Quote)
    ensures Mid(q).Ok? <==> q.bid > 0.0 && q.ask > 0.0
    ensures Mid(q).Err? ==> Mid(q).error == IllegalArgument
    ensures Mid(q).Ok? ==>
              && (q.bid <= Mid(q).value <= q.ask || q.ask <= Mid(q).value <= q.bid)
              && Mid(q).value - q.bid == q.ask - Mid(q).value
  {
  }

  /**
   * liquid: the price a position of the given quantity is closed at; only an
   * alive quote gives one, and the mid it may fall back to can still throw.
   */
  function Liquid(q: Quote, f: Flags): Result<real -> Result<real>>
  {
    if !IsAlive(q, f) then Err(IllegalArgument)
    else Ok(qty => if qty > 0.0 then Ok(q.bid) else if qty < 0.0 then Ok(q.ask) else Mid(q))
  }

  /** A long position sells at the bid, a short one buys back at the ask, and a flat one is valued at mid. */
  lemma LiquidSpec(q: Quote, f: Flags, qty: real)
    ensures Liquid(q, f).Ok? <==> IsAlive(q, f)
    ensures Liquid(q, f).Err? ==> Liquid(q, f).error == IllegalArgument
    ensures Liquid(q, f).Ok? ==>
              && (qty > 0.0 ==> Liquid(q, f).value(qty) == Ok(q.bid))
              && (qty < 0.0 ==> Liquid(q, f).value(qty) == Ok(q.ask))
              && (qty == 0.0 ==> Liquid(q, f).value(qty) == Mid(q))
  {
  }

  /** A quote built from a bid and an ask alone, with no flag set, is alive. */
  lemma QuoteOfAlive(symbol: string, bid: real, ask: real, localTime: int)
    ensures IsAlive(QuoteOf(symbol, bid, ask, localTime), NoFlags)
    ensures Liquid(QuoteOf(symbol, bid, ask, localTime), NoFlags).Ok?
  {
  }

  /** clone: stale and inconsistent cleared, the rest kept. */
  function CloneFlags(f: Flags): Flags
  {
    f.(stale := false, inconsistent := false)
  }

  /**
   * A clone is alive iff the quote has positive sizes and neither reorder nor
   * price leap is set: cloning revives a stale or inconsistent quote, keeps
   * an alive one alive, and a second clone changes nothing.
   */
  lemma CloneFlagsSpec(q: Quote, f: Flags)
    ensures IsAlive(q, CloneFlags(f)) <==> !f.reorder && !f.priceLeap && q.bidSize > 0.0 && q.askSize > 0.0
    ensures IsAlive(q, f) ==> IsAlive(q, CloneFlags(f))
    ensures CloneFlags(CloneFlags(f)) == CloneFlags(f)
    ensures CloneFlags(f).reorder == f.reorder && CloneFlags(f).priceLeap == f.priceLeap
  {
  }

  /** Long.compare / Double.compare on values that are never NaN: -1, 0 or 1. */
  function Compare(a: real, b: real): int
  {
    if a < b then -1 else if a > b then 1 else 0
  }

  function CompareTime(a: int, b: int): int
  {
    if a < b then -1 else if a > b then 1 else 0
  }

  /** DATE_CMP: by local time, then by symbol. */
  function DateCmp(a: Quote, b: Quote): int
  {
    var c := CompareTime(a.localTime, b.localTime);
    if c != 0 then c else Text.CompareTo(a.symbol, b.symbol)
  }

  /** BEST_BID: BID_CMP reversed. */
  function BestBid(a: Quote, b: Quote): int
  {
    Compare(b.bid, a.bid)
  }

  /** BEST_ASK: ASK_CMP. */
  function BestAsk(a: Quote, b: Quote): int
  {
    Compare(a.ask, b.ask)
  }

  /**
   * DATE_CMP puts the earlier quote first and, at the same time, the symbol
   * first in lexicographic order; it is zero only for the same time and
   * symbol, and swapping the quotes negates it.
   */
  lemma DateCmpSpec(a: Quote, b: Quote)
    ensures DateCmp(a, b) < 0 <==>
              a.localTime < b.localTime || (a.localTime == b.localTime && Text.LexLess(a.symbol, b.symbol))
    ensures DateCmp(a, b) == 0 <==> a.localTime == b.localTime && a.symbol == b.symbol
    ensures DateCmp(b, a) == -DateCmp(a, b)
  {
    Text.CompareToSpec(a.symbol, b.symbol);
  }

  /** BEST_BID puts the higher bid first, BEST_ASK the lower ask; each is zero only on equal prices and antisymmetric. */
  lemma BestQuoteOrder(a: Quote, b: Quote)
    ensures BestBid(a, b) < 0 <==> a.bid > b.bid
    ensures BestBid(a, b) == 0 <==> a.bid == b.bid
    ensures BestBid(b, a) == -BestBid(a, b)
    ensures BestAsk(a, b) < 0 <==> a.ask < b.ask
    ensures BestAsk(a, b) == 0 <==> a.ask == b.ask
    ensures BestAsk(b, a) == -BestAsk(a, b)
  {
  }

  /** last: the second time if the first is earlier, else the first. */
  function Last(time1: int, time2: int): (r: int)
    ensures r >= time1 && r >= time2
    ensures r == time1 || r == time2
    ensures time1 >= time2 ==> r == time1
  {
    if CompareTime(time1, time2) < 0 then time2 else time1
  }

  class BidAsk {
    const quote: Quote
    var stale: bool
    var reorder: bool
    var inconsistent: bool
    var priceLeap: bool

    function Status(): Flags
      reads this
    {
      Flags(stale, reorder, inconsistent, priceLeap)
    }

    constructor (quote: Quote)
      ensures this.quote == quote && Status() == NoFlags
    {
      this.quote := quote;
      stale, reorder, inconsistent, priceLeap := false, false, false, false;
    }

    /** new BidAsk(symbol, bid, ask, localtime). */
    constructor Of(symbol: string, bid: real, ask: real, localTime: int)
      ensures quote == QuoteOf(symbol, bid, ask, localTime) && Status() == NoFlags
    {
      quote := QuoteOf(symbol, bid, ask, localTime);
      stale, reorder, inconsistent, priceLeap := false, false, false, false;
    }

    method SetStale(on: bool)
      modifies this
      ensures Status() == old(Status()).(stale := on)
    {
      stale := on;
    }

    method SetReorder(on: bool)
      modifies this
      ensures Status() == old(Status()).(reorder := on)
    {
      reorder := on;
    }

    method SetInconsistent(on: bool)
      modifies this
      ensures Status() == old(Status()).(inconsistent := on)
    {
      inconsistent := on;
    }

    method SetPriceLeap(on: bool)
      modifies this
      ensures Status() == old(Status()).(priceLeap := on)
    {
      priceLeap := on;
    }

    /** clone: a new object with the same quote, stale and inconsistent cleared. */
    method Clone() returns (ret: BidAsk)
      ensures fresh(ret) && ret.quote == quote && ret.Status() == CloneFlags(Status())
    {
      ret := new BidAsk(quote);
      ret.SetReorder(reorder);
      ret.SetPriceLeap(priceLeap);
    }
  }
}
