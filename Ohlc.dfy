/**
 * Ohlc: an open/high/low/close bar of one symbol. Prices are exact decimals
 * (reals here), times are milliseconds, and payload values are strings. A bar
 * exists only if its low is at most its open and close and its high at least
 * both.
 */
module Ohlc {
  import opened Wrappers

  datatype OhlcType = Raise | Down | Neutral

  datatype Bar = Bar(symbol: string, time: int, open: real, high: real, low: real, close: real, payload: map<string, string>)

  /** The constructor's checks. */
  predicate Valid(b: Bar)
  {
    b.low <= b.open <= b.high && b.low <= b.close <= b.high
  }

  function Max(a: real, b: real): real { if a >= b then a else b }
  function Min(a: real, b: real): real { if a <= b then a else b }

  /** new Ohlc(symbol, time, open, high, low, close): IllegalArgumentException unless high and low bound open and close. */
  function New(symbol: string, time: int, open: real, high: real, low: real, close: real): (r: Result<Bar>)
    ensures r.Ok? <==> high >= open && high >= close && low <= open && low <= close
    ensures r.Ok? ==> Valid(r.value) && r.value == Bar(symbol, time, open, high, low, close, map[])
    ensures r.Err? ==> r.error == IllegalArgument
  {
    if high < open || high < close || low > open || low > close then Err(IllegalArgument)
    else Ok(Bar(symbol, time, open, high, low, close, map[]))
  }

  /** new Ohlc(symbol, time, price): a bar of one price, always accepted. */
  function Single(symbol: string, time: int, price: real): (r: Result<Bar>)
    ensures r.Ok? && Valid(r.value)
    ensures r.value.open == price && r.value.high == price && r.value.low == price && r.value.close == price
  {
    New(symbol, time, price, price, price, price)
  }

  /** add: the same symbol is required; the receiver's open, the argument's close and time, the wider range. */
  function Add(a: Bar, b: Bar): Result<Bar>
  {
    if a.symbol != b.symbol then Err(IllegalArgument)
    else New(a.symbol, b.time, a.open, Max(a.high, b.high), Min(a.low, b.low), b.close)
  }

  /** add of two valid bars of one symbol never fails, and its result is valid again. */
  lemma AddValid(a: Bar, b: Bar)
    requires Valid(a) && Valid(b)
    ensures Add(a, b).Err? <==> a.symbol != b.symbol
    ensures Add(a, b).Ok? ==>
              var r := Add(a, b).value;
              && Valid(r) && r.symbol == a.symbol && r.time == b.time
              && r.open == a.open && r.close == b.close
              && r.high == Max(a.high, b.high) && r.low == Min(a.low, b.low)
              && r.high >= a.high && r.high >= b.high && r.low <= a.low && r.low <= b.low
  {
  }

  /** Adding bars in sequence does not depend on grouping. */
  lemma AddAssociative(a: Bar, b: Bar, c: Bar)
    requires Valid(a) && Valid(b) && Valid(c) && a.symbol == b.symbol == c.symbol
    ensures Add(a, b).Ok? && Add(b, c).Ok?
    ensures Add(Add(a, b).value, c) == Add(a, Add(b, c).value)
  {
    AddValid(a, b);
    AddValid(b, c);
    AddValid(Add(a, b).value, c);
  }

  /** raisePnl: close / open - 1; dividing by a zero open throws. */
  function RaisePnl(b: Bar): Result<real>
  {
    if b.open == 0.0 then Err(Arithmetic) else Ok(b.close / b.open - 1.0)
  }

  /** downPnl: open / close - 1; dividing by a zero close throws. */
  function DownPnl(b: Bar): Result<real>
  {
    if b.close == 0.0 then Err(Arithmetic) else Ok(b.open / b.close - 1.0)
  }

  /** getType: RAISE when the rise beats the margin, else DOWN when the fall does, else NEUTRAL. */
  function GetType(b: Bar, margin: real): Result<OhlcType>
  {
    match RaisePnl(b)
    case Err(e) => Err(e)
    case Ok(raise) =>
      if raise > margin then Ok(Raise)
      else
        match DownPnl(b)
        case Err(e) => Err(e)
        case Ok(down) => if down > margin then Ok(Down) else Ok(Neutral)
  }

  /** getPredictedPnl: the rise if not negative, else the fall if not negative, else -1. */
  function GetPredictedPnl(b: Bar): Result<real>
  {
    match RaisePnl(b)
    case Err(e) => Err(e)
    case Ok(raise) =>
      if raise >= 0.0 then Ok(raise)
      else
        match DownPnl(b)
        case Err(e) => Err(e)
        case Ok(down) => if down >= 0.0 then Ok(down) else Ok(-1.0)
  }

  /** range: |close - open|. */
  function Range(b: Bar): real
  {
    if b.close >= b.open then b.close - b.open else b.open - b.close
  }

  /** clone: a bar built again from the same prices, with the payload copied. */
  function Clone(b: Bar): Result<Bar>
  {
    match New(b.symbol, b.time, b.open, b.high, b.low, b.close)
    case Err(e) => Err(e)
    case Ok(c) => Ok(c.(payload := b.payload))
  }

  lemma RatioAbove(x: real, y: real, m: real)
    requires y > 0.0
    ensures x / y - 1.0 > m <==> x > y * (1.0 + m)
  {
    var q := x / y;
    assert q * y == x;
    SignOfProduct(q - 1.0 - m, y);
    assert (q - 1.0 - m) * y == x - y * (1.0 + m);
  }

  lemma SignOfProduct(a: real, y: real)
    requires y > 0.0
    ensures a > 0.0 <==> a * y > 0.0
    ensures a >= 0.0 <==> a * y >= 0.0
  {
  }

  lemma RatioNonNegative(x: real, y: real)
    requires y > 0.0
    ensures x / y - 1.0 >= 0.0 <==> x >= y
  {
    var q := x / y;
    assert q * y == x;
    SignOfProduct(q - 1.0, y);
    assert (q - 1.0) * y == x - y;
  }

  /**
   * For positive prices and a non-negative margin, getType does not throw:
   * RAISE means close > open * (1 + margin), DOWN means open > close * (1 +
   * margin), so a RAISE bar went up and a DOWN bar went down.
   */
  lemma GetTypeSpec(b: Bar, margin: real)
    requires b.open > 0.0 && b.close > 0.0 && margin >= 0.0
    ensures GetType(b, margin).Ok?
    ensures GetType(b, margin).value == Raise <==> b.close > b.open * (1.0 + margin)
    ensures GetType(b, margin).value == Down <==> b.open > b.close * (1.0 + margin)
    ensures GetType(b, margin).value == Raise ==> b.close > b.open
    ensures GetType(b, margin).value == Down ==> b.close < b.open
  {
    RatioAbove(b.close, b.open, margin);
    RatioAbove(b.open, b.close, margin);
    assert b.open * (1.0 + margin) >= b.open;
    assert b.close * (1.0 + margin) >= b.close;
  }

  /** For positive prices getPredictedPnl never falls back to -1: it is the larger of rise and fall, and not negative. */
  lemma PredictedPnlSpec(b: Bar)
    requires b.open > 0.0 && b.close > 0.0
    ensures GetPredictedPnl(b).Ok?
    ensures GetPredictedPnl(b).value >= 0.0
    ensures GetPredictedPnl(b).value == Max(RaisePnl(b).value, DownPnl(b).value)
  {
    RatioNonNegative(b.close, b.open);
    RatioNonNegative(b.open, b.close);
  }

  /** A bar's range lies within its high-low span. */
  lemma RangeWithinSpan(b: Bar)
    requires Valid(b)
    ensures 0.0 <= Range(b) <= b.high - b.low
    ensures Range(b) == 0.0 <==> b.open == b.close
  {
  }

  /** clone of a valid bar succeeds and gives the same bar, payload included. */
  lemma CloneSpec(b: Bar)
    requires Valid(b)
    ensures Clone(b) == Ok(b)
  {
  }
}
