/**
 * CcyPair: an exchange-qualified currency pair such as BMEX:XBTUSD, parsed
 * from its symbol. The symbol is kept whole; equality and hashing look at it
 * alone.
 */
module CcyPair {
  import opened Wrappers
  import Text

  datatype Pair = Pair(symbol: string, exchange: string, ccyLeft: string, ccyRight: string, modifier: string)

  /** toString: the symbol. */
  function ToString(p: Pair): string
  {
    p.symbol
  }

  /**
   * parseSpot: the exchange is the text before the first ':', the pair the
   * segment after it, cut into two three-letter currencies and a modifier.
   * Without a ':' the iterator has no second piece; a segment shorter than
   * six characters makes substring throw.
   */
  function ParseSpot(val: string): (r: Result<Pair>)
    ensures r.Ok? ==> r.value.symbol == val && |r.value.ccyLeft| == 3 && |r.value.ccyRight| == 3
    ensures r.Err? ==> r.error == NoSuchElement || r.error == IndexOutOfBounds
  {
    var pieces := Text.Split(val, ':');
    if |pieces| < 2 then Err(NoSuchElement)
    else
      var ccyPair := pieces[1];
      if |ccyPair| < 6 then Err(IndexOutOfBounds)
      else
        var modifier := if |ccyPair| > 6 then ccyPair[6..] else "";
        Ok(Pair(val, pieces[0], ccyPair[..3], ccyPair[3..6], modifier))
  }

  /** What parseSpot reads: the exchange up to the first ':', then the currencies and modifier up to the next ':' or the end. */
  lemma ParseSpotFields(val: string)
    ensures ParseSpot(val) == Err(NoSuchElement) <==> ':' !in val
    ensures var r := ParseSpot(val);
            r.Ok? ==>
              var p := r.value;
              var n := |p.exchange|;
              var seg := p.ccyLeft + p.ccyRight + p.modifier;
              && ':' !in p.exchange && n < |val| && val[..n] == p.exchange && val[n] == ':'
              && ':' !in seg && Text.StartsWith(val[n + 1..], seg)
              && (|val| == n + 1 + |seg| || val[n + 1 + |seg|] == ':')
  {
    Text.SplitFirstPiece(val, ':');
    var pieces := Text.Split(val, ':');
    if |pieces| >= 2 {
      var rest := val[|pieces[0]| + 1..];
      Text.SplitFirstPiece(rest, ':');
      assert pieces[1] == Text.Split(rest, ':')[0];
      var seg := pieces[1];
      if |seg| >= 6 {
        var p := ParseSpot(val).value;
        assert p.ccyLeft + p.ccyRight + p.modifier == seg;
      }
    }
  }

  /** Parsing an exchange, a colon and a segment of six or more characters, none holding ':', cuts the segment at 3 and 6. */
  lemma ParseSpotSegment(exchange: string, segment: string)
    requires ':' !in exchange && ':' !in segment && |segment| >= 6
    ensures var symbol := exchange + ":" + segment;
            ParseSpot(symbol) == Ok(Pair(symbol, exchange, segment[..3], segment[3..6], segment[6..]))
  {
    var symbol := exchange + ":" + segment;
    var n := |exchange|;
    assert forall j :: 0 <= j < n ==> symbol[j] == exchange[j];
    Text.IndexOfAnyFirst(symbol, 0, {':'}, n);
    assert symbol[n + 1..] == segment;
    assert Text.NoneIn(segment, {':'});
    assert symbol[..n] == exchange;
    assert Text.Split(symbol, ':') == [symbol[..n]] + Text.SplitAny(symbol[n + 1..], {':'});
    assert Text.Split(symbol, ':') == [exchange] + [segment];
    if |segment| == 6 {
      assert segment[6..] == "";
    }
  }

  /** Parsing an exchange, a colon, two three-letter currencies and a modifier, none holding ':', gives them back. */
  lemma ParseSpotRoundTrip(exchange: string, ccyLeft: string, ccyRight: string, modifier: string)
    requires ':' !in exchange && ':' !in ccyLeft && ':' !in ccyRight && ':' !in modifier
    requires |ccyLeft| == 3 && |ccyRight| == 3
    ensures var symbol := exchange + ":" + ccyLeft + ccyRight + modifier;
            ParseSpot(symbol) == Ok(Pair(symbol, exchange, ccyLeft, ccyRight, modifier))
  {
    var seg := ccyLeft + ccyRight + modifier;
    forall k | 0 <= k < |seg|
      ensures seg[k] != ':'
    {
      if k < 3 {
        assert seg[k] == ccyLeft[k];
      } else if k < 6 {
        assert seg[k] == ccyRight[k - 3];
      } else {
        assert seg[k] == modifier[k - 6];
      }
    }
    ParseSpotSegment(exchange, seg);
    assert exchange + ":" + ccyLeft + ccyRight + modifier == exchange + ":" + seg;
    assert seg[..3] == ccyLeft && seg[3..6] == ccyRight && seg[6..] == modifier;
  }

  /** equals: two pairs are equal iff their symbols are. */
  predicate Equals(a: Pair, b: Pair)
  {
    a.symbol == b.symbol
  }

  const TwoTo32: int := 0x1_0000_0000

  /** The 32-bit two's complement value of x mod 2^32. */
  function ToInt32(x: int): (r: int)
    ensures -0x8000_0000 <= r < 0x8000_0000
    ensures (r - x) % TwoTo32 == 0
  {
    var m := x % TwoTo32;
    if m >= 0x8000_0000 then m - TwoTo32 else m
  }

  /** String.hashCode: s[0]*31^(n-1) + ... + s[n-1], in 32-bit arithmetic. */
  function StringHash(s: string): (r: int)
    ensures -0x8000_0000 <= r < 0x8000_0000
  {
    if |s| == 0 then 0 else ToInt32(31 * StringHash(s[..|s| - 1]) + s[|s| - 1] as int)
  }

  /** hashCode: Objects.hash(symbol), that is 31 + the symbol's hash, in 32-bit arithmetic. */
  function HashCode(p: Pair): (r: int)
    ensures -0x8000_0000 <= r < 0x8000_0000
  {
    ToInt32(31 + StringHash(p.symbol))
  }

  /** equals is an equivalence that hashCode respects, and pairs parsed from strings are equal iff the strings are. */
  lemma EqualsContract(a: Pair, b: Pair, c: Pair, s: string, t: string)
    ensures Equals(a, a)
    ensures Equals(a, b) ==> Equals(b, a) && HashCode(a) == HashCode(b)
    ensures Equals(a, b) && Equals(b, c) ==> Equals(a, c)
    ensures ParseSpot(s).Ok? && ParseSpot(t).Ok? ==> (Equals(ParseSpot(s).value, ParseSpot(t).value) <==> s == t)
    ensures ParseSpot(s).Ok? ==> ToString(ParseSpot(s).value) == s
  {
  }

  /** The exchange symbols the tickers use. */
  const BmexXbtusd := "BMEX:XBTUSD"
  const BfnxBtcusd := "BFNX:BTCUSD"
  const BnncBtcusd := "BNNC:BTCUSD"
  const BmexUsdbon8h := "BMEX:USDBON8H"
  const BmexXbtbon8h := "BMEX:XBTBON8H"
  const BmexXbtusdpi8h := "BMEX:XBTUSDPI8H"

  /** The pairs those symbols name. */
  const BmexPair := Pair(BmexXbtusd, "BMEX", "XBT", "USD", "")
  const BfnxPair := Pair(BfnxBtcusd, "BFNX", "BTC", "USD", "")
  const BnncPair := Pair(BnncBtcusd, "BNNC", "BTC", "USD", "")
  const Usdbon8hPair := Pair(BmexUsdbon8h, "BMEX", "USD", "BON", "8H")
  const Xbtbon8hPair := Pair(BmexXbtbon8h, "BMEX", "XBT", "BON", "8H")
  const Xbtusdpi8hPair := Pair(BmexXbtusdpi8h, "BMEX", "XBT", "USD", "PI8H")

  /** Every ticker constant parses, into its exchange, currencies and modifier. */
  lemma ParsesBmexXbtusd()
    ensures ParseSpot(BmexXbtusd) == Ok(BmexPair)
  {
    assert BmexXbtusd == "BMEX" + ":" + "XBT" + "USD" + "";
    ParseSpotRoundTrip("BMEX", "XBT", "USD", "");
  }

  lemma ParsesBfnxBtcusd()
    ensures ParseSpot(BfnxBtcusd) == Ok(BfnxPair)
  {
    assert BfnxBtcusd == "BFNX" + ":" + "BTC" + "USD" + "";
    ParseSpotRoundTrip("BFNX", "BTC", "USD", "");
  }

  lemma ParsesBnncBtcusd()
    ensures ParseSpot(BnncBtcusd) == Ok(BnncPair)
  {
    assert BnncBtcusd == "BNNC" + ":" + "BTC" + "USD" + "";
    ParseSpotRoundTrip("BNNC", "BTC", "USD", "");
  }

  lemma ParsesBmexUsdbon8h()
    ensures ParseSpot(BmexUsdbon8h) == Ok(Usdbon8hPair)
  {
    assert BmexUsdbon8h == "BMEX" + ":" + "USD" + "BON" + "8H";
    ParseSpotRoundTrip("BMEX", "USD", "BON", "8H");
  }

  lemma ParsesBmexXbtbon8h()
    ensures ParseSpot(BmexXbtbon8h) == Ok(Xbtbon8hPair)
  {
    assert BmexXbtbon8h == "BMEX" + ":" + "XBT" + "BON" + "8H";
    ParseSpotRoundTrip("BMEX", "XBT", "BON", "8H");
  }

  lemma ParsesBmexXbtusdpi8h()
    ensures ParseSpot(BmexXbtusdpi8h) == Ok(Xbtusdpi8hPair)
  {
    assert BmexXbtusdpi8h == "BMEX" + ":" + "XBT" + "USD" + "PI8H";
    ParseSpotRoundTrip("BMEX", "XBT", "USD", "PI8H");
  }
}
