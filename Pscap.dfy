/**
 * Pscap: maps market-data file paths to the currency pair they hold, or to
 * null (None) when the path is not a file of the kind asked for. Paths are
 * Unix paths; file names follow commons-io FilenameUtils.
 */
module Pscap {
  import opened Wrappers
  import Text
  import C = CcyPair

  /** The last index of a character of cs in s, or -1 (String.lastIndexOf). */
  function LastIndexOfAny(s: string, cs: set<char>): (i: int)
    ensures -1 <= i < |s|
    ensures i >= 0 ==> s[i] in cs
    ensures forall j :: i < j < |s| ==> s[j] !in cs
  {
    if |s| == 0 then -1
    else if s[|s| - 1] in cs then |s| - 1
    else LastIndexOfAny(s[..|s| - 1], cs)
  }

  /** FilenameUtils.getName: the text after the last '/' or '\'. */
  function GetName(s: string): (r: string)
    ensures Text.EndsWith(s, r) && '/' !in r && '\\' !in r
  {
    var i := LastIndexOfAny(s, {'/', '\\'});
    var r := s[i + 1..];
    r
  }

  /** FilenameUtils.removeExtension: the name without the text from its last '.'. */
  function RemoveExtension(name: string): (r: string)
    ensures Text.StartsWith(name, r)
    ensures '.' in name ==> |name| - |r| == |GetExtensionWithDot(name)|
  {
    var i := LastIndexOfAny(name, {'.'});
    if i < 0 then name else name[..i]
  }

  /** The extension and its dot, as removeExtension drops it. */
  function GetExtensionWithDot(name: string): string
  {
    var i := LastIndexOfAny(name, {'.'});
    if i < 0 then "" else name[i..]
  }

  /** FilenameUtils.getBaseName. */
  function GetBaseName(path: string): string
  {
    RemoveExtension(GetName(path))
  }

  /** Paths.get(path).getFileName().toString(): the last name of the path, trailing slashes ignored. */
  function PathFileName(path: string): string
  {
    var trimmed := Text.TrimEnd(path, c => c == '/');
    trimmed[LastIndexOfAny(trimmed, {'/'}) + 1..]
  }

  /** A parse result as a nullable pair. */
  function Found(r: Result<C.Pair>): (f: Result<Option<C.Pair>>)
    ensures f.Ok? <==> r.Ok?
    ensures r.Ok? ==> f == Ok(Some(r.value))
  {
    match r
    case Ok(p) => Ok(Some(p))
    case Err(e) => Err(e)
  }

  /** The base name split on '_' and '.', trimmed, without empty pieces. */
  function Tokens(baseName: string): seq<string>
  {
    Text.TrimOmitEmpty(Text.SplitAny(baseName, {'_', '.'}))
  }

  /**
   * tickerName: null for a path without '_'; otherwise the first two tokens
   * of the base name, joined by ':', parsed as a pair. Fewer than two tokens
   * exhaust the iterator.
   */
  function TickerName(path: string): (r: Result<Option<C.Pair>>)
    ensures r == Ok(None) <==> !Text.Contains(path, "_")
  {
    if !Text.Contains(path, "_") then Ok(None)
    else
      var t := Tokens(GetBaseName(PathFileName(path)));
      if |t| < 2 then Err(NoSuchElement)
      else Found(C.ParseSpot(t[0] + ":" + t[1]))
  }

  /** A path whose first two tokens are an exchange and a six-or-more-letter pair names that pair; fewer tokens throw. */
  lemma TickerNameOfTokens(path: string)
    requires Text.Contains(path, "_")
    ensures var t := Tokens(GetBaseName(PathFileName(path)));
            && (|t| < 2 ==> TickerName(path) == Err(NoSuchElement))
            && (|t| >= 2 && ':' !in t[0] && ':' !in t[1] && |t[1]| >= 6 ==>
                  TickerName(path) == Ok(Some(C.Pair(t[0] + ":" + t[1], t[0], t[1][..3], t[1][3..6], t[1][6..]))))
  {
    var t := Tokens(GetBaseName(PathFileName(path)));
    if |t| >= 2 && ':' !in t[0] && ':' !in t[1] && |t[1]| >= 6 {
      C.ParseSpotSegment(t[0], t[1]);
    }
  }

  /**
   * romasBidAskTickers: an L1 file of bitfinex, bitmex or binance (tested in
   * that order, on the lower-cased path) whose base name starts with the
   * exchange's BTC/USD ticker maps to that pair; anything else to null.
   */
  function RomasBidAskTickers(path: string): Result<Option<C.Pair>>
  {
    if !Text.Contains(path, "L1") then Ok(None)
    else
      var baseName := GetBaseName(path);
      var lower := Text.ToLower(path);
      if Text.Contains(lower, "bitfinex") then
        if Text.StartsWith(baseName, "tBTCUSD") then Ok(Some(C.BfnxPair)) else Ok(None)
      else if Text.Contains(lower, "bitmex") then
        if Text.StartsWith(Text.ToUpper(baseName), "XBTUSD") then Ok(Some(C.BmexPair)) else Ok(None)
      else if Text.Contains(lower, "binance") then
        if Text.StartsWith(Text.ToLower(baseName), "btcusd") then Ok(Some(C.BnncPair)) else Ok(None)
      else Ok(None)
  }

  // The pairs romasBidAskTickers and romasTickTickers return are what parseSpot gives for
  // the ticker symbols (CcyPair.ParsesBfnxBtcusd and its siblings).
  /**
   * romasBidAskTickers never throws, and each pair comes from the first
   * exchange named in the path: a bitfinex path never maps to bitmex or
   * binance, a bitmex path never to binance.
   */
  lemma RomasBidAskTickersPrecedence(path: string)
    ensures RomasBidAskTickers(path).Ok?
    ensures var r := RomasBidAskTickers(path).value;
            var lower := Text.ToLower(path);
            && (r.Some? ==> Text.Contains(path, "L1"))
            && (r == Some(C.BfnxPair) <==>
                  Text.Contains(path, "L1") && Text.Contains(lower, "bitfinex")
                  && Text.StartsWith(GetBaseName(path), "tBTCUSD"))
            && (r == Some(C.BmexPair) <==>
                  Text.Contains(path, "L1") && !Text.Contains(lower, "bitfinex") && Text.Contains(lower, "bitmex")
                  && Text.StartsWith(Text.ToUpper(GetBaseName(path)), "XBTUSD"))
            && (r == Some(C.BnncPair) <==>
                  Text.Contains(path, "L1") && !Text.Contains(lower, "bitfinex") && !Text.Contains(lower, "bitmex")
                  && Text.Contains(lower, "binance") && Text.StartsWith(Text.ToLower(GetBaseName(path)), "btcusd"))
            && (r.Some? ==> r.value in {C.BfnxPair, C.BmexPair, C.BnncPair})
  {
  }

  /** The first '.'-separated piece of a name, as Splitter.on(".").split(..).iterator().next() gives it. */
  function FirstDotPiece(name: string): string
  {
    Text.Split(name, '.')[0]
  }

  /**
   * romasTickTickers: a trades file of bitmex, else of binance (tested on the
   * lower-cased path), maps to a pair by its base name; anything else to null.
   */
  function RomasTickTickers(path: string): Result<Option<C.Pair>>
  {
    var lower := Text.ToLower(path);
    TradesTicker(Text.Contains(path, "trades"), Text.Contains(lower, "bitmex"), Text.Contains(lower, "binance"),
                 GetBaseName(path))
  }

  /** romasTickTickers once the path tests are made: whether it names trades, bitmex and binance. */
  function TradesTicker(trades: bool, bitmex: bool, binance: bool, baseName: string): Result<Option<C.Pair>>
  {
    if !trades then Ok(None)
    else if bitmex then BitmexTicker(baseName)
    else if binance then BinanceTicker(baseName)
    else Ok(None)
  }

  /**
   * A bitmex trades file: XBTUSD as the first '.'-piece of a plain base name,
   * or for an index file (base name starting with '.') USDBON8H, XBTBON8H or
   * XBTUSDPI8H as its first name, ignoring case. An index base name of dots
   * only leaves the iterator empty.
   */
  function BitmexTicker(baseName: string): Result<Option<C.Pair>>
  {
    if !Text.StartsWith(baseName, ".") then
      if Text.EqualsIgnoreCase(FirstDotPiece(baseName), "XBTUSD") then Ok(Some(C.BmexPair))
      else Ok(None)
    else
      var names := Text.TrimOmitEmpty(Text.Split(baseName, '.'));
      if |names| == 0 then Err(NoSuchElement)
      else if Text.EqualsIgnoreCase(names[0], "USDBON8H") then Ok(Some(C.Usdbon8hPair))
      else if Text.EqualsIgnoreCase(names[0], "XBTBON8H") then Ok(Some(C.Xbtbon8hPair))
      else if Text.EqualsIgnoreCase(names[0], "XBTUSDPI8H") then Ok(Some(C.Xbtusdpi8hPair))
      else Ok(None)
  }

  /** A binance trades file: BTCUSDT as the first '.'-piece of the base name, ignoring case. */
  function BinanceTicker(baseName: string): Result<Option<C.Pair>>
  {
    if Text.EqualsIgnoreCase(FirstDotPiece(baseName), "BTCUSDT") then Ok(Some(C.BnncPair))
    else Ok(None)
  }

  /** A bitmex file maps to one of its four pairs, XBTUSD exactly for plain files and the index pairs for index files; only a nameless index file throws. */
  lemma BitmexTickerCases(baseName: string)
    ensures var r := BitmexTicker(baseName);
            && (r.Err? <==> Text.StartsWith(baseName, ".") && |Text.TrimOmitEmpty(Text.Split(baseName, '.'))| == 0)
            && (r.Err? ==> r.error == NoSuchElement)
            && (r.Ok? && r.value.Some? ==> r.value.value in {C.BmexPair, C.Usdbon8hPair, C.Xbtbon8hPair, C.Xbtusdpi8hPair})
            && (r == Ok(Some(C.BmexPair)) <==>
                  !Text.StartsWith(baseName, ".") && Text.EqualsIgnoreCase(FirstDotPiece(baseName), "XBTUSD"))
            && (r.Ok? && r.value.Some? && r.value.value != C.BmexPair ==> Text.StartsWith(baseName, "."))
  {
  }

  /**
   * romasTickTickers throws only for a bitmex index file without a name; a
   * result needs a trades path; bitmex is tested before binance, so a path
   * naming both maps only to bitmex pairs.
   */
  lemma TradesTickerPrecedence(trades: bool, bitmex: bool, binance: bool, baseName: string)
    ensures var r := TradesTicker(trades, bitmex, binance, baseName);
            && (r.Err? <==> trades && bitmex && BitmexTicker(baseName).Err?)
            && (r.Err? ==> r.error == NoSuchElement)
            && (r.Ok? && r.value.Some? ==> trades && (bitmex || binance))
            && (r == Ok(Some(C.BnncPair)) <==>
                  trades && !bitmex && binance && Text.EqualsIgnoreCase(FirstDotPiece(baseName), "BTCUSDT"))
            && (r.Ok? && r.value.Some? && bitmex ==> r.value.value in {C.BmexPair, C.Usdbon8hPair, C.Xbtbon8hPair, C.Xbtusdpi8hPair})
  {
    BitmexTickerCases(baseName);
  }
}
