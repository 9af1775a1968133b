/**
 * The SMA crossover strategy and the order bookkeeping every strategy shares
 * (`SMAStrategy` and `StrategyBase::execute_order`,
 * src/strategy/strategy_base_impl.cpp and include/strategy/strategy_base.h).
 *
 * The order-id counter is a function-local static in the source, shared by
 * every strategy object of the process; it is a field here, so the model
 * follows one strategy.
 */
module Strategy {
  import opened Types
  import MovingAverage

  const U64: nat := 0x1_0000_0000_0000_0000

  datatype PriceMode = Close | Open | High | Low | Hlc3 | Ohlc4

  /** The order `execute_order` builds: a market order, already filled. */
  datatype Executed = Executed(id: nat, instrument: string, strategy: string, side: Side, price: real, quantity: nat)

  /** The state of `StrategyBase` that `execute_order` touches. */
  datatype Base = Base(
    id: string,
    positions: map<string, Position>,
    tradeCount: nat,
    nextOrderId: nat,
    executed: seq<Executed>)

  datatype History = History(prices: seq<real>, hasSignal: bool)

  datatype Sma = Sma(
    base: Base,
    shortPeriod: int,
    longPeriod: int,
    mode: PriceMode,
    columns: map<string, string>,
    histories: map<string, History>)

  /** `price_mode_from_string`: the six known names, and CLOSE for anything else. */
  function PriceModeFromString(s: string): (m: PriceMode)
    ensures s == "close" ==> m == Close
    ensures s == "open" ==> m == Open
    ensures s == "high" ==> m == High
    ensures s == "low" ==> m == Low
    ensures s == "hlc3" ==> m == Hlc3
    ensures s == "ohlc4" ==> m == Ohlc4
    ensures s !in {"close", "open", "high", "low", "hlc3", "ohlc4"} ==> m == Close
  {
    if s == "close" then Close
    else if s == "open" then Open
    else if s == "high" then High
    else if s == "low" then Low
    else if s == "hlc3" then Hlc3
    else if s == "ohlc4" then Ohlc4
    else Close
  }

  function Name(m: PriceMode): string {
    match m
    case Close => "close"
    case Open => "open"
    case High => "high"
    case Low => "low"
    case Hlc3 => "hlc3"
    case Ohlc4 => "ohlc4"
  }

  /** Every mode is read back from its own name. */
  lemma PriceModeRoundTrip(m: PriceMode)
    ensures PriceModeFromString(Name(m)) == m
  {
  }

  /**
   * `get_price_from_columns`: the tick field a mode reads. A single-field
   * mode reads its field only when its column is configured, and the last
   * price otherwise; the open and low both read the bid, the high the ask,
   * and the four-price average counts the bid twice.
   */
  function PriceFromColumns(tick: MarketDataTick, mode: PriceMode, columns: map<string, string>): (p: real)
    ensures mode == Hlc3 ==> p == (tick.askPrice + tick.bidPrice + tick.lastPrice) / 3.0
    ensures mode == Ohlc4 ==> p == (tick.askPrice + 2.0 * tick.bidPrice + tick.lastPrice) / 4.0
    ensures mode in {Open, Low} ==> p == (if Name(mode) in columns then tick.bidPrice else tick.lastPrice)
    ensures mode == High ==> p == (if "high" in columns then tick.askPrice else tick.lastPrice)
    ensures mode == Close ==> p == tick.lastPrice
  {
    if mode == Close && "close" in columns then tick.lastPrice
    else if mode == Open && "open" in columns then tick.bidPrice
    else if mode == High && "high" in columns then tick.askPrice
    else if mode == Low && "low" in columns then tick.bidPrice
    else if mode == Hlc3 then (tick.askPrice + tick.bidPrice + tick.lastPrice) / 3.0
    else if mode == Ohlc4 then (tick.askPrice + tick.bidPrice + tick.lastPrice + tick.bidPrice) / 4.0
    else tick.lastPrice
  }

  /** The position `operator[]` creates for an instrument not held yet. */
  const EmptyPosition: Position := Position("", "", 0, 0.0, 0.0, 0.0)

  function PositionOf(b: Base, instrument: string): Position {
    Lookup(b.positions, instrument, EmptyPosition)
  }

  /**
   * `execute_order`: records a filled market order under the next id, moves
   * the position by the quantity in unsigned 64-bit arithmetic, sets its
   * average price to the order price and counts one more trade.
   */
  function ExecuteOrder(b: Base, instrument: string, side: Side, price: real, quantity: nat): (r: Base)
    ensures r.tradeCount == b.tradeCount + 1
    ensures r.nextOrderId == b.nextOrderId + 1
    ensures r.executed == b.executed + [Executed(b.nextOrderId, instrument, b.id, side, price, quantity)]
    ensures instrument in r.positions && r.positions[instrument].averagePrice == price
    ensures var q := PositionOf(b, instrument).quantity;
      side == Buy ==> r.positions[instrument].quantity == (q + quantity) % U64
    ensures var q := PositionOf(b, instrument).quantity;
      side == Sell ==> r.positions[instrument].quantity == (q - quantity) % U64
    ensures forall k :: k != instrument ==> (k in r.positions <==> k in b.positions)
    ensures forall k :: k in b.positions && k != instrument ==> r.positions[k] == b.positions[k]
    ensures r.id == b.id
  {
    var pos := PositionOf(b, instrument);
    var q := if side == Buy then (pos.quantity + quantity) % U64 else (pos.quantity - quantity) % U64;
    var o := Executed(b.nextOrderId, instrument, b.id, side, price, quantity);
    b.(positions := b.positions[instrument := pos.(quantity := q, averagePrice := price)],
       tradeCount := b.tradeCount + 1,
       nextOrderId := b.nextOrderId + 1,
       executed := b.executed + [o])
  }

  /** Selling from a flat position wraps the unsigned quantity round to 2^64 - 1. */
  lemma ShortSaleWrapsAround(b: Base, instrument: string, price: real)
    requires PositionOf(b, instrument).quantity == 0
    ensures ExecuteOrder(b, instrument, Sell, price, 1).positions[instrument].quantity == U64 - 1
  {
  }

  /** A strategy that has not seen any data. */
  function Init(id: string, shortPeriod: int, longPeriod: int, mode: PriceMode, columns: map<string, string>, firstOrderId: nat): (s: Sma)
    requires 1 <= shortPeriod <= longPeriod
    ensures Inv(s)
  {
    Sma(Base(id, map[], 0, firstOrderId, []), shortPeriod, longPeriod, mode, columns, map[])
  }

  function HistoryOf(s: Sma, instrument: string): History {
    Lookup(s.histories, instrument, History([], false))
  }

  /** The sides of the orders executed for one instrument, in order. */
  function SidesFor(e: seq<Executed>, instrument: string): seq<Side> {
    if e == [] then []
    else SidesFor(e[..|e| - 1], instrument) + (if e[|e| - 1].instrument == instrument then [e[|e| - 1].side] else [])
  }

  lemma SidesForAppend(e: seq<Executed>, x: Executed, instrument: string)
    ensures SidesFor(e + [x], instrument)
         == SidesFor(e, instrument) + (if x.instrument == instrument then [x.side] else [])
  {
    assert (e + [x])[..|e|] == e;
  }

  /** Buy, sell, buy, ...: the sides alternate, starting with a buy. */
  predicate Alternates(sides: seq<Side>) {
    forall j :: 0 <= j < |sides| ==> sides[j] == (if j % 2 == 0 then Buy else Sell)
  }

  /**
   * What the SMA strategy keeps true: the periods are sane, no history is
   * longer than the long period, each instrument's orders alternate starting
   * with a buy, the last one is a buy exactly while the signal flag is set,
   * and the position holds 1 then and 0 otherwise.
   */
  ghost predicate Inv(s: Sma) {
    1 <= s.shortPeriod <= s.longPeriod
    && (forall k :: k in s.histories ==> |s.histories[k].prices| <= s.longPeriod)
    && (forall k :: Consistent(s.base, k, HistoryOf(s, k).hasSignal))
  }

  /** The orders for `k` alternate, end with a buy iff `signal`, and the position is 1 iff `signal`. */
  ghost predicate Consistent(b: Base, k: string, signal: bool) {
    var sides := SidesFor(b.executed, k);
    Alternates(sides)
    && (|sides| % 2 == 1) == signal
    && PositionOf(b, k).quantity == if signal then 1 else 0
  }

  /** An order for `i` on the side the flag calls for flips the flag of `i` and keeps every other instrument consistent. */
  lemma ExecuteOrderConsistent(b: Base, i: string, signal: bool, price: real, k: string, ksignal: bool)
    requires Consistent(b, i, signal) && Consistent(b, k, ksignal)
    ensures var r := ExecuteOrder(b, i, if signal then Sell else Buy, price, 1);
      Consistent(r, k, if k == i then !signal else ksignal)
  {
    var side := if signal then Sell else Buy;
    var r := ExecuteOrder(b, i, side, price, 1);
    SidesForAppend(b.executed, Executed(b.nextOrderId, i, b.id, side, price, 1), k);
    if k == i {
      AlternatesStep(SidesFor(b.executed, k), side);
    }
  }

  /** Keeps the last `long` prices. */
  function Push(prices: seq<real>, price: real, long: int): (r: seq<real>)
    requires long >= 1 && |prices| <= long
    ensures |r| <= long && r != [] && r[|r| - 1] == price
    ensures |r| == if |prices| < long then |prices| + 1 else long
    ensures |prices| < long ==> r == prices + [price]
    ensures |prices| == long ==> r == prices[1..] + [price]
  {
    var p := prices + [price];
    if |p| > long then p[1..] else p
  }

  /** The history holds `long` prices and the mean of its last `short` is above the mean of all. */
  predicate ShortAboveLong(h: seq<real>, short: int, long: int) {
    1 <= short <= long == |h|
    && MovingAverage.Mean(h[|h| - short..]) > MovingAverage.Mean(h)
  }

  /** The history holds `long` prices and the mean of its last `short` is below the mean of all. */
  predicate ShortBelowLong(h: seq<real>, short: int, long: int) {
    1 <= short <= long == |h|
    && MovingAverage.Mean(h[|h| - short..]) < MovingAverage.Mean(h)
  }

  /**
   * The order the crossover rule places, if any: a buy when no signal is
   * held and the short mean is above the long mean on a full history, a
   * sell when a signal is held and the short mean is below.
   */
  function Decide(prices: seq<real>, hasSignal: bool, short: int, long: int): (d: Option<Side>)
    requires 1 <= short <= long && |prices| <= long
    ensures d == Some(Buy) <==> !hasSignal && ShortAboveLong(prices, short, long)
    ensures d == Some(Sell) <==> hasSignal && ShortBelowLong(prices, short, long)
    ensures d.Some? ==> d.value == if hasSignal then Sell else Buy
  {
    if |prices| < long then None
    else
      var shortSma := MovingAverage.Sum(prices[|prices| - short..]) / short as real;
      var longSma := MovingAverage.Sum(prices) / long as real;
      if !hasSignal && shortSma > longSma then Some(Buy)
      else if hasSignal && shortSma < longSma then Some(Sell)
      else None
  }

  /**
   * `on_market_data`: appends the tick's price to its instrument's history,
   * dropping the oldest beyond the long period; once the history is full it
   * buys 1 when the short mean is above the long mean and no signal is
   * held, and sells 1 when it is below and a signal is held.
   */
  function OnMarketData(s: Sma, tick: MarketDataTick): (r: Sma)
    requires 1 <= s.shortPeriod <= s.longPeriod
    requires forall k :: k in s.histories ==> |s.histories[k].prices| <= s.longPeriod
    ensures r.shortPeriod == s.shortPeriod && r.longPeriod == s.longPeriod && r.mode == s.mode && r.columns == s.columns
    ensures tick.instrument in r.histories
    ensures var h := r.histories[tick.instrument].prices;
      h != [] && h[|h| - 1] == PriceFromColumns(tick, s.mode, s.columns)
    ensures r.histories[tick.instrument].prices
      == Push(HistoryOf(s, tick.instrument).prices, PriceFromColumns(tick, s.mode, s.columns), s.longPeriod)
    ensures forall k :: k in r.histories ==> |r.histories[k].prices| <= r.longPeriod
    ensures |r.histories[tick.instrument].prices| < s.longPeriod ==> r.base == s.base
    ensures forall k :: k != tick.instrument ==> HistoryOf(r, k) == HistoryOf(s, k)
    ensures r.base == s.base || r.base == ExecuteOrder(s.base, tick.instrument, if HistoryOf(s, tick.instrument).hasSignal then Sell else Buy, PriceFromColumns(tick, s.mode, s.columns), 1)
    ensures r.base != s.base <==> HistoryOf(r, tick.instrument).hasSignal != HistoryOf(s, tick.instrument).hasSignal
    ensures var h := r.histories[tick.instrument].prices;
      !HistoryOf(s, tick.instrument).hasSignal ==> (r.base != s.base <==> ShortAboveLong(h, s.shortPeriod, s.longPeriod))
    ensures var h := r.histories[tick.instrument].prices;
      HistoryOf(s, tick.instrument).hasSignal ==> (r.base != s.base <==> ShortBelowLong(h, s.shortPeriod, s.longPeriod))
  {
    var hist := HistoryOf(s, tick.instrument);
    var price := PriceFromColumns(tick, s.mode, s.columns);
    var prices := Push(hist.prices, price, s.longPeriod);
    var d := Decide(prices, hist.hasSignal, s.shortPeriod, s.longPeriod);
    var base := if d.Some? then ExecuteOrder(s.base, tick.instrument, d.value, price, 1) else s.base;
    assert d.Some? ==> base.tradeCount != s.base.tradeCount;
    s.(base := base, histories := s.histories[tick.instrument := History(prices, hist.hasSignal != d.Some?)])
  }

  /** The next side of an alternating sequence keeps it alternating. */
  lemma AlternatesStep(sides: seq<Side>, side: Side)
    requires Alternates(sides)
    requires side == (if |sides| % 2 == 1 then Sell else Buy)
    ensures Alternates(sides + [side])
  {
  }

  /**
   * `on_market_data` keeps the invariant: so orders for an instrument
   * alternate buy, sell, buy, ... starting with a buy, and the unsigned
   * position never wraps (it stays 0 or 1).
   */
  lemma OnMarketDataKeepsInv(s: Sma, tick: MarketDataTick)
    requires Inv(s)
    ensures Inv(OnMarketData(s, tick))
  {
    var r := OnMarketData(s, tick);
    var i := tick.instrument;
    forall k
      ensures Consistent(r.base, k, HistoryOf(r, k).hasSignal)
    {
      if r.base != s.base {
        assert Consistent(s.base, i, HistoryOf(s, i).hasSignal);
        assert Consistent(s.base, k, HistoryOf(s, k).hasSignal);
        ExecuteOrderConsistent(s.base, i, HistoryOf(s, i).hasSignal, PriceFromColumns(tick, s.mode, s.columns), k, HistoryOf(s, k).hasSignal);
      } else {
        assert Consistent(s.base, k, HistoryOf(s, k).hasSignal);
      }
    }
  }

  /** Feeds a sequence of ticks, in order. */
  function Run(s: Sma, ticks: seq<MarketDataTick>): (r: Sma)
    requires Inv(s)
    ensures Inv(r)
    decreases |ticks|
  {
    if ticks == [] then s
    else
      OnMarketDataKeepsInv(s, ticks[0]);
      Run(OnMarketData(s, ticks[0]), ticks[1..])
  }

  /**
   * With periods 1 and 2 and no signal held, a history of one close at 1
   * followed by a close of 2 moves the short mean (2) above the long mean
   * (1.5): the tick buys one unit at 2.
   */
  lemma RisingCloseBuys(s: Sma, tick: MarketDataTick)
    requires s.shortPeriod == 1 && s.longPeriod == 2 && s.mode == Close
    requires forall k :: k in s.histories ==> |s.histories[k].prices| <= 2
    requires HistoryOf(s, tick.instrument) == History([1.0], false) && tick.lastPrice == 2.0
    ensures OnMarketData(s, tick).base == ExecuteOrder(s.base, tick.instrument, Buy, 2.0, 1)
  {
    var r := OnMarketData(s, tick);
    var h := r.histories[tick.instrument].prices;
    assert h == [1.0, 2.0];
    assert MovingAverage.Sum(h[1..]) == 2.0 by {
      assert h[1..][..0] == [];
    }
    assert MovingAverage.Sum(h) == 3.0 by {
      assert h[..1][..0] == [];
    }
    assert ShortAboveLong(h, 1, 2);
    assert r.base != s.base;
  }

  /**
   * Whatever ticks arrive, a fresh strategy's orders for any instrument are
   * buy, sell, buy, ..., and its position in it is 1 right after a buy and
   * 0 otherwise.
   */
  lemma OrdersAlternateFromStart(id: string, shortPeriod: int, longPeriod: int, mode: PriceMode,
                                 columns: map<string, string>, firstOrderId: nat, ticks: seq<MarketDataTick>, k: string)
    requires 1 <= shortPeriod <= longPeriod
    ensures var r := Run(Init(id, shortPeriod, longPeriod, mode, columns, firstOrderId), ticks);
      var sides := SidesFor(r.base.executed, k);
      Alternates(sides)
      && PositionOf(r.base, k).quantity == (if |sides| % 2 == 1 then 1 else 0)
  {
    var r := Run(Init(id, shortPeriod, longPeriod, mode, columns, firstOrderId), ticks);
    assert Consistent(r.base, k, HistoryOf(r, k).hasSignal);
  }
}
