/**
 * Shared vocabulary of the backtesting kernel: sides, orders, fills,
 * positions and market-data ticks.
 *
 * Prices of orders and fills are integer ticks; volumes and order ids are
 * natural numbers (the source's 64-bit unsigned wrap-around is not modelled);
 * timestamps are integer nanoseconds. Tick prices are `real`, because the
 * components that read ticks (strategies, statistics) do real arithmetic on them.
 */
module Types {

  /** An optional value: the source's `std::optional`. */
  datatype Option<+T> = None | Some(value: T)

  datatype Side = Buy | Sell

  function Opposite(s: Side): Side {
    if s == Buy then Sell else Buy
  }

  datatype OrderType = Market | Limit | Stop | StopLimit

  datatype OrderStatus = Pending | PartialFill | Filled | Cancelled | Rejected

  /** An order; `price` is its limit price (ignored by market matching). */
  datatype Order = Order(
    id: nat,
    timestamp: int,
    instrument: string,
    strategy: string,
    side: Side,
    kind: OrderType,
    price: int,
    quantity: nat)

  /** One execution at one price. */
  datatype Fill = Fill(
    orderId: nat,
    timestamp: int,
    instrument: string,
    strategy: string,
    side: Side,
    price: int,
    quantity: nat,
    commission: int)

  /**
   * A strategy's holding in one instrument. The quantity is the source's
   * unsigned 64-bit volume, kept in [0, 2^64): a short position wraps around.
   */
  datatype Position = Position(
    instrument: string,
    strategy: string,
    quantity: nat,
    averagePrice: real,
    unrealizedPnl: real,
    realizedPnl: real)

  /** One market-data snapshot of one instrument. */
  datatype MarketDataTick = MarketDataTick(
    timestamp: int,
    instrument: string,
    bidPrice: real,
    askPrice: real,
    bidSize: nat,
    askSize: nat,
    lastPrice: real,
    volume: nat,
    open: real,
    high: real,
    low: real,
    close: real,
    date: string)

  function Min(a: int, b: int): int {
    if a <= b then a else b
  }

  function Abs(x: int): nat {
    if x < 0 then -x else x
  }

  /**
   * A map read that falls back to a default for a missing key: the value a
   * C++ `operator[]` on an unordered map yields (it inserts the default).
   */
  function Lookup<K, V>(m: map<K, V>, k: K, d: V): V {
    if k in m then m[k] else d
  }
}
