/**
 * The long-only trade simulation over a signal series and its statistics
 * (`Backtester`, src/metrics/backtester.cpp and include/metrics/backtester.h).
 * A signal 1 opens a position at the close when flat, a signal -1 closes it
 * at the close when in position; each round trip is one `Trade`.
 */
module Backtester {
  import opened Types
  import opened MovingAverage

  datatype Trade = Trade(buyIndex: nat, sellIndex: nat, buyPrice: real, sellPrice: real, pnl: real)

  datatype Backtester = Backtester(initialCash: real, finalCash: real, trades: seq<Trade>)

  const DefaultInitialCash: real := 10000.0

  /** `Backtester(init_cash)`: no trades, and the final cash is the initial cash. */
  function Init(cash: real): (b: Backtester)
    ensures b.initialCash == cash && b.finalCash == cash && b.trades == []
    ensures GetPnl(b) == 0.0
  {
    Backtester(cash, cash, [])
  }

  /**
   * The trades one run produces from bar `i` on, given the bar of the open
   * position if there is one.
   */
  function Sim(c: seq<real>, sig: seq<int>, i: nat, open: Option<nat>): seq<Trade>
    requires i <= |c| <= |sig|
    requires open.Some? ==> open.value < |c|
    decreases |c| - i
  {
    if i == |c| then []
    else if sig[i] == 1 && open.None? then Sim(c, sig, i + 1, Some(i))
    else if sig[i] == -1 && open.Some? then
      [Trade(open.value, i, c[open.value], c[i], c[i] - c[open.value])] + Sim(c, sig, i + 1, None)
    else Sim(c, sig, i + 1, open)
  }

  function SumPnl(ts: seq<Trade>): real {
    if ts == [] then 0.0 else ts[0].pnl + SumPnl(ts[1..])
  }

  lemma {:induction false} SumPnlAppend(a: seq<Trade>, b: seq<Trade>)
    ensures SumPnl(a + b) == SumPnl(a) + SumPnl(b)
    decreases |a|
  {
    if a != [] {
      SumPnlAppend(a[1..], b);
      assert (a + b)[1..] == a[1..] + b;
    } else {
      assert a + b == b;
    }
  }

  /**
   * `run_simulation`: the trades of this run are appended to those of
   * earlier runs and their pnl added to the final cash; the open position is
   * not carried from one run to the next.
   */
  method RunSimulation(b: Backtester, data: seq<DataPoint>, signals: seq<int>) returns (r: Backtester)
    requires |signals| >= |data|
    ensures r.initialCash == b.initialCash
    ensures r.trades == b.trades + Sim(Closes(data), signals, 0, None)
    ensures r.finalCash == b.finalCash + SumPnl(Sim(Closes(data), signals, 0, None))
    ensures GetPnl(b) == SumPnl(b.trades) ==> GetPnl(r) == SumPnl(r.trades)
  {
    var c := Closes(data);
    ghost var run := Sim(c, signals, 0, None);
    var trades, cash := b.trades, b.finalCash;
    var open: Option<nat> := None;
    var i := 0;
    while i < |data|
      invariant 0 <= i <= |data|
      invariant open.Some? ==> open.value < i
      invariant trades + Sim(c, signals, i, open) == b.trades + run
      invariant cash + SumPnl(Sim(c, signals, i, open)) == b.finalCash + SumPnl(run)
    {
      if signals[i] == 1 && open.None? {
        SimPass(c, signals, i, open, Some(i));
        open := Some(i);
      } else if signals[i] == -1 && open.Some? {
        var t := Trade(open.value, i, c[open.value], c[i], c[i] - c[open.value]);
        CloseKeepsRun(c, signals, i, open.value, trades, cash);
        trades, cash := trades + [t], cash + t.pnl;
        open := None;
      } else {
        SimPass(c, signals, i, open, open);
      }
      i := i + 1;
    }
    assert trades + [] == trades;
    SumPnlAppend(b.trades, run);
    r := Backtester(b.initialCash, cash, trades);
  }

  /** Closing a trade moves it from the rest of the run to the recorded trades, and its pnl into the cash. */
  lemma CloseKeepsRun(c: seq<real>, sig: seq<int>, i: nat, o: nat, trades: seq<Trade>, cash: real)
    requires i < |c| <= |sig| && o < |c| && sig[i] == -1
    ensures var t := Trade(o, i, c[o], c[i], c[i] - c[o]);
      var rest := Sim(c, sig, i + 1, None);
      trades + Sim(c, sig, i, Some(o)) == (trades + [t]) + rest
      && cash + SumPnl(Sim(c, sig, i, Some(o))) == (cash + t.pnl) + SumPnl(rest)
  {
    var t := Trade(o, i, c[o], c[i], c[i] - c[o]);
    SimClose(c, sig, i, o);
    assert trades + ([t] + Sim(c, sig, i + 1, None)) == (trades + [t]) + Sim(c, sig, i + 1, None);
  }

  /** A bar that closes nothing hands the run on to the next bar, opening on a 1 while flat. */
  lemma SimPass(c: seq<real>, sig: seq<int>, i: nat, open: Option<nat>, next: Option<nat>)
    requires i < |c| <= |sig| && (open.Some? ==> open.value < |c|)
    requires !(sig[i] == -1 && open.Some?)
    requires next == if sig[i] == 1 && open.None? then Some(i) else open
    ensures Sim(c, sig, i, open) == Sim(c, sig, i + 1, next)
  {
  }

  /** A -1 while in position closes one trade at this bar. */
  lemma SimClose(c: seq<real>, sig: seq<int>, i: nat, o: nat)
    requires i < |c| <= |sig| && o < |c| && sig[i] == -1
    ensures var t := Trade(o, i, c[o], c[i], c[i] - c[o]);
      Sim(c, sig, i, Some(o)) == [t] + Sim(c, sig, i + 1, None)
      && SumPnl(Sim(c, sig, i, Some(o))) == t.pnl + SumPnl(Sim(c, sig, i + 1, None))
  {
    var t := Trade(o, i, c[o], c[i], c[i] - c[o]);
    SumPnlCons(t, Sim(c, sig, i + 1, None));
  }

  lemma SumPnlCons(t: Trade, rest: seq<Trade>)
    ensures SumPnl([t] + rest) == t.pnl + SumPnl(rest)
  {
    assert ([t] + rest)[1..] == rest;
  }

  /** `get_pnl`: what the run added to the starting cash. */
  function GetPnl(b: Backtester): (r: real)
    ensures b.finalCash == b.initialCash + r
  {
    b.finalCash - b.initialCash
  }

  /** `get_num_trades`: with none, the average trade and the win rate are both 0. */
  function GetNumTrades(b: Backtester): (r: nat)
    ensures r == 0 <==> b.trades == []
    ensures r == 0 ==> GetAverageTradePnl(b) == 0.0 && GetWinRate(b) == 0.0
  {
    |b.trades|
  }

  /** `get_average_trade_pnl`: 0 without trades. */
  function GetAverageTradePnl(b: Backtester): (r: real)
    ensures b.trades == [] ==> r == 0.0
    ensures b.trades != [] ==> r * |b.trades| as real == SumPnl(b.trades)
  {
    if b.trades == [] then 0.0 else SumPnl(b.trades) / |b.trades| as real
  }

  /** The number of trades with a positive pnl. */
  function Wins(ts: seq<Trade>): (n: nat)
    ensures n <= |ts|
  {
    if ts == [] then 0 else (if ts[0].pnl > 0.0 then 1 else 0) + Wins(ts[1..])
  }

  /** `get_win_rate`: the share of winning trades, 0 without trades. */
  function GetWinRate(b: Backtester): (r: real)
    ensures 0.0 <= r <= 1.0
    ensures b.trades == [] ==> r == 0.0
  {
    if b.trades == [] then 0.0 else Wins(b.trades) as real / |b.trades| as real
  }

  /** Every trade wins exactly when the win rate is 1. */
  lemma {:induction false} AllWinsCount(ts: seq<Trade>)
    ensures Wins(ts) == |ts| <==> forall k :: 0 <= k < |ts| ==> ts[k].pnl > 0.0
    decreases |ts|
  {
    if ts != [] {
      AllWinsCount(ts[1..]);
      assert forall k :: 1 <= k < |ts| ==> ts[k] == ts[1..][k - 1];
    }
  }

  lemma WinRateOne(b: Backtester)
    requires b.trades != []
    ensures GetWinRate(b) == 1.0 <==> forall k :: 0 <= k < |b.trades| ==> b.trades[k].pnl > 0.0
  {
    AllWinsCount(b.trades);
    var w, n := Wins(b.trades) as real, |b.trades| as real;
    assert w / n == 1.0 <==> w == n;
  }

  /**
   * The fold of `get_max_drawdown` over the remaining trades: the equity
   * moves by each pnl, the peak follows it upwards, and the largest drop
   * relative to the peak is kept.
   */
  function Drawdown(ts: seq<Trade>, peak: real, current: real, maxDd: real): (r: real)
    requires peak > 0.0
    ensures r >= maxDd
  {
    if ts == [] then maxDd
    else
      var cur := current + ts[0].pnl;
      var pk := if cur > peak then cur else peak;
      var dd := (pk - cur) / pk;
      Drawdown(ts[1..], pk, cur, if dd > maxDd then dd else maxDd)
  }

  /** `get_max_drawdown`, for a positive initial cash. */
  function GetMaxDrawdown(b: Backtester): (r: real)
    requires b.initialCash > 0.0
    ensures r >= 0.0
  {
    Drawdown(b.trades, b.initialCash, b.initialCash, 0.0)
  }

  /** Without losing trades the equity never falls below its peak, so no drawdown is recorded. */
  lemma {:induction false} NoLossNoDrawdown(ts: seq<Trade>, peak: real, maxDd: real)
    requires peak > 0.0 && maxDd >= 0.0
    requires forall k :: 0 <= k < |ts| ==> ts[k].pnl >= 0.0
    ensures Drawdown(ts, peak, peak, maxDd) == maxDd
    decreases |ts|
  {
    if ts != [] {
      var cur := peak + ts[0].pnl;
      assert cur >= peak;
      assert forall k :: 0 <= k < |ts[1..]| ==> ts[1..][k].pnl == ts[k + 1].pnl;
      NoLossNoDrawdown(ts[1..], cur, maxDd);
    }
  }

  lemma NoLosingTradeNoDrawdown(b: Backtester)
    requires b.initialCash > 0.0
    requires forall k :: 0 <= k < |b.trades| ==> b.trades[k].pnl >= 0.0
    ensures GetMaxDrawdown(b) == 0.0
  {
    NoLossNoDrawdown(b.trades, b.initialCash, 0.0);
  }

  /** A trade that fits the run: bought on a 1 and sold on a later -1, at the closes of those bars. */
  predicate Fits(c: seq<real>, sig: seq<int>, t: Trade)
    requires |c| <= |sig|
  {
    t.buyIndex < t.sellIndex < |c|
    && sig[t.buyIndex] == 1 && sig[t.sellIndex] == -1
    && t.buyPrice == c[t.buyIndex] && t.sellPrice == c[t.sellIndex]
    && t.pnl == c[t.sellIndex] - c[t.buyIndex]
  }

  /** Each trade ends before the next one starts. */
  predicate Ordered(ts: seq<Trade>) {
    forall k :: 0 <= k < |ts| - 1 ==> ts[k].sellIndex < ts[k + 1].buyIndex
  }

  /** The bar a run from `i` opens its first trade at, at the earliest. */
  function From(i: nat, open: Option<nat>): nat {
    if open.Some? then open.value else i
  }

  /** Every trade fits and is sold at bar `i` or later. */
  ghost predicate AllFit(c: seq<real>, sig: seq<int>, ts: seq<Trade>, i: nat)
    requires |c| <= |sig|
  {
    forall k :: 0 <= k < |ts| ==> Fits(c, sig, ts[k]) && ts[k].sellIndex >= i
  }

  /** A trade sold at bar `i`, in front of fitting, ordered trades that start after `i`. */
  lemma ConsFit(c: seq<real>, sig: seq<int>, t: Trade, rest: seq<Trade>, i: nat)
    requires |c| <= |sig| && Fits(c, sig, t) && t.sellIndex == i
    requires AllFit(c, sig, rest, i + 1) && Ordered(rest)
    requires rest != [] ==> rest[0].buyIndex >= i + 1
    ensures AllFit(c, sig, [t] + rest, i) && Ordered([t] + rest)
  {
    assert forall k :: 1 <= k < |[t] + rest| ==> ([t] + rest)[k] == rest[k - 1];
  }

  /**
   * Every trade of a run fits: pnl is the close at the sell minus the close
   * at the buy, and the trades are ordered and disjoint.
   */
  lemma {:induction false} SimTradesFit(c: seq<real>, sig: seq<int>, i: nat, open: Option<nat>)
    requires i <= |c| <= |sig|
    requires open.Some? ==> open.value < i && sig[open.value] == 1
    ensures var ts := Sim(c, sig, i, open);
      AllFit(c, sig, ts, i)
      && (ts != [] ==> ts[0].buyIndex >= From(i, open))
      && (ts != [] && open.Some? ==> ts[0].buyIndex == open.value)
      && Ordered(ts)
    decreases |c| - i
  {
    if i < |c| {
      if sig[i] == 1 && open.None? {
        SimPass(c, sig, i, open, Some(i));
        SimTradesFit(c, sig, i + 1, Some(i));
      } else if sig[i] == -1 && open.Some? {
        SimClose(c, sig, i, open.value);
        SimTradesFit(c, sig, i + 1, None);
        var t := Trade(open.value, i, c[open.value], c[i], c[i] - c[open.value]);
        ConsFit(c, sig, t, Sim(c, sig, i + 1, None), i);
      } else {
        SimPass(c, sig, i, open, open);
        SimTradesFit(c, sig, i + 1, open);
      }
    }
  }

  /** No -1 lies strictly inside a trade. */
  ghost predicate NoSellInside(c: seq<real>, sig: seq<int>, ts: seq<Trade>)
    requires |c| <= |sig|
  {
    forall k, j :: 0 <= k < |ts| && ts[k].buyIndex < j < ts[k].sellIndex && j < |c| ==> sig[j] != -1
  }

  /** No 1 lies strictly between a trade and the next. */
  ghost predicate NoBuyBetween(c: seq<real>, sig: seq<int>, ts: seq<Trade>)
    requires |c| <= |sig|
  {
    forall k, j :: 0 <= k < |ts| - 1 && ts[k].sellIndex < j < ts[k + 1].buyIndex && j < |c| ==> sig[j] != 1
  }

  /** A trade sold at bar `i` with no -1 inside, in front of trades with none inside either. */
  lemma ConsNoSellInside(c: seq<real>, sig: seq<int>, t: Trade, rest: seq<Trade>, i: nat)
    requires |c| <= |sig| && t.sellIndex == i
    requires forall j :: t.buyIndex < j < i && j < |c| ==> sig[j] != -1
    requires NoSellInside(c, sig, rest)
    ensures NoSellInside(c, sig, [t] + rest)
  {
    assert forall k :: 1 <= k < |[t] + rest| ==> ([t] + rest)[k] == rest[k - 1];
  }

  /** A trade sold at bar `i`, in front of trades with no 1 before the first or between any two. */
  lemma ConsNoBuyBetween(c: seq<real>, sig: seq<int>, t: Trade, rest: seq<Trade>, i: nat)
    requires |c| <= |sig| && t.sellIndex == i
    requires NoBuyBetween(c, sig, rest)
    requires rest != [] ==> forall j :: i + 1 <= j < rest[0].buyIndex && j < |c| ==> sig[j] != 1
    ensures NoBuyBetween(c, sig, [t] + rest)
  {
    assert forall k :: 1 <= k < |[t] + rest| ==> ([t] + rest)[k] == rest[k - 1];
  }

  /**
   * A trade is closed at the first -1 after it opened: no -1 lies strictly
   * inside a trade.
   */
  lemma {:induction false} SimClosesAtFirstSell(c: seq<real>, sig: seq<int>, i: nat, open: Option<nat>)
    requires i <= |c| <= |sig|
    requires open.Some? ==> open.value < i && forall j :: open.value < j < i ==> sig[j] != -1
    ensures NoSellInside(c, sig, Sim(c, sig, i, open))
    decreases |c| - i
  {
    if i < |c| {
      if sig[i] == 1 && open.None? {
        SimPass(c, sig, i, open, Some(i));
        SimClosesAtFirstSell(c, sig, i + 1, Some(i));
      } else if sig[i] == -1 && open.Some? {
        SimClose(c, sig, i, open.value);
        SimClosesAtFirstSell(c, sig, i + 1, None);
        var t := Trade(open.value, i, c[open.value], c[i], c[i] - c[open.value]);
        ConsNoSellInside(c, sig, t, Sim(c, sig, i + 1, None), i);
      } else {
        SimPass(c, sig, i, open, open);
        SimClosesAtFirstSell(c, sig, i + 1, open);
      }
    }
  }

  /**
   * A trade is opened at the first 1 while flat: no 1 lies between a run's
   * start, or a trade's end, and the next trade's start.
   */
  lemma {:induction false} SimOpensAtFirstBuy(c: seq<real>, sig: seq<int>, i: nat, open: Option<nat>)
    requires i <= |c| <= |sig|
    requires open.Some? ==> open.value < i && sig[open.value] == 1
    ensures var ts := Sim(c, sig, i, open);
      NoBuyBetween(c, sig, ts)
      && (ts != [] && open.None? ==> forall j :: i <= j < ts[0].buyIndex && j < |c| ==> sig[j] != 1)
    decreases |c| - i
  {
    if i < |c| {
      if sig[i] == 1 && open.None? {
        SimPass(c, sig, i, open, Some(i));
        SimOpensAtFirstBuy(c, sig, i + 1, Some(i));
        SimTradesFit(c, sig, i + 1, Some(i));
      } else if sig[i] == -1 && open.Some? {
        SimClose(c, sig, i, open.value);
        SimOpensAtFirstBuy(c, sig, i + 1, None);
        var t := Trade(open.value, i, c[open.value], c[i], c[i] - c[open.value]);
        ConsNoBuyBetween(c, sig, t, Sim(c, sig, i + 1, None), i);
      } else {
        SimPass(c, sig, i, open, open);
        SimOpensAtFirstBuy(c, sig, i + 1, open);
      }
    }
  }

  /** A position still open when the data ends yields no trade. */
  lemma {:induction false} UnclosedPositionYieldsNoTrade(c: seq<real>, sig: seq<int>, i: nat, o: nat)
    requires i <= |c| <= |sig| && o < |c|
    requires forall j :: i <= j < |c| ==> sig[j] != -1
    ensures Sim(c, sig, i, Some(o)) == []
    decreases |c| - i
  {
    if i < |c| {
      UnclosedPositionYieldsNoTrade(c, sig, i + 1, o);
    }
  }
}
