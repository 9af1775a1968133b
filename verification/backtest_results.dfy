/**
 * The summary statistics of a backtest (`BacktestResults::win_rate`,
 * `average_trade` and `profit_factor`, include/core/engine.h).
 *
 * Fill prices are integer ticks, so the per-fill pnl and the gross sums are
 * exact integers; only the final ratios are `real`.
 */
module BacktestResults {
  import opened Types

  datatype Results = Results(
    totalPnl: real,
    totalTrades: nat,
    winningTrades: nat,
    losingTrades: nat,
    tradeHistory: seq<Fill>)

  /** `win_rate`: the share of winning trades, 0 when no trade was made. */
  function WinRate(r: Results): (w: real)
    ensures r.totalTrades == 0 ==> w == 0.0
    ensures r.totalTrades > 0 ==> w * r.totalTrades as real == r.winningTrades as real
    ensures r.winningTrades <= r.totalTrades ==> 0.0 <= w <= 1.0
  {
    if r.totalTrades > 0 then r.winningTrades as real / r.totalTrades as real else 0.0
  }

  /** `average_trade`: the pnl per trade, 0 when no trade was made. */
  function AverageTrade(r: Results): (a: real)
    ensures r.totalTrades == 0 ==> a == 0.0
    ensures r.totalTrades > 0 ==> a * r.totalTrades as real == r.totalPnl
  {
    if r.totalTrades > 0 then r.totalPnl / r.totalTrades as real else 0.0
  }

  /** The price of the most recent BUY fill, or 0 when there is none. */
  function LastEntry(h: seq<Fill>): int {
    if h == [] then 0
    else if h[|h| - 1].side == Buy then h[|h| - 1].price
    else LastEntry(h[..|h| - 1])
  }

  /** The pnl of fill `i` if it is a SELL: its price over the last entry, times its quantity. */
  function SellPnl(h: seq<Fill>, i: nat): int
    requires i < |h|
  {
    (h[i].price - LastEntry(h[..i])) * h[i].quantity
  }

  /** The sum of the positive SELL pnls. */
  function GrossProfit(h: seq<Fill>): (g: int)
    ensures g >= 0
  {
    if h == [] then 0
    else
      var i := |h| - 1;
      GrossProfit(h[..i]) + (if h[i].side == Sell && SellPnl(h, i) > 0 then SellPnl(h, i) else 0)
  }

  /** The sum of the sizes of the non-positive SELL pnls. */
  function GrossLoss(h: seq<Fill>): (g: int)
    ensures g >= 0
  {
    if h == [] then 0
    else
      var i := |h| - 1;
      GrossLoss(h[..i]) + (if h[i].side == Sell && SellPnl(h, i) <= 0 then -SellPnl(h, i) else 0)
  }

  /**
   * `profit_factor`: one pass over the fill history; a BUY sets the entry
   * price, a SELL books its pnl against it as profit or loss. The factor is
   * profit over loss, or 0 when nothing was lost.
   */
  method ProfitFactor(r: Results) returns (pf: real)
    ensures pf >= 0.0
    ensures GrossLoss(r.tradeHistory) == 0 ==> pf == 0.0
    ensures GrossLoss(r.tradeHistory) > 0 ==> pf * GrossLoss(r.tradeHistory) as real == GrossProfit(r.tradeHistory) as real
  {
    var h := r.tradeHistory;
    var grossProfit := 0;
    var grossLoss := 0;
    var lastEntry := 0;
    var i := 0;
    while i < |h|
      invariant 0 <= i <= |h|
      invariant grossProfit == GrossProfit(h[..i])
      invariant grossLoss == GrossLoss(h[..i])
      invariant lastEntry == LastEntry(h[..i])
    {
      PrefixStep(h, i);
      var f := h[i];
      if f.side == Sell {
        var pnl := (f.price - lastEntry) * f.quantity;
        if pnl > 0 {
          grossProfit := grossProfit + pnl;
        } else {
          grossLoss := grossLoss - pnl;
        }
      } else {
        lastEntry := f.price;
      }
      i := i + 1;
    }
    assert h[..|h|] == h;
    pf := if grossLoss > 0 then grossProfit as real / grossLoss as real else 0.0;
  }

  /** How the entry price and the gross sums change from one prefix of the history to the next. */
  lemma PrefixStep(h: seq<Fill>, i: nat)
    requires i < |h|
    ensures var f, p := h[i], h[..i];
      var pnl := (f.price - LastEntry(p)) * f.quantity;
      LastEntry(h[..i + 1]) == (if f.side == Buy then f.price else LastEntry(p))
      && GrossProfit(h[..i + 1]) == GrossProfit(p) + (if f.side == Sell && pnl > 0 then pnl else 0)
      && GrossLoss(h[..i + 1]) == GrossLoss(p) + (if f.side == Sell && pnl <= 0 then -pnl else 0)
  {
    assert h[..i + 1][..i] == h[..i];
  }

  /**
   * Nothing is lost exactly when no SELL fill is below its entry price; a
   * SELL at its entry price counts as a loss of 0.
   */
  lemma {:induction false} NoLossIffEverySellGains(h: seq<Fill>)
    ensures GrossLoss(h) == 0 <==> forall i :: 0 <= i < |h| && h[i].side == Sell ==> SellPnl(h, i) >= 0
    decreases |h|
  {
    if h != [] {
      var n := |h| - 1;
      NoLossIffEverySellGains(h[..n]);
      forall i | 0 <= i < n
        ensures SellPnl(h, i) == SellPnl(h[..n], i)
      {
        assert h[..i] == h[..n][..i];
      }
    }
  }

  /** A SELL with no BUY before it is measured against an entry price of 0. */
  lemma SellWithoutEntry(h: seq<Fill>, i: nat)
    requires i < |h| && h[i].side == Sell
    requires forall j :: 0 <= j < i ==> h[j].side == Sell
    ensures SellPnl(h, i) == h[i].price * h[i].quantity
  {
    NoBuyNoEntry(h[..i]);
  }

  lemma {:induction false} NoBuyNoEntry(h: seq<Fill>)
    requires forall j :: 0 <= j < |h| ==> h[j].side == Sell
    ensures LastEntry(h) == 0
    decreases |h|
  {
    if h != [] {
      NoBuyNoEntry(h[..|h| - 1]);
    }
  }

  /** A SELL is measured against the most recent BUY before it. */
  lemma {:induction false} EntryIsMostRecentBuy(h: seq<Fill>, b: nat, i: nat)
    requires b < i < |h| && h[b].side == Buy
    requires forall j :: b < j < i ==> h[j].side == Sell
    ensures LastEntry(h[..i]) == h[b].price
    decreases i - b
  {
    if i - 1 > b {
      EntryIsMostRecentBuy(h, b, i - 1);
      assert h[..i][..i - 1] == h[..i - 1];
    }
  }
}
