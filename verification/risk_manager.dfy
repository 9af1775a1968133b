/**
 * The pre-trade risk gate and post-trade bookkeeping of `RiskManager`
 * (include/strategy/risk_manager.h).
 *
 * The manager is a record of maps. Every wall-clock read of the source is a
 * `now` parameter (integer nanoseconds). Map reads through `operator[]`
 * insert a default entry, and the model inserts it too. Positions are signed
 * integers, as the source's comment intends. Prices, exposures and PnL are
 * integer ticks, consistent with the order and fill records.
 */
module RiskManager {
  import opened Types
  import opened MapSums

  /** One minute in nanoseconds. */
  const Minute: int := 60_000_000_000

  /** The threshold on one trade's PnL below which a cooldown starts. */
  const SignificantLoss: int := -1000

  /**
   * The configurable limits. The source also declares a portfolio
   * exposure, a drawdown and a drawdown cooldown that no operation reads;
   * they are not part of this record.
   */
  datatype RiskLimits = RiskLimits(
    maxPositionSize: nat,
    maxNotionalExposure: int,
    maxDailyLoss: int,
    maxTotalLoss: int,
    maxOrdersPerMinute: nat,
    maxOrdersPerDay: nat,
    maxOrderSize: nat,
    lossCooldown: nat,
    enablePositionLimits: bool,
    enableLossLimits: bool,
    enableExposureLimits: bool,
    enableRateLimiting: bool)

  const DefaultLimits: RiskLimits := RiskLimits(
    1000000, 10000000, -10000, -50000, 100, 10000, 10000, 30 * Minute,
    true, true, true, true)

  datatype RiskCheckResult =
    | Approved
    | RejectedPositionLimit
    | RejectedExposureLimit
    | RejectedLossLimit
    | RejectedOrderSize
    | RejectedRateLimit
    | RejectedCooldown

  /** A rejection with the measured value and the limit it broke. */
  datatype Violation = Violation(result: RiskCheckResult, current: int, limit: int)

  /** Recent order timestamps (oldest first) and the day's order count. */
  datatype RateData = RateData(orderTimes: seq<int>, dailyOrders: nat)

  datatype PnLData = PnLData(dailyPnl: int, totalPnl: int, cooldownUntil: int)

  const NoRate: RateData := RateData([], 0)
  const NoPnL: PnLData := PnLData(0, 0, 0)

  /** Positions and exposures are keyed by (strategy, instrument). */
  type Key = (string, string)

  datatype RiskState = RiskState(
    limits: RiskLimits,
    strategyLimits: map<string, RiskLimits>,
    positions: map<Key, int>,
    exposures: map<Key, int>,
    rate: map<string, RateData>,
    pnl: map<string, PnLData>)

  datatype Outcome = Outcome(verdict: Option<Violation>, state: RiskState)

  function Init(limits: RiskLimits): RiskState {
    RiskState(limits, map[], map[], map[], map[], map[])
  }

  function SetLimits(s: RiskState, limits: RiskLimits): RiskState {
    s.(limits := limits)
  }

  function SetStrategyLimits(s: RiskState, strategy: string, limits: RiskLimits): RiskState {
    s.(strategyLimits := s.strategyLimits[strategy := limits])
  }

  /** The strategy's own limits when set, otherwise the global ones. */
  function LimitsFor(s: RiskState, strategy: string): RiskLimits {
    Lookup(s.strategyLimits, strategy, s.limits)
  }

  function RateOf(s: RiskState, strategy: string): RateData {
    Lookup(s.rate, strategy, NoRate)
  }

  function PnLOf(s: RiskState, strategy: string): PnLData {
    Lookup(s.pnl, strategy, NoPnL)
  }

  function PositionOf(s: RiskState, key: Key): int {
    Lookup(s.positions, key, 0)
  }

  /** A signed position moved by a buy (up) or a sell (down). */
  function Moved(position: int, side: Side, quantity: nat): int {
    if side == Buy then position + quantity else position - quantity
  }

  /**
   * Drops timestamps from the front of the queue while they are older than
   * `cutoff`; stops at the first one that is not (the queue is not assumed
   * to be sorted).
   */
  function PruneOld(q: seq<int>, cutoff: int): (r: seq<int>)
    ensures |r| <= |q| && r == q[|q| - |r|..]
    ensures r == [] || r[0] >= cutoff
    ensures forall i :: 0 <= i < |q| - |r| ==> q[i] < cutoff
  {
    if q == [] || q[0] >= cutoff then q
    else PruneOld(q[1..], cutoff)
  }

  /* ---------------- check_order, one stage per block of the source ---------------- */

  /**
   * The rate stage: with rate limiting on, it prunes the strategy's queue and
   * rejects when the pruned queue has reached the per-minute limit, or else
   * when the day's count has reached the daily limit; the per-minute breach
   * is the one reported when both hold.
   */
  function RateCheck(s: RiskState, strategy: string, lim: RiskLimits, now: int): (r: Outcome)
    ensures r.state == s.(rate := r.state.rate)
    ensures var rd := RateOf(s, strategy);
      var q := PruneOld(rd.orderTimes, now - Minute);
      (r.verdict.Some? <==> lim.enableRateLimiting && (|q| >= lim.maxOrdersPerMinute || rd.dailyOrders >= lim.maxOrdersPerDay))
      && (r.verdict.Some? && |q| >= lim.maxOrdersPerMinute ==>
            r.verdict.value == Violation(RejectedRateLimit, |q|, lim.maxOrdersPerMinute))
      && (r.verdict.Some? && |q| < lim.maxOrdersPerMinute ==>
            r.verdict.value == Violation(RejectedRateLimit, rd.dailyOrders, lim.maxOrdersPerDay))
      && (lim.enableRateLimiting ==> RateOf(r.state, strategy) == rd.(orderTimes := q))
      && (!lim.enableRateLimiting ==> r.state == s)
  {
    if !lim.enableRateLimiting then Outcome(None, s)
    else
      var rd := RateOf(s, strategy);
      var q := PruneOld(rd.orderTimes, now - Minute);
      var s' := s.(rate := s.rate[strategy := rd.(orderTimes := q)]);
      if |q| >= lim.maxOrdersPerMinute then
        Outcome(Some(Violation(RejectedRateLimit, |q|, lim.maxOrdersPerMinute)), s')
      else if rd.dailyOrders >= lim.maxOrdersPerDay then
        Outcome(Some(Violation(RejectedRateLimit, rd.dailyOrders, lim.maxOrdersPerDay)), s')
      else Outcome(None, s')
  }

  /** The position stage: rejects when the position the order would leave exceeds the limit in size. */
  function PositionCheck(s: RiskState, o: Order, lim: RiskLimits): (r: Outcome)
    ensures r.state == s.(positions := r.state.positions)
    ensures var next := Moved(PositionOf(s, (o.strategy, o.instrument)), o.side, o.quantity);
      (r.verdict.Some? <==> lim.enablePositionLimits && Abs(next) > lim.maxPositionSize)
      && (r.verdict.Some? ==> r.verdict.value == Violation(RejectedPositionLimit, Abs(next), lim.maxPositionSize))
    ensures PositionOf(r.state, (o.strategy, o.instrument)) == PositionOf(s, (o.strategy, o.instrument))
  {
    if !lim.enablePositionLimits then Outcome(None, s)
    else
      var key := (o.strategy, o.instrument);
      var pos := PositionOf(s, key);
      var s' := s.(positions := s.positions[key := pos]);
      var next := Moved(pos, o.side, o.quantity);
      if Abs(next) > lim.maxPositionSize then
        Outcome(Some(Violation(RejectedPositionLimit, Abs(next), lim.maxPositionSize)), s')
      else Outcome(None, s')
  }

  /** The exposure stage: rejects when the order's own notional exceeds the limit. */
  function ExposureCheck(s: RiskState, o: Order, lim: RiskLimits): (r: Outcome)
    ensures r.state == s.(exposures := r.state.exposures)
    ensures r.verdict.Some? <==> lim.enableExposureLimits && o.quantity * o.price > lim.maxNotionalExposure
    ensures r.verdict.Some? ==>
      r.verdict.value == Violation(RejectedExposureLimit, o.quantity * o.price, lim.maxNotionalExposure)
  {
    if !lim.enableExposureLimits then Outcome(None, s)
    else
      var key := (o.strategy, o.instrument);
      var notional := o.quantity * o.price;
      var s' := s.(exposures := s.exposures[key := Lookup(s.exposures, key, 0)]);
      if notional > lim.maxNotionalExposure then
        Outcome(Some(Violation(RejectedExposureLimit, notional, lim.maxNotionalExposure)), s')
      else Outcome(None, s')
  }

  /**
   * The loss stage: rejects a strategy below its daily loss limit, else below
   * its total loss limit, else still in its cooldown; the first of these
   * that holds is the one reported.
   */
  function LossCheck(s: RiskState, strategy: string, lim: RiskLimits, now: int): (r: Outcome)
    ensures r.state == s.(pnl := r.state.pnl)
    ensures var pd := PnLOf(s, strategy);
      (r.verdict.Some? <==>
         lim.enableLossLimits && (pd.dailyPnl < lim.maxDailyLoss || pd.totalPnl < lim.maxTotalLoss || pd.cooldownUntil > now))
      && (r.verdict.Some? && pd.dailyPnl < lim.maxDailyLoss ==>
            r.verdict.value == Violation(RejectedLossLimit, pd.dailyPnl, lim.maxDailyLoss))
      && (r.verdict.Some? && pd.dailyPnl >= lim.maxDailyLoss && pd.totalPnl < lim.maxTotalLoss ==>
            r.verdict.value == Violation(RejectedLossLimit, pd.totalPnl, lim.maxTotalLoss))
      && (r.verdict.Some? && pd.dailyPnl >= lim.maxDailyLoss && pd.totalPnl >= lim.maxTotalLoss ==>
            r.verdict.value == Violation(RejectedCooldown, 0, 0))
  {
    if !lim.enableLossLimits then Outcome(None, s)
    else
      var pd := PnLOf(s, strategy);
      var s' := s.(pnl := s.pnl[strategy := pd]);
      if pd.dailyPnl < lim.maxDailyLoss then
        Outcome(Some(Violation(RejectedLossLimit, pd.dailyPnl, lim.maxDailyLoss)), s')
      else if pd.totalPnl < lim.maxTotalLoss then
        Outcome(Some(Violation(RejectedLossLimit, pd.totalPnl, lim.maxTotalLoss)), s')
      else if pd.cooldownUntil > now then
        Outcome(Some(Violation(RejectedCooldown, 0, 0)), s')
      else Outcome(None, s')
  }

  /** One pre-trade condition: whether it fails, and the violation it reports then. */
  datatype Check = Check(fails: bool, violation: Violation)

  /**
   * The conditions `check_order` tests, in the order it tests them, each read
   * off the state before the check: order size, orders in the last minute,
   * orders today, position, notional, daily loss, total loss, cooldown.
   */
  function Checks(s: RiskState, o: Order, now: int): seq<Check> {
    var lim := LimitsFor(s, o.strategy);
    var rd := RateOf(s, o.strategy);
    var q := |PruneOld(rd.orderTimes, now - Minute)|;
    var pos := Abs(Moved(PositionOf(s, (o.strategy, o.instrument)), o.side, o.quantity));
    var notional := o.quantity * o.price;
    var pd := PnLOf(s, o.strategy);
    [ Check(lim.enablePositionLimits && o.quantity > lim.maxOrderSize,
            Violation(RejectedOrderSize, o.quantity, lim.maxOrderSize)),
      Check(lim.enableRateLimiting && q >= lim.maxOrdersPerMinute,
            Violation(RejectedRateLimit, q, lim.maxOrdersPerMinute)),
      Check(lim.enableRateLimiting && rd.dailyOrders >= lim.maxOrdersPerDay,
            Violation(RejectedRateLimit, rd.dailyOrders, lim.maxOrdersPerDay)),
      Check(lim.enablePositionLimits && pos > lim.maxPositionSize,
            Violation(RejectedPositionLimit, pos, lim.maxPositionSize)),
      Check(lim.enableExposureLimits && notional > lim.maxNotionalExposure,
            Violation(RejectedExposureLimit, notional, lim.maxNotionalExposure)),
      Check(lim.enableLossLimits && pd.dailyPnl < lim.maxDailyLoss,
            Violation(RejectedLossLimit, pd.dailyPnl, lim.maxDailyLoss)),
      Check(lim.enableLossLimits && pd.totalPnl < lim.maxTotalLoss,
            Violation(RejectedLossLimit, pd.totalPnl, lim.maxTotalLoss)),
      Check(lim.enableLossLimits && pd.cooldownUntil > now,
            Violation(RejectedCooldown, 0, 0)) ]
  }

  /** The violation of the first failing check; `None` when every check passes. */
  function FirstFailure(cs: seq<Check>): (r: Option<Violation>)
    ensures r.None? <==> forall i :: 0 <= i < |cs| ==> !cs[i].fails
  {
    if cs == [] then None
    else if cs[0].fails then Some(cs[0].violation)
    else
      assert forall i :: 1 <= i < |cs| ==> cs[i] == cs[1..][i - 1];
      FirstFailure(cs[1..])
  }

  /** The check at `i` is reported when it fails and every earlier one passes. */
  lemma {:induction false} FirstFailureAt(cs: seq<Check>, i: nat)
    requires i < |cs| && cs[i].fails
    requires forall j :: 0 <= j < i ==> !cs[j].fails
    ensures FirstFailure(cs) == Some(cs[i].violation)
    decreases i
  {
    if i > 0 {
      assert cs[1..][i - 1] == cs[i];
      FirstFailureAt(cs[1..], i - 1);
    }
  }

  /** With the size check passed, a rejecting rate stage reports the first failure. */
  lemma RateStageReports(s: RiskState, o: Order, now: int)
    requires var lim := LimitsFor(s, o.strategy); !(lim.enablePositionLimits && o.quantity > lim.maxOrderSize)
    ensures var r1 := RateCheck(s, o.strategy, LimitsFor(s, o.strategy), now);
      r1.verdict.Some? ==> r1.verdict == FirstFailure(Checks(s, o, now))
  {
    var cs := Checks(s, o, now);
    var r1 := RateCheck(s, o.strategy, LimitsFor(s, o.strategy), now);
    if r1.verdict.Some? {
      if cs[1].fails {
        FirstFailureAt(cs, 1);
      } else {
        FirstFailureAt(cs, 2);
      }
    }
  }

  /** With the size and rate checks passed, a rejecting position stage reports the first failure. */
  lemma PositionStageReports(s: RiskState, o: Order, now: int)
    requires var lim := LimitsFor(s, o.strategy); !(lim.enablePositionLimits && o.quantity > lim.maxOrderSize)
    requires RateCheck(s, o.strategy, LimitsFor(s, o.strategy), now).verdict.None?
    ensures var r2 := PositionCheck(RateCheck(s, o.strategy, LimitsFor(s, o.strategy), now).state, o, LimitsFor(s, o.strategy));
      r2.verdict.Some? ==> r2.verdict == FirstFailure(Checks(s, o, now))
  {
    StagesReadOriginal(s, o, now);
    var cs := Checks(s, o, now);
    var r2 := PositionCheck(RateCheck(s, o.strategy, LimitsFor(s, o.strategy), now).state, o, LimitsFor(s, o.strategy));
    if r2.verdict.Some? {
      FirstFailureAt(cs, 3);
    }
  }

  /** With every earlier check passed, a rejecting exposure stage reports the first failure. */
  lemma ExposureStageReports(s: RiskState, o: Order, now: int)
    requires var lim := LimitsFor(s, o.strategy); !(lim.enablePositionLimits && o.quantity > lim.maxOrderSize)
    requires RateCheck(s, o.strategy, LimitsFor(s, o.strategy), now).verdict.None?
    requires PositionCheck(RateCheck(s, o.strategy, LimitsFor(s, o.strategy), now).state, o, LimitsFor(s, o.strategy)).verdict.None?
    ensures var lim := LimitsFor(s, o.strategy);
      var r3 := ExposureCheck(PositionCheck(RateCheck(s, o.strategy, lim, now).state, o, lim).state, o, lim);
      r3.verdict.Some? ==> r3.verdict == FirstFailure(Checks(s, o, now))
  {
    StagesReadOriginal(s, o, now);
    var lim := LimitsFor(s, o.strategy);
    var cs := Checks(s, o, now);
    var r3 := ExposureCheck(PositionCheck(RateCheck(s, o.strategy, lim, now).state, o, lim).state, o, lim);
    if r3.verdict.Some? {
      FirstFailureAt(cs, 4);
    }
  }

  /** With every earlier check passed, the loss stage's verdict is the first failure, or none. */
  lemma LossStageReports(s: RiskState, o: Order, now: int)
    requires var lim := LimitsFor(s, o.strategy); !(lim.enablePositionLimits && o.quantity > lim.maxOrderSize)
    requires RateCheck(s, o.strategy, LimitsFor(s, o.strategy), now).verdict.None?
    requires PositionCheck(RateCheck(s, o.strategy, LimitsFor(s, o.strategy), now).state, o, LimitsFor(s, o.strategy)).verdict.None?
    requires var lim := LimitsFor(s, o.strategy);
      ExposureCheck(PositionCheck(RateCheck(s, o.strategy, lim, now).state, o, lim).state, o, lim).verdict.None?
    ensures var lim := LimitsFor(s, o.strategy);
      var r3 := ExposureCheck(PositionCheck(RateCheck(s, o.strategy, lim, now).state, o, lim).state, o, lim);
      LossCheck(r3.state, o.strategy, lim, now).verdict == FirstFailure(Checks(s, o, now))
  {
    StagesReadOriginal(s, o, now);
    var cs := Checks(s, o, now);
    if cs[5].fails {
      FirstFailureAt(cs, 5);
    } else if cs[6].fails {
      FirstFailureAt(cs, 6);
    } else if cs[7].fails {
      FirstFailureAt(cs, 7);
    }
  }

  /**
   * `check_order`: the checks run in source order and the first failing one
   * is reported, with its measured value and limit; `None` approves the
   * order. Only default entries and the pruned rate queue change the state.
   */
  function CheckOrder(s: RiskState, o: Order, now: int): (r: Outcome)
    ensures r.state.limits == s.limits && r.state.strategyLimits == s.strategyLimits
    ensures r.verdict == FirstFailure(Checks(s, o, now))
  {
    var lim := LimitsFor(s, o.strategy);
    if lim.enablePositionLimits && o.quantity > lim.maxOrderSize then
      FirstFailureAt(Checks(s, o, now), 0);
      Outcome(Some(Violation(RejectedOrderSize, o.quantity, lim.maxOrderSize)), s)
    else
      RateStageReports(s, o, now);
      var r1 := RateCheck(s, o.strategy, lim, now);
      if r1.verdict.Some? then r1
      else
        PositionStageReports(s, o, now);
        var r2 := PositionCheck(r1.state, o, lim);
        if r2.verdict.Some? then r2
        else
          ExposureStageReports(s, o, now);
          var r3 := ExposureCheck(r2.state, o, lim);
          if r3.verdict.Some? then r3
          else
            LossStageReports(s, o, now);
            LossCheck(r3.state, o.strategy, lim, now)
  }

  /**
   * Reference statement of the gate, read off the original state: the order
   * is approved exactly when every enabled check passes.
   */
  predicate Passes(s: RiskState, o: Order, now: int) {
    var lim := LimitsFor(s, o.strategy);
    var rd := RateOf(s, o.strategy);
    var pd := PnLOf(s, o.strategy);
    (lim.enablePositionLimits ==>
      o.quantity <= lim.maxOrderSize
      && Abs(Moved(PositionOf(s, (o.strategy, o.instrument)), o.side, o.quantity)) <= lim.maxPositionSize)
    && (lim.enableRateLimiting ==>
      |PruneOld(rd.orderTimes, now - Minute)| < lim.maxOrdersPerMinute
      && rd.dailyOrders < lim.maxOrdersPerDay)
    && (lim.enableExposureLimits ==> o.quantity * o.price <= lim.maxNotionalExposure)
    && (lim.enableLossLimits ==>
      pd.dailyPnl >= lim.maxDailyLoss && pd.totalPnl >= lim.maxTotalLoss && pd.cooldownUntil <= now)
  }

  /** Both stages before the loss check leave the strategy's PnL entry as it was. */
  lemma StagesReadOriginal(s: RiskState, o: Order, now: int)
    ensures var lim := LimitsFor(s, o.strategy);
      var s1 := RateCheck(s, o.strategy, lim, now).state;
      var s2 := PositionCheck(s1, o, lim).state;
      var s3 := ExposureCheck(s2, o, lim).state;
      PositionOf(s1, (o.strategy, o.instrument)) == PositionOf(s, (o.strategy, o.instrument))
      && PnLOf(s3, o.strategy) == PnLOf(s, o.strategy)
  {
  }

  /** `check_order` approves exactly the orders that pass every enabled check. */
  lemma CheckOrderApprovesIffPasses(s: RiskState, o: Order, now: int)
    ensures CheckOrder(s, o, now).verdict == None <==> Passes(s, o, now)
  {
    StagesReadOriginal(s, o, now);
  }

  /** With position limits on, an oversized order is rejected for its size first. */
  lemma OrderSizeCheckedFirst(s: RiskState, o: Order, now: int)
    requires LimitsFor(s, o.strategy).enablePositionLimits
    requires o.quantity > LimitsFor(s, o.strategy).maxOrderSize
    ensures CheckOrder(s, o, now).verdict
      == Some(Violation(RejectedOrderSize, o.quantity, LimitsFor(s, o.strategy).maxOrderSize))
    ensures CheckOrder(s, o, now).state == s
  {
  }

  /** Everything `check_order` reads about one order, in two states. */
  predicate SameView(s: RiskState, t: RiskState, o: Order) {
    LimitsFor(s, o.strategy) == LimitsFor(t, o.strategy)
    && RateOf(s, o.strategy) == RateOf(t, o.strategy)
    && PositionOf(s, (o.strategy, o.instrument)) == PositionOf(t, (o.strategy, o.instrument))
    && PnLOf(s, o.strategy) == PnLOf(t, o.strategy)
  }

  lemma RateStageView(s: RiskState, t: RiskState, o: Order, lim: RiskLimits, now: int)
    requires SameView(s, t, o)
    ensures RateCheck(s, o.strategy, lim, now).verdict == RateCheck(t, o.strategy, lim, now).verdict
    ensures SameView(RateCheck(s, o.strategy, lim, now).state, RateCheck(t, o.strategy, lim, now).state, o)
  {
    if lim.enableRateLimiting {
      var rd := RateOf(s, o.strategy);
      var q := PruneOld(rd.orderTimes, now - Minute);
      RateStageEntry(s, o.strategy, lim, now);
      RateStageEntry(t, o.strategy, lim, now);
      var s1, t1 := RateCheck(s, o.strategy, lim, now).state, RateCheck(t, o.strategy, lim, now).state;
      assert LimitsFor(s1, o.strategy) == LimitsFor(t1, o.strategy);
      assert PositionOf(s1, (o.strategy, o.instrument)) == PositionOf(t1, (o.strategy, o.instrument));
      assert PnLOf(s1, o.strategy) == PnLOf(t1, o.strategy);
    }
  }

  /** The rate stage stores the pruned queue under the strategy. */
  lemma RateStageEntry(s: RiskState, strategy: string, lim: RiskLimits, now: int)
    requires lim.enableRateLimiting
    ensures RateOf(RateCheck(s, strategy, lim, now).state, strategy)
      == RateOf(s, strategy).(orderTimes := PruneOld(RateOf(s, strategy).orderTimes, now - Minute))
  {
  }

  lemma PositionStageView(s: RiskState, t: RiskState, o: Order, lim: RiskLimits)
    requires SameView(s, t, o)
    ensures PositionCheck(s, o, lim).verdict == PositionCheck(t, o, lim).verdict
    ensures SameView(PositionCheck(s, o, lim).state, PositionCheck(t, o, lim).state, o)
  {
  }

  lemma ExposureStageView(s: RiskState, t: RiskState, o: Order, lim: RiskLimits)
    requires SameView(s, t, o)
    ensures ExposureCheck(s, o, lim).verdict == ExposureCheck(t, o, lim).verdict
    ensures SameView(ExposureCheck(s, o, lim).state, ExposureCheck(t, o, lim).state, o)
  {
  }

  /** The verdict depends only on the order's limits, rate data, position and PnL. */
  lemma {:induction false} VerdictDependsOnView(s: RiskState, t: RiskState, o: Order, now: int)
    requires SameView(s, t, o)
    ensures CheckOrder(s, o, now).verdict == CheckOrder(t, o, now).verdict
  {
    var lim := LimitsFor(s, o.strategy);
    if !(lim.enablePositionLimits && o.quantity > lim.maxOrderSize) {
      RateStageView(s, t, o, lim, now);
      var s1, t1 := RateCheck(s, o.strategy, lim, now).state, RateCheck(t, o.strategy, lim, now).state;
      PositionStageView(s1, t1, o, lim);
      var s2, t2 := PositionCheck(s1, o, lim).state, PositionCheck(t1, o, lim).state;
      ExposureStageView(s2, t2, o, lim);
      var s3, t3 := ExposureCheck(s2, o, lim).state, ExposureCheck(t2, o, lim).state;
      assert PnLOf(s3, o.strategy) == PnLOf(t3, o.strategy);
    }
  }

  /**
   * A strategy with its own limits is judged by them alone: replacing the
   * global limits does not change its verdict.
   */
  lemma StrategyLimitsOverrideGlobal(s: RiskState, o: Order, now: int, global: RiskLimits)
    requires o.strategy in s.strategyLimits
    ensures CheckOrder(SetLimits(s, global), o, now).verdict == CheckOrder(s, o, now).verdict
  {
    VerdictDependsOnView(SetLimits(s, global), s, o, now);
  }

  /** `m2` is `m1`, possibly with `key` inserted at the default `d`. */
  predicate ExtendsWithDefault<K, V(==)>(m1: map<K, V>, m2: map<K, V>, key: K, d: V) {
    m2.Keys <= m1.Keys + {key}
    && (forall k :: k in m1 ==> k in m2 && m2[k] == m1[k])
    && (key in m2 && key !in m1 ==> m2[key] == d)
  }

  /** `a` is a (possibly empty) final segment of `b`. */
  predicate IsSuffix(a: seq<int>, b: seq<int>) {
    |a| <= |b| && a == b[|b| - |a|..]
  }

  /**
   * `after` is `before` except that the strategy's entry may be added, and
   * its queue may lose timestamps from the front while its count stays.
   */
  predicate RatePruned(before: map<string, RateData>, after: map<string, RateData>, strategy: string) {
    after.Keys <= before.Keys + {strategy}
    && (forall k :: k in before && k != strategy ==> k in after && after[k] == before[k])
    && (strategy in after ==>
          var b := Lookup(before, strategy, NoRate);
          after[strategy].dailyOrders == b.dailyOrders && IsSuffix(after[strategy].orderTimes, b.orderTimes))
  }

  lemma RatePrunedByUpdate(before: map<string, RateData>, strategy: string, q: seq<int>)
    requires IsSuffix(q, Lookup(before, strategy, NoRate).orderTimes)
    ensures RatePruned(before, before[strategy := Lookup(before, strategy, NoRate).(orderTimes := q)], strategy)
  {
  }

  lemma RateStageEffect(s: RiskState, strategy: string, lim: RiskLimits, now: int)
    ensures RatePruned(s.rate, RateCheck(s, strategy, lim, now).state.rate, strategy)
  {
    var rd := RateOf(s, strategy);
    if lim.enableRateLimiting {
      var q := PruneOld(rd.orderTimes, now - Minute);
      var after := s.rate[strategy := rd.(orderTimes := q)];
      assert RateCheck(s, strategy, lim, now).state.rate == after;
      assert IsSuffix(q, rd.orderTimes);
      RatePrunedByUpdate(s.rate, strategy, q);
    } else {
      assert IsSuffix(rd.orderTimes, rd.orderTimes);
    }
  }

  lemma PositionStageEffect(s: RiskState, o: Order, lim: RiskLimits)
    ensures ExtendsWithDefault(s.positions, PositionCheck(s, o, lim).state.positions, (o.strategy, o.instrument), 0)
  {
  }

  lemma ExposureStageEffect(s: RiskState, o: Order, lim: RiskLimits)
    ensures ExtendsWithDefault(s.exposures, ExposureCheck(s, o, lim).state.exposures, (o.strategy, o.instrument), 0)
  {
  }

  lemma LossStageEffect(s: RiskState, strategy: string, lim: RiskLimits, now: int)
    ensures ExtendsWithDefault(s.pnl, LossCheck(s, strategy, lim, now).state.pnl, strategy, NoPnL)
  {
  }

  /**
   * `check_order` changes no position, exposure or PnL value: it may only
   * insert zero entries for this order's keys, and prune old timestamps from
   * the front of this strategy's rate queue.
   */
  lemma {:induction false} CheckOrderOnlyPrunesAndInserts(s: RiskState, o: Order, now: int)
    ensures var t := CheckOrder(s, o, now).state;
      ExtendsWithDefault(s.positions, t.positions, (o.strategy, o.instrument), 0)
      && ExtendsWithDefault(s.exposures, t.exposures, (o.strategy, o.instrument), 0)
      && ExtendsWithDefault(s.pnl, t.pnl, o.strategy, NoPnL)
      && RatePruned(s.rate, t.rate, o.strategy)
  {
    var lim := LimitsFor(s, o.strategy);
    var t := CheckOrder(s, o, now).state;
    if lim.enablePositionLimits && o.quantity > lim.maxOrderSize {
      assert t == s;
      assert IsSuffix(RateOf(s, o.strategy).orderTimes, RateOf(s, o.strategy).orderTimes);
    } else {
      var r1 := RateCheck(s, o.strategy, lim, now);
      RateStageEffect(s, o.strategy, lim, now);
      var r2 := PositionCheck(r1.state, o, lim);
      PositionStageEffect(r1.state, o, lim);
      var r3 := ExposureCheck(r2.state, o, lim);
      ExposureStageEffect(r2.state, o, lim);
      var r4 := LossCheck(r3.state, o.strategy, lim, now);
      LossStageEffect(r3.state, o.strategy, lim, now);
      if r1.verdict.Some? {
        assert t == r1.state;
      } else if r2.verdict.Some? {
        assert t == r2.state;
      } else if r3.verdict.Some? {
        assert t == r3.state;
      } else {
        assert t == r4.state;
      }
    }
  }

  /* ---------------- post-trade bookkeeping ---------------- */

  /** `on_order_submitted`: gated by the GLOBAL rate-limiting switch. */
  function OnOrderSubmitted(s: RiskState, o: Order): (r: RiskState)
    ensures !s.limits.enableRateLimiting ==> r == s
    ensures s.limits.enableRateLimiting ==>
      o.strategy in r.rate
      && r.rate[o.strategy].orderTimes == RateOf(s, o.strategy).orderTimes + [o.timestamp]
      && r.rate[o.strategy].dailyOrders == RateOf(s, o.strategy).dailyOrders + 1
      && r == s.(rate := r.rate)
      && (forall k :: k != o.strategy ==> (k in r.rate <==> k in s.rate))
      && (forall k :: k in s.rate && k != o.strategy ==> r.rate[k] == s.rate[k])
  {
    if s.limits.enableRateLimiting then
      var rd := RateOf(s, o.strategy);
      s.(rate := s.rate[o.strategy := RateData(rd.orderTimes + [o.timestamp], rd.dailyOrders + 1)])
    else s
  }

  /**
   * Counting submissions follows the global switch, not the limits
   * `check_order` applies: a strategy whose own limits enable rate limiting
   * is never counted while the global switch is off.
   */
  lemma SubmissionIgnoresStrategySwitch(s: RiskState, o: Order)
    requires o.strategy in s.strategyLimits && s.strategyLimits[o.strategy].enableRateLimiting
    requires !s.limits.enableRateLimiting
    ensures RateOf(OnOrderSubmitted(s, o), o.strategy) == RateOf(s, o.strategy)
  {
  }

  /** The PnL of one fill: only its commission, as a cost. */
  function TradePnl(f: Fill): int {
    -f.commission
  }

  /** `on_fill`: position, exposure, PnL and, after a large loss, a cooldown. */
  function OnFill(s: RiskState, f: Fill, now: int): (r: RiskState)
    ensures var key := (f.strategy, f.instrument);
      PositionOf(r, key) == Moved(PositionOf(s, key), f.side, f.quantity)
      && Lookup(r.exposures, key, 0) == Lookup(s.exposures, key, 0) + f.quantity * f.price
      && PnLOf(r, f.strategy).dailyPnl == PnLOf(s, f.strategy).dailyPnl - f.commission
      && PnLOf(r, f.strategy).totalPnl == PnLOf(s, f.strategy).totalPnl - f.commission
    ensures r.limits == s.limits && r.strategyLimits == s.strategyLimits && r.rate == s.rate
  {
    var key := (f.strategy, f.instrument);
    var pos := Moved(PositionOf(s, key), f.side, f.quantity);
    var exposure := Lookup(s.exposures, key, 0) + f.quantity * f.price;
    var pd := PnLOf(s, f.strategy);
    var trade := TradePnl(f);
    var lim := LimitsFor(s, f.strategy);
    var cooldown := if lim.enableLossLimits && trade < SignificantLoss then now + lim.lossCooldown
                    else pd.cooldownUntil;
    s.(positions := s.positions[key := pos],
       exposures := s.exposures[key := exposure],
       pnl := s.pnl[f.strategy := PnLData(pd.dailyPnl + trade, pd.totalPnl + trade, cooldown)])
  }

  /** A cooldown starts exactly when loss limits apply and the fill lost more than 1000. */
  lemma OnFillCooldown(s: RiskState, f: Fill, now: int)
    ensures var lim := LimitsFor(s, f.strategy);
      var c := PnLOf(OnFill(s, f, now), f.strategy).cooldownUntil;
      if lim.enableLossLimits && f.commission > 1000 then c == now + lim.lossCooldown
      else c == PnLOf(s, f.strategy).cooldownUntil
  {
  }

  /** `on_fill` leaves every other key's position, exposure and PnL alone. */
  lemma OnFillTouchesOnlyItsKeys(s: RiskState, f: Fill, now: int)
    ensures var r := OnFill(s, f, now);
      (forall k :: k != (f.strategy, f.instrument) ==>
         (k in r.positions <==> k in s.positions) && (k in s.positions ==> r.positions[k] == s.positions[k]))
      && (forall k :: k != (f.strategy, f.instrument) ==>
         (k in r.exposures <==> k in s.exposures) && (k in s.exposures ==> r.exposures[k] == s.exposures[k]))
      && (forall k :: k != f.strategy ==> (k in r.pnl <==> k in s.pnl) && (k in s.pnl ==> r.pnl[k] == s.pnl[k]))
  {
  }

  /** A buy fill followed by a sell fill of the same size restores the position. */
  lemma OppositeFillsCancel(s: RiskState, f: Fill, now: int, later: int)
    ensures var g := f.(side := Opposite(f.side));
      PositionOf(OnFill(OnFill(s, f, now), g, later), (f.strategy, f.instrument))
      == PositionOf(s, (f.strategy, f.instrument))
  {
  }

  /**
   * After a fill that lost more than 1000 with loss limits on, the strategy's
   * orders are refused until the cooldown has run out.
   */
  lemma {:induction false} LossTriggersCooldown(s: RiskState, f: Fill, now: int, o: Order, t: int)
    requires LimitsFor(s, f.strategy).enableLossLimits && f.commission > 1000
    requires o.strategy == f.strategy
    requires t < now + LimitsFor(s, f.strategy).lossCooldown
    ensures CheckOrder(OnFill(s, f, now), o, t).verdict.Some?
  {
    var r := OnFill(s, f, now);
    OnFillCooldown(s, f, now);
    assert LimitsFor(r, o.strategy) == LimitsFor(s, f.strategy);
    assert !Passes(r, o, t);
    CheckOrderApprovesIffPasses(r, o, t);
  }

  /** `get_strategy_pnl`: the total PnL, 0 for an unknown strategy. */
  function GetStrategyPnl(s: RiskState, strategy: string): int {
    PnLOf(s, strategy).totalPnl
  }

  lemma OnFillChargesCommission(s: RiskState, f: Fill, now: int)
    ensures GetStrategyPnl(OnFill(s, f, now), f.strategy) == GetStrategyPnl(s, f.strategy) - f.commission
  {
  }

  /** `reset_daily_counters`: clears rate data and daily PnL, keeps the rest. */
  function ResetDailyCounters(s: RiskState): (r: RiskState)
    ensures r.rate.Keys == s.rate.Keys && r.pnl.Keys == s.pnl.Keys
    ensures forall k :: k in r.rate ==> r.rate[k].orderTimes == [] && r.rate[k].dailyOrders == 0
    ensures forall k :: k in r.pnl ==>
      r.pnl[k].dailyPnl == 0 && r.pnl[k].totalPnl == s.pnl[k].totalPnl
      && r.pnl[k].cooldownUntil == s.pnl[k].cooldownUntil
    ensures r.positions == s.positions && r.exposures == s.exposures
    ensures r.limits == s.limits && r.strategyLimits == s.strategyLimits
  {
    s.(rate := map k | k in s.rate :: NoRate,
       pnl := map k | k in s.pnl :: s.pnl[k].(dailyPnl := 0))
  }

  lemma ResetIsIdempotent(s: RiskState)
    ensures ResetDailyCounters(ResetDailyCounters(s)) == ResetDailyCounters(s)
  {
  }

  /** After a reset the rate check passes whenever both rate limits are positive. */
  lemma ResetClearsRateLimit(s: RiskState, strategy: string, lim: RiskLimits, now: int)
    requires lim.maxOrdersPerMinute > 0 && lim.maxOrdersPerDay > 0
    ensures RateCheck(ResetDailyCounters(s), strategy, lim, now).verdict == None
  {
  }

  /* ---------------- get_portfolio_stats ---------------- */

  /** The portfolio summary; `get_portfolio_stats` never writes the drawdown, so it stays 0. */
  datatype PortfolioStats = PortfolioStats(totalPnl: int, totalExposure: int, activePositions: nat, maxDrawdown: int)

  ghost function TotalPnls(s: RiskState): map<string, int> {
    map k | k in s.pnl :: s.pnl[k].totalPnl
  }

  ghost function AbsExposures(s: RiskState): map<Key, int> {
    map k | k in s.exposures :: Abs(s.exposures[k])
  }

  ghost function ActiveFlags(s: RiskState): map<Key, int> {
    map k | k in s.positions :: if s.positions[k] != 0 then 1 else 0
  }

  /** The sum of total PnL over all strategies. */
  method PortfolioPnl(s: RiskState) returns (pnl: int)
    ensures pnl == Sum(TotalPnls(s))
  {
    pnl := 0;
    var todo := s.pnl.Keys;
    assert TotalPnls(s).Keys == todo;
    while todo != {}
      invariant todo <= s.pnl.Keys
      invariant pnl + SumOn(TotalPnls(s), todo) == Sum(TotalPnls(s))
      decreases todo
    {
      var k :| k in todo;
      SumOnRemove(TotalPnls(s), todo, k);
      pnl := pnl + s.pnl[k].totalPnl;
      todo := todo - {k};
    }
  }

  /** The sum of absolute exposures over all (strategy, instrument) keys. */
  method PortfolioExposure(s: RiskState) returns (exposure: int)
    ensures exposure == Sum(AbsExposures(s)) && exposure >= 0
  {
    exposure := 0;
    var todo := s.exposures.Keys;
    assert AbsExposures(s).Keys == todo;
    while todo != {}
      invariant todo <= s.exposures.Keys
      invariant 0 <= exposure && exposure + SumOn(AbsExposures(s), todo) == Sum(AbsExposures(s))
      decreases todo
    {
      var k :| k in todo;
      SumOnRemove(AbsExposures(s), todo, k);
      exposure := exposure + Abs(s.exposures[k]);
      todo := todo - {k};
    }
  }

  /** The number of non-zero positions. */
  method ActivePositions(s: RiskState) returns (active: nat)
    ensures active == Sum(ActiveFlags(s)) && active <= |s.positions|
  {
    active := 0;
    var todo := s.positions.Keys;
    assert ActiveFlags(s).Keys == todo;
    SumOnCount(ActiveFlags(s), todo);
    while todo != {}
      invariant todo <= s.positions.Keys
      invariant active + SumOn(ActiveFlags(s), todo) == Sum(ActiveFlags(s))
      decreases todo
    {
      var k :| k in todo;
      SumOnRemove(ActiveFlags(s), todo, k);
      SumOnCount(ActiveFlags(s), todo - {k});
      if s.positions[k] != 0 {
        active := active + 1;
      }
      todo := todo - {k};
    }
  }

  /**
   * `get_portfolio_stats`: the sum of total PnL over strategies, the sum of
   * absolute exposures, the number of non-zero positions, and a drawdown
   * left at its initial 0.
   */
  method GetPortfolioStats(s: RiskState) returns (stats: PortfolioStats)
    ensures stats.totalPnl == Sum(TotalPnls(s))
    ensures stats.totalExposure == Sum(AbsExposures(s)) && stats.totalExposure >= 0
    ensures stats.activePositions == Sum(ActiveFlags(s)) && stats.activePositions <= |s.positions|
    ensures stats.maxDrawdown == 0
  {
    var pnl := PortfolioPnl(s);
    var exposure := PortfolioExposure(s);
    var active := ActivePositions(s);
    stats := PortfolioStats(pnl, exposure, active, 0);
  }

  /** A fill moves the portfolio's total PnL by exactly its trade PnL. */
  lemma OnFillMovesPortfolioPnl(s: RiskState, f: Fill, now: int)
    ensures Sum(TotalPnls(OnFill(s, f, now))) == Sum(TotalPnls(s)) - f.commission
  {
    var r := OnFill(s, f, now);
    assert TotalPnls(r) == TotalPnls(s)[f.strategy := PnLOf(s, f.strategy).totalPnl - f.commission];
    SumUpdate(TotalPnls(s), f.strategy, PnLOf(s, f.strategy).totalPnl - f.commission);
  }

  /** A daily reset leaves every portfolio aggregate as it was. */
  lemma ResetKeepsPortfolio(s: RiskState)
    ensures Sum(TotalPnls(ResetDailyCounters(s))) == Sum(TotalPnls(s))
    ensures Sum(AbsExposures(ResetDailyCounters(s))) == Sum(AbsExposures(s))
    ensures Sum(ActiveFlags(ResetDailyCounters(s))) == Sum(ActiveFlags(s))
  {
    assert TotalPnls(ResetDailyCounters(s)) == TotalPnls(s);
  }
}
