/**
 * Transaction costs (`CommissionStructure`, `LinearSlippageModel` and
 * `CostModel`, include/execution/cost_model.h): a clamped commission chosen
 * by instrument, then exchange, then a default, plus a linear slippage
 * estimate. Prices and rates are `real`; floating-point rounding is not
 * modelled.
 */
module CostModel {
  import opened Types

  datatype CommissionStructure = CommissionStructure(
    makerFeeRate: real,
    takerFeeRate: real,
    fixedFee: real,
    minCommission: real,
    maxCommission: real)

  /** The field defaults, used when neither the instrument nor the exchange has a structure. */
  const DefaultStructure: CommissionStructure := CommissionStructure(0.0, 0.001, 0.0, 0.0, 1000000.0)

  /** The average daily volume assumed for an instrument without one. */
  const DefaultAvgVolume: nat := 1000000

  datatype LinearSlippage = LinearSlippage(baseRate: real, impactRate: real)

  const DefaultSlippage: LinearSlippage := LinearSlippage(0.0001, 0.01)

  /**
   * The cost model. `slippage` is `None` when the model was replaced by a
   * null pointer, in which case no slippage is charged.
   */
  datatype Model = Model(
    exchangeCommissions: map<string, CommissionStructure>,
    instrumentCommissions: map<string, CommissionStructure>,
    avgDailyVolumes: map<string, nat>,
    slippage: Option<LinearSlippage>)

  datatype TransactionCost = TransactionCost(commission: real, slippage: real, totalCost: real)

  /**
   * `std::clamp(v, lo, hi)`: `lo` below the range, `hi` above it. C++ leaves
   * `hi < lo` undefined; this is the formula the standard gives.
   */
  function Clamp(v: real, lo: real, hi: real): (r: real)
    ensures lo <= hi ==> lo <= r <= hi
    ensures lo <= v <= hi ==> r == v
  {
    if v < lo then lo else if hi < v then hi else v
  }

  /** The fee rate charged: the maker rate exactly when the order provides liquidity. */
  function FeeRate(cs: CommissionStructure, isMaker: bool): real {
    if isMaker then cs.makerFeeRate else cs.takerFeeRate
  }

  /** `CommissionStructure::calculate_commission`. */
  function Commission(cs: CommissionStructure, quantity: nat, price: real, isMaker: bool): (r: real)
    ensures cs.minCommission <= cs.maxCommission ==> cs.minCommission <= r <= cs.maxCommission
  {
    Clamp(quantity as real * price * FeeRate(cs, isMaker) + cs.fixedFee, cs.minCommission, cs.maxCommission)
  }

  /** The unclamped fee: notional times rate plus the fixed fee. */
  function RawCommission(cs: CommissionStructure, quantity: nat, price: real, isMaker: bool): real {
    quantity as real * price * FeeRate(cs, isMaker) + cs.fixedFee
  }

  /** The commission is the raw fee inside the bounds, and the nearer bound outside them. */
  lemma CommissionIsClampedFee(cs: CommissionStructure, quantity: nat, price: real, isMaker: bool)
    requires cs.minCommission <= cs.maxCommission
    ensures var raw := RawCommission(cs, quantity, price, isMaker);
      var r := Commission(cs, quantity, price, isMaker);
      (raw < cs.minCommission ==> r == cs.minCommission)
      && (raw > cs.maxCommission ==> r == cs.maxCommission)
      && (cs.minCommission <= raw <= cs.maxCommission ==> r == raw)
  {
  }

  /** A taker's commission does not depend on the maker rate. */
  lemma TakerIgnoresMakerRate(cs: CommissionStructure, makerRate: real, quantity: nat, price: real)
    ensures Commission(cs.(makerFeeRate := makerRate), quantity, price, false)
         == Commission(cs, quantity, price, false)
  {
  }

  /** A maker's commission does not depend on the taker rate. */
  lemma MakerIgnoresTakerRate(cs: CommissionStructure, takerRate: real, quantity: nat, price: real)
    ensures Commission(cs.(takerFeeRate := takerRate), quantity, price, true)
         == Commission(cs, quantity, price, true)
  {
  }

  /** The default structure charges takers 0.1% of the notional, for notionals up to 10^9. */
  lemma DefaultTakerFee(quantity: nat, price: real)
    requires 0.0 <= quantity as real * price <= 1000000000.0
    ensures Commission(DefaultStructure, quantity, price, false) == quantity as real * price / 1000.0
  {
  }

  /**
   * `LinearSlippageModel::calculate_slippage`: `base * price` with no volume
   * information, otherwise minus the absolute value of the impact-scaled
   * price. Instrument and side are not used.
   */
  function Slippage(m: LinearSlippage, quantity: nat, price: real, avgVolume: nat): (r: real)
    ensures avgVolume > 0 ==> r <= 0.0
  {
    if avgVolume == 0 then m.baseRate * price
    else
      var rate := m.baseRate + m.impactRate * (quantity as real / avgVolume as real);
      -RAbs(rate * price)
  }

  function RAbs(x: real): (r: real)
    ensures r >= 0.0 && (r == x || r == -x)
  {
    if x < 0.0 then -x else x
  }

  /**
   * With non-negative rates and price, a larger order never slips less: the
   * estimate only grows more negative with quantity.
   */
  lemma SlippageGrowsWithQuantity(m: LinearSlippage, q1: nat, q2: nat, price: real, avgVolume: nat)
    requires m.baseRate >= 0.0 && m.impactRate >= 0.0 && price >= 0.0 && avgVolume > 0 && q1 <= q2
    ensures Slippage(m, q2, price, avgVolume) <= Slippage(m, q1, price, avgVolume)
  {
    var v := avgVolume as real;
    assert q1 as real / v <= q2 as real / v;
    var r1 := m.baseRate + m.impactRate * (q1 as real / v);
    var r2 := m.baseRate + m.impactRate * (q2 as real / v);
    assert 0.0 <= r1 <= r2;
    assert r1 * price <= r2 * price;
  }

  /**
   * Without volume information the estimate is `base * price`, which for a
   * positive base rate and price is a credit, not a cost.
   */
  lemma ZeroVolumeSlippageIsCredit(m: LinearSlippage, quantity: nat, price: real)
    requires m.baseRate > 0.0 && price > 0.0
    ensures Slippage(m, quantity, price, 0) > 0.0
  {
  }

  /** `TransactionCost(comm, slip)`: the total is the sum of the two parts. */
  function MakeCost(commission: real, slippage: real): (r: TransactionCost)
    ensures r.commission == commission && r.slippage == slippage
    ensures r.totalCost - r.commission == r.slippage
  {
    TransactionCost(commission, slippage, commission + slippage)
  }

  /** `CostModel()`: no commission tables and the default linear slippage. */
  function Init(): (m: Model)
    ensures m.slippage == Some(DefaultSlippage)
    ensures m.exchangeCommissions == map[] && m.instrumentCommissions == map[] && m.avgDailyVolumes == map[]
  {
    Model(map[], map[], map[], Some(DefaultSlippage))
  }

  function SetCommissionStructure(m: Model, exchange: string, cs: CommissionStructure): Model {
    m.(exchangeCommissions := m.exchangeCommissions[exchange := cs])
  }

  function SetInstrumentCommission(m: Model, instrument: string, cs: CommissionStructure): Model {
    m.(instrumentCommissions := m.instrumentCommissions[instrument := cs])
  }

  function SetAvgDailyVolume(m: Model, instrument: string, volume: nat): Model {
    m.(avgDailyVolumes := m.avgDailyVolumes[instrument := volume])
  }

  function SetSlippageModel(m: Model, s: Option<LinearSlippage>): Model {
    m.(slippage := s)
  }

  /** The structure that prices a trade: instrument first, then exchange, then the default. */
  function StructureFor(m: Model, instrument: string, exchange: string): (cs: CommissionStructure)
    ensures instrument in m.instrumentCommissions ==> cs == m.instrumentCommissions[instrument]
    ensures instrument !in m.instrumentCommissions && exchange in m.exchangeCommissions
      ==> cs == m.exchangeCommissions[exchange]
    ensures instrument !in m.instrumentCommissions && exchange !in m.exchangeCommissions
      ==> cs == DefaultStructure
  {
    if instrument in m.instrumentCommissions then m.instrumentCommissions[instrument]
    else if exchange in m.exchangeCommissions then m.exchangeCommissions[exchange]
    else DefaultStructure
  }

  /**
   * `CostModel::calculate_commission`: the instrument's structure prices the
   * trade when it has one, else the exchange's, else the default; the
   * result lies within the chosen structure's bounds.
   */
  function CalculateCommission(m: Model, instrument: string, exchange: string, quantity: nat, price: real, isMaker: bool): (r: real)
    ensures instrument in m.instrumentCommissions ==>
      r == Commission(m.instrumentCommissions[instrument], quantity, price, isMaker)
    ensures instrument !in m.instrumentCommissions && exchange in m.exchangeCommissions ==>
      r == Commission(m.exchangeCommissions[exchange], quantity, price, isMaker)
    ensures instrument !in m.instrumentCommissions && exchange !in m.exchangeCommissions ==>
      0.0 <= r <= 1000000.0 && r == Commission(DefaultStructure, quantity, price, isMaker)
    ensures var cs := StructureFor(m, instrument, exchange);
      cs.minCommission <= cs.maxCommission ==> cs.minCommission <= r <= cs.maxCommission
  {
    Commission(StructureFor(m, instrument, exchange), quantity, price, isMaker)
  }

  /** An instrument's own structure wins over any exchange structure. */
  lemma InstrumentStructureWins(m: Model, instrument: string, exchange: string, cs: CommissionStructure,
                                ecs: CommissionStructure, quantity: nat, price: real, isMaker: bool)
    ensures CalculateCommission(SetCommissionStructure(SetInstrumentCommission(m, instrument, cs), exchange, ecs),
                                instrument, exchange, quantity, price, isMaker)
         == Commission(cs, quantity, price, isMaker)
  {
  }

  /** Without an instrument structure, the exchange's structure prices the trade. */
  lemma ExchangeStructureFallback(m: Model, instrument: string, exchange: string, cs: CommissionStructure,
                                  quantity: nat, price: real, isMaker: bool)
    requires instrument !in m.instrumentCommissions
    ensures CalculateCommission(SetCommissionStructure(m, exchange, cs), instrument, exchange, quantity, price, isMaker)
         == Commission(cs, quantity, price, isMaker)
  {
  }

  /** A fresh model prices every trade with the default structure. */
  lemma FreshModelUsesDefault(instrument: string, exchange: string, quantity: nat, price: real, isMaker: bool)
    ensures CalculateCommission(Init(), instrument, exchange, quantity, price, isMaker)
         == Commission(DefaultStructure, quantity, price, isMaker)
  {
  }

  /** The volume the slippage model sees: the instrument's, or 1,000,000 when none was set. */
  function AvgVolumeFor(m: Model, instrument: string): nat {
    Lookup(m.avgDailyVolumes, instrument, DefaultAvgVolume)
  }

  /**
   * `calculate_cost`: an aggressive order pays the taker rate, a passive one
   * the maker rate; slippage uses the instrument's average volume.
   */
  function CalculateCost(m: Model, instrument: string, exchange: string, side: Side, quantity: nat,
                         price: real, isAggressive: bool): (r: TransactionCost)
    ensures r.totalCost == r.commission + r.slippage
    ensures r.commission == Commission(StructureFor(m, instrument, exchange), quantity, price, !isAggressive)
    ensures m.slippage.None? ==> r.slippage == 0.0
    ensures m.slippage.Some? ==> r.slippage == Slippage(m.slippage.value, quantity, price, AvgVolumeFor(m, instrument))
  {
    var commission := CalculateCommission(m, instrument, exchange, quantity, price, !isAggressive);
    var slippage := if m.slippage.Some? then Slippage(m.slippage.value, quantity, price, AvgVolumeFor(m, instrument)) else 0.0;
    MakeCost(commission, slippage)
  }

  /** An instrument without a recorded volume is charged as if it traded 1,000,000 a day, so never credited. */
  lemma UnknownVolumeSlippageIsCost(m: Model, instrument: string, exchange: string, side: Side, quantity: nat,
                                    price: real, isAggressive: bool)
    requires instrument !in m.avgDailyVolumes
    ensures CalculateCost(m, instrument, exchange, side, quantity, price, isAggressive).slippage <= 0.0
  {
  }

  /** The side of the order never changes its cost. */
  lemma CostIgnoresSide(m: Model, instrument: string, exchange: string, quantity: nat, price: real, isAggressive: bool)
    ensures CalculateCost(m, instrument, exchange, Buy, quantity, price, isAggressive)
         == CalculateCost(m, instrument, exchange, Sell, quantity, price, isAggressive)
  {
  }

  /** `calculate_fill_cost`: the fill's instrument, side, quantity and price, always as a taker. */
  function CalculateFillCost(m: Model, f: Fill, exchange: string): (r: TransactionCost)
    ensures r.commission == Commission(StructureFor(m, f.instrument, exchange), f.quantity, f.price as real, false)
    ensures r.totalCost == r.commission + r.slippage
  {
    CalculateCost(m, f.instrument, exchange, f.side, f.quantity, f.price as real, true)
  }

  /** The default exchange name a fill is priced under. */
  const DefaultExchange: string := "default"
}
