/** The market maker's decision engine: risk gate, fair value, quote plan and the decision for one side. */
module MarketMaker {
  import opened Numbers
  import opened Wrappers

  datatype LifecycleStatus =
    | Pending | Open | Locked | Proposed | Challenged | Resolved | Cancelled | Unknown

  /** Times and sizes are integers; `toxicSpreadMultiplier` may be fractional. */
  datatype Config = Config(
    targetSpreadBps: int,
    toxicSpreadMultiplier: real,
    toxicityThresholdBps: int,
    toxicUnitReductionBps: int,
    minQuotePrice: int,
    maxQuotePrice: int,
    minQuoteUnits: int,
    maxQuoteUnits: int,
    maxInventoryPerSide: int,
    maxNetExposure: int,
    maxGrossExposure: int,
    maxSideImbalanceBps: int,
    maxDrawdownBps: int,
    staleStreamAfterMs: int,
    staleOracleAfterMs: int,
    staleRpcAfterMs: int,
    minRefreshIntervalMs: int,
    maxQuoteAgeMs: int,
    betCloseGuardMs: int,
    inventorySkewBps: int)

  const DEFAULT_CONFIG := Config(
    200, 2.0, 1000, 5_000, 1, 999, 25, 100, 500_000, 250_000, 750_000, 6_000, 2_000,
    3_000, 5_000, 5_000, 1_000, 12_000, 5_000, 750)

  /** The price band is non-empty and lies above zero. */
  predicate SoundPrices(config: Config) {
    1 <= config.minQuotePrice <= config.maxQuotePrice
  }

  /** A quote has at least one unit. */
  predicate SoundUnits(config: Config) {
    1 <= config.minQuoteUnits <= config.maxQuoteUnits
  }

  datatype Exposure = Exposure(yes: int, no: int, openYes: int, openNo: int, drawdownBps: Option<int>)

  datatype Snapshot = Snapshot(
    lifecycleStatus: LifecycleStatus,
    bestBid: Option<real>,
    bestAsk: Option<real>,
    betCloseTimeMs: Option<int>,
    lastStreamAtMs: Option<int>,
    lastOracleAtMs: Option<int>,
    lastRpcAtMs: Option<int>,
    quoteAgeMs: Option<int>,
    exposure: Exposure)

  datatype Signal = Signal(price: Option<real>, weight: Option<real>)

  datatype FairValueInput = FairValueInput(
    bookBid: Option<real>,
    bookAsk: Option<real>,
    signal: Signal,
    fallbackPrice: Option<real>,
    inventorySkew: Option<real>,
    inventorySkewBps: Option<int>,
    minPrice: Option<int>,
    maxPrice: Option<int>)

  datatype BreakerReason =
    | MarketNotQuotable(status: LifecycleStatus)
    | BetCloseGuard
    | StaleStream
    | StaleOracle
    | StaleRpc
    | DrawdownLimit
    | MarketNotionalLimit

  datatype RiskState = RiskState(
    yesExposure: int,
    noExposure: int,
    grossExposure: int,
    netExposure: int,
    sideImbalanceBps: int,
    drawdownBps: int,
    toxicityBps: int,
    staleStream: bool,
    staleOracle: bool,
    staleRpc: bool,
    closingSoon: bool,
    reduceOnly: bool,
    canBid: bool,
    canAsk: bool,
    breaker: Option<BreakerReason>)

  datatype QuotePlan = QuotePlan(
    fairValue: int,
    bidPrice: Option<int>,
    askPrice: Option<int>,
    bidUnits: int,
    askUnits: int,
    replaceQuotes: bool,
    risk: RiskState)

  datatype Side = Bid | Ask

  datatype ManagedQuote = ManagedQuote(price: int, units: int, placedAtMs: int)

  datatype DecisionReason =
    | QuoteMissing | QuoteDisabled | QuoteExpired | SizeRefresh | PriceRefresh | Halted(cause: BreakerReason)

  datatype QuoteDecision = QuoteDecision(
    side: Side,
    targetPrice: Option<int>,
    targetUnits: int,
    shouldCancel: bool,
    shouldPlace: bool,
    shouldKeep: bool,
    reason: Option<DecisionReason>)

  // ---------------------------------------------------------------------------------------------
  // Prices

  function ClampPrice(value: real, min: int, max: int): int {
    Min(max, Max(min, Round(value)))
  }

  function ComputeBookMid(bestBid: Option<real>, bestAsk: Option<real>): Option<real> {
    if bestBid.None? || bestAsk.None? || bestBid.value <= 0.0 || bestAsk.value <= 0.0
       || bestAsk.value < bestBid.value
    then None
    else Some((bestBid.value + bestAsk.value) / 2.0)
  }

  function ComputeToxicityBps(bestBid: Option<real>, bestAsk: Option<real>): int {
    var mid := ComputeBookMid(bestBid, bestAsk);
    if mid.None? || mid.value <= 0.0 then 10_000
    else Round(((bestAsk.value - bestBid.value) * 10_000.0) / mid.value)
  }

  function Skew(yesExposure: int, noExposure: int): real {
    (yesExposure - noExposure) as real / Max(1, yesExposure + noExposure) as real
  }

  function ComputeInventorySkew(exposure: Exposure): real {
    Skew(exposure.yes + exposure.openYes, exposure.no + exposure.openNo)
  }

  function Blend(mid: real, signal: real, weight: real): real {
    mid * (1.0 - weight) + signal * weight
  }

  /** The price before the inventory shift: book mid and signal blended, or whichever of them exists. */
  function UnshiftedFairValue(input: FairValueInput): real {
    var fallbackPrice := ClampPrice(
      input.fallbackPrice.GetOr(500.0), DEFAULT_CONFIG.minQuotePrice, DEFAULT_CONFIG.maxQuotePrice);
    var bookMid := ComputeBookMid(input.bookBid, input.bookAsk);
    var weight := RealMin(1.0, RealMax(0.0, input.signal.weight.GetOr(0.0)));
    match (bookMid, input.signal.price)
    case (Some(mid), Some(price)) => Blend(mid, SignalTick(input, price) as real, weight)
    case (Some(mid), None) => mid
    case (None, Some(price)) => SignalTick(input, price) as real
    case (None, None) => fallbackPrice as real
  }

  function SignalTick(input: FairValueInput, price: real): int {
    ClampPrice(price, input.minPrice.GetOr(DEFAULT_CONFIG.minQuotePrice), input.maxPrice.GetOr(DEFAULT_CONFIG.maxQuotePrice))
  }

  /** The price after leaning away from the inventory held. */
  function ShiftedFairValue(fairValue: real, skewBps: int, skew: real): real {
    var inventoryShift := (fairValue * skewBps as real * skew) / 10_000.0;
    fairValue - inventoryShift
  }

  function ComputeFairValue(input: FairValueInput): int {
    var skew := RealMax(-1.0, RealMin(1.0, input.inventorySkew.GetOr(0.0)));
    var skewBps := Max(0, input.inventorySkewBps.GetOr(0));
    ClampPrice(
      ShiftedFairValue(UnshiftedFairValue(input), skewBps, skew),
      input.minPrice.GetOr(DEFAULT_CONFIG.minQuotePrice),
      input.maxPrice.GetOr(DEFAULT_CONFIG.maxQuotePrice))
  }

  // ---------------------------------------------------------------------------------------------
  // Risk gate

  predicate IsQuotable(status: LifecycleStatus) { status.Open? }

  predicate IsStale(lastAtMs: Option<int>, limitMs: int, now: int) {
    lastAtMs.None? || now - lastAtMs.value > limitMs
  }

  predicate IsClosingSoon(snapshot: Snapshot, config: Config, now: int) {
    snapshot.betCloseTimeMs.Some? && snapshot.betCloseTimeMs.value - now <= config.betCloseGuardMs
  }

  function SideImbalanceBps(gross: int, net: int): int {
    if gross > 0 then Round((Abs(net) as real * 10_000.0) / Max(1, gross) as real) else 0
  }

  /** The circuit breaker's verdict; the checks run in the source's order and the first hit wins. */
  function Breaker(snapshot: Snapshot, config: Config, now: int): Option<BreakerReason> {
    var gross := snapshot.exposure.yes + snapshot.exposure.openYes + (snapshot.exposure.no + snapshot.exposure.openNo);
    if !IsQuotable(snapshot.lifecycleStatus) then Some(MarketNotQuotable(snapshot.lifecycleStatus))
    else if IsClosingSoon(snapshot, config, now) then Some(BetCloseGuard)
    else if IsStale(snapshot.lastStreamAtMs, config.staleStreamAfterMs, now) then Some(StaleStream)
    else if IsStale(snapshot.lastOracleAtMs, config.staleOracleAfterMs, now) then Some(StaleOracle)
    else if IsStale(snapshot.lastRpcAtMs, config.staleRpcAfterMs, now) then Some(StaleRpc)
    else if Max(0, snapshot.exposure.drawdownBps.GetOr(0)) >= config.maxDrawdownBps then Some(DrawdownLimit)
    else if gross >= Max(config.maxGrossExposure, config.maxQuoteUnits) then Some(MarketNotionalLimit)
    else None
  }

  function BuildRiskState(snapshot: Snapshot, config: Config, now: int): RiskState {
    var yesExposure := snapshot.exposure.yes + snapshot.exposure.openYes;
    var noExposure := snapshot.exposure.no + snapshot.exposure.openNo;
    var grossExposure := yesExposure + noExposure;
    var netExposure := yesExposure - noExposure;
    var sideImbalanceBps := SideImbalanceBps(grossExposure, netExposure);
    var bidImbalanceLimited := netExposure > 0 && sideImbalanceBps >= config.maxSideImbalanceBps;
    var askImbalanceLimited := netExposure < 0 && sideImbalanceBps >= config.maxSideImbalanceBps;
    var breaker := Breaker(snapshot, config, now);
    var canBid :=
      && yesExposure < config.maxInventoryPerSide
      && netExposure < config.maxNetExposure
      && !bidImbalanceLimited
      && breaker.None?;
    var canAsk :=
      && noExposure < config.maxInventoryPerSide
      && -netExposure < config.maxNetExposure
      && !askImbalanceLimited
      && breaker.None?;
    RiskState(
      yesExposure, noExposure, grossExposure, netExposure, sideImbalanceBps,
      Max(0, snapshot.exposure.drawdownBps.GetOr(0)),
      ComputeToxicityBps(snapshot.bestBid, snapshot.bestAsk),
      IsStale(snapshot.lastStreamAtMs, config.staleStreamAfterMs, now),
      IsStale(snapshot.lastOracleAtMs, config.staleOracleAfterMs, now),
      IsStale(snapshot.lastRpcAtMs, config.staleRpcAfterMs, now),
      IsClosingSoon(snapshot, config, now),
      breaker.None? && ((bidImbalanceLimited && canAsk) || (askImbalanceLimited && canBid)),
      canBid, canAsk, breaker)
  }

  // ---------------------------------------------------------------------------------------------
  // Sizes

  function MinOf(first: int, rest: seq<int>): int {
    if rest == [] then first else MinOf(Min(first, Max(0, rest[0])), rest[1..])
  }

  /** Largest whole size within the request and every limit, or nothing when that is below the minimum. */
  function ClampQuoteUnits(requestedUnits: int, minQuoteUnits: int, limits: seq<int>): int {
    var boundedUnits := MinOf(requestedUnits, limits);
    if boundedUnits >= minQuoteUnits then boundedUnits else 0
  }

  predicate IsToxic(risk: RiskState, config: Config) {
    risk.toxicityBps >= config.toxicityThresholdBps
  }

  function HeadroomRatio(used: int, limit: int): real {
    1.0 - used as real / Max(1, limit) as real
  }

  function HeadroomShare(risk: RiskState, config: Config): real {
    var inventory := RealMax(0.0, HeadroomRatio(Max(risk.yesExposure, risk.noExposure), config.maxInventoryPerSide));
    var gross := RealMax(0.0, HeadroomRatio(risk.grossExposure, config.maxGrossExposure));
    var drawdown := RealMax(0.25, HeadroomRatio(risk.drawdownBps, config.maxDrawdownBps));
    RealMin(inventory, RealMin(gross, drawdown))
  }

  function ToxicUnitScale(risk: RiskState, config: Config): real {
    if IsToxic(risk, config) then RealMax(0.0, RealMin(1.0, config.toxicUnitReductionBps as real / 10_000.0)) else 1.0
  }

  function ScaledUnits(risk: RiskState, config: Config): real {
    config.maxQuoteUnits as real * HeadroomShare(risk, config) * ToxicUnitScale(risk, config)
  }

  function BaseUnits(risk: RiskState, config: Config): int {
    Min(config.maxQuoteUnits, Max(config.minQuoteUnits, Round(ScaledUnits(risk, config))))
  }

  function Lean(side: Side, yesExposure: int, noExposure: int): real {
    var imbalance := RealMax(-1.0, RealMin(1.0, Skew(yesExposure, noExposure)));
    if side.Bid? then imbalance else -imbalance
  }

  /** Size asked for on one side; `lean` is how far the inventory already leans to that side, in [-1, 1]. */
  function RequestedUnits(baseUnits: int, lean: real): int {
    Round(baseUnits as real * RealMax(0.25, 1.0 - RealMax(0.0, lean)))
  }

  function PlannedUnits(side: Side, risk: RiskState, config: Config): int {
    var exposure := if side.Bid? then risk.yesExposure else risk.noExposure;
    var net := if side.Bid? then risk.netExposure else -risk.netExposure;
    if (if side.Bid? then risk.canBid else risk.canAsk) then
      ClampQuoteUnits(
        RequestedUnits(BaseUnits(risk, config), Lean(side, risk.yesExposure, risk.noExposure)),
        config.minQuoteUnits,
        [ Max(0, config.maxInventoryPerSide - exposure),
          Max(0, config.maxNetExposure - net),
          Max(0, config.maxGrossExposure - risk.grossExposure) ])
    else 0
  }

  // ---------------------------------------------------------------------------------------------
  // Plan and decision

  function CalmWidth(fairValue: int, config: Config): int {
    Max(5, Ceil((config.targetSpreadBps * fairValue) as real / 10_000.0))
  }

  function WidthFactor(toxic: bool, config: Config): real {
    if toxic then RealMax(1.0, config.toxicSpreadMultiplier) else 1.0
  }

  function Widened(ticks: int, factor: real): real { ticks as real * factor }

  function QuoteWidth(fairValue: int, toxic: bool, config: Config): real {
    Widened(CalmWidth(fairValue, config), WidthFactor(toxic, config))
  }

  /** The two prices around a fair value, before the source's repair of crossed prices. */
  function RawBidPrice(fairValue: int, toxic: bool, config: Config): int {
    ClampPrice(fairValue as real - QuoteWidth(fairValue, toxic, config) / 2.0, config.minQuotePrice, config.maxQuotePrice)
  }

  function RawAskPrice(fairValue: int, toxic: bool, config: Config): int {
    ClampPrice(fairValue as real + QuoteWidth(fairValue, toxic, config) / 2.0, config.minQuotePrice, config.maxQuotePrice)
  }

  /** The two quoted prices, crossed ones repaired. */
  function QuotePrices(fairValue: int, toxic: bool, config: Config): (int, int) {
    var bidPrice := RawBidPrice(fairValue, toxic, config);
    var askPrice := RawAskPrice(fairValue, toxic, config);
    if bidPrice >= askPrice then
      var repairedBid := Max(config.minQuotePrice, askPrice - 1);
      (repairedBid, Min(config.maxQuotePrice, repairedBid + 1))
    else (bidPrice, askPrice)
  }

  function PlanInput(snapshot: Snapshot, signal: Signal, config: Config): FairValueInput {
    FairValueInput(
      snapshot.bestBid, snapshot.bestAsk, signal, Some(500.0),
      Some(ComputeInventorySkew(snapshot.exposure)), Some(config.inventorySkewBps),
      Some(config.minQuotePrice), Some(config.maxQuotePrice))
  }

  function BuildQuotePlan(snapshot: Snapshot, signal: Signal, config: Config, now: int): QuotePlan {
    var risk := BuildRiskState(snapshot, config, now);
    var fairValue := ComputeFairValue(PlanInput(snapshot, signal, config));
    if risk.breaker.Some? then
      QuotePlan(fairValue, None, None, 0, 0, true, risk)
    else
      var bidUnits := PlannedUnits(Bid, risk, config);
      var askUnits := PlannedUnits(Ask, risk, config);
      var prices := QuotePrices(fairValue, IsToxic(risk, config), config);
      QuotePlan(
        fairValue,
        if bidUnits > 0 then Some(prices.0) else None,
        if askUnits > 0 then Some(prices.1) else None,
        bidUnits, askUnits,
        snapshot.quoteAgeMs.None? || snapshot.quoteAgeMs.value >= config.minRefreshIntervalMs,
        risk)
  }

  function TargetPrice(side: Side, plan: QuotePlan): Option<int> {
    if side.Bid? then plan.bidPrice else plan.askPrice
  }

  function TargetUnits(side: Side, plan: QuotePlan): int {
    if side.Bid? then plan.bidUnits else plan.askUnits
  }

  function HaltReason(plan: QuotePlan): Option<DecisionReason> {
    if plan.risk.breaker.Some? then Some(Halted(plan.risk.breaker.value)) else None
  }

  function EvaluateQuoteDecision(
    side: Side, plan: QuotePlan, activeQuote: Option<ManagedQuote>, config: Config, now: int): QuoteDecision
  {
    var price := TargetPrice(side, plan);
    var units := TargetUnits(side, plan);
    var wanted := price.Some? && units > 0;
    if activeQuote.None? then
      QuoteDecision(side, price, units, false, wanted, !wanted, if wanted then Some(QuoteMissing) else HaltReason(plan))
    else if !wanted then
      QuoteDecision(side, price, units, true, false, false,
                    if HaltReason(plan).Some? then HaltReason(plan) else Some(QuoteDisabled))
    else
      var quoteAgeMs := Max(0, now - activeQuote.value.placedAtMs);
      var expired := quoteAgeMs >= config.maxQuoteAgeMs;
      var needsPriceRefresh := activeQuote.value.price != price.value;
      var needsSizeRefresh := activeQuote.value.units != units;
      var refreshWindowOpen := plan.replaceQuotes || expired;
      if expired || (refreshWindowOpen && (needsPriceRefresh || needsSizeRefresh)) then
        QuoteDecision(side, price, units, true, true, false,
                      Some(if expired then QuoteExpired else if needsSizeRefresh then SizeRefresh else PriceRefresh))
      else
        QuoteDecision(side, price, units, false, false, true, None)
  }
}
