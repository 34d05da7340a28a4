/** The AMM variant of the market maker: one trade towards fair value, or a hold with a reason. */
module AmmDecision {
  import opened Numbers
  import opened Wrappers
  import opened MarketMaker

  datatype AmmSnapshot = AmmSnapshot(
    lifecycleStatus: LifecycleStatus,
    ammPriceYes: real,
    betCloseTimeMs: Option<int>,
    lastStreamAtMs: Option<int>,
    lastOracleAtMs: Option<int>,
    lastRpcAtMs: Option<int>,
    exposure: Exposure)

  datatype AmmConfig = AmmConfig(
    deviationThresholdBps: int,
    maxTradeSize: int,
    minTradeSize: int,
    maxPositionSize: int,
    maxDrawdownBps: int,
    staleStreamAfterMs: int,
    staleOracleAfterMs: int,
    staleRpcAfterMs: int,
    betCloseGuardMs: int)

  const DEFAULT_AMM_CONFIG := AmmConfig(300, 100_000, 10_000, 500_000, 2_000, 3_000, 5_000, 5_000, 5_000)

  datatype AmmAction = BuyYes | BuyNo | Hold

  datatype AmmReason =
    | Halted(cause: BreakerReason) | WithinThreshold | PositionLimit | BelowMinSize | Deviation(bps: int)

  datatype AmmTradeDecision = AmmTradeDecision(
    action: AmmAction,
    amount: int,
    fairValue: real,
    ammPrice: real,
    deviationBps: int,
    risk: RiskState,
    reason: AmmReason)

  function SyntheticSnapshot(snapshot: AmmSnapshot): Snapshot {
    Snapshot(snapshot.lifecycleStatus, None, None, snapshot.betCloseTimeMs, snapshot.lastStreamAtMs,
             snapshot.lastOracleAtMs, snapshot.lastRpcAtMs, None, snapshot.exposure)
  }

  function SyntheticConfig(config: AmmConfig): Config {
    DEFAULT_CONFIG.(
      maxDrawdownBps := config.maxDrawdownBps,
      staleStreamAfterMs := config.staleStreamAfterMs,
      staleOracleAfterMs := config.staleOracleAfterMs,
      staleRpcAfterMs := config.staleRpcAfterMs,
      betCloseGuardMs := config.betCloseGuardMs)
  }

  /** Fair value as a probability. */
  function AmmFairValue(snapshot: AmmSnapshot, signal: Signal): real {
    ComputeFairValue(FairValueInput(
      None, None, signal, Some(500.0), Some(ComputeInventorySkew(snapshot.exposure)),
      Some(DEFAULT_CONFIG.inventorySkewBps), None, None)) as real / 1000.0
  }

  function Position(exposure: Exposure): int {
    exposure.yes + exposure.no + exposure.openYes + exposure.openNo
  }

  function RawTradeSize(deviationBps: int, config: AmmConfig): int {
    Round(config.maxTradeSize as real * RealMin(1.0, deviationBps as real / 10_000.0))
  }

  function TradeSize(deviationBps: int, position: int, config: AmmConfig): int {
    var headroom := Max(0, config.maxPositionSize - position);
    Min(Min(RawTradeSize(deviationBps, config), headroom), config.maxTradeSize)
  }

  function BuildAmmTradeDecision(
    snapshot: AmmSnapshot, signal: Signal, config: AmmConfig, now: int): AmmTradeDecision
  {
    var risk := BuildRiskState(SyntheticSnapshot(snapshot), SyntheticConfig(config), now);
    var fairValue := AmmFairValue(snapshot, signal);
    var ammPrice := snapshot.ammPriceYes;
    var deviation := ammPrice - fairValue;
    var deviationBps := Round(RealAbs(deviation) * 10_000.0);
    var hold := AmmTradeDecision(Hold, 0, fairValue, ammPrice, deviationBps, risk, WithinThreshold);
    if risk.breaker.Some? then hold.(reason := AmmReason.Halted(risk.breaker.value))
    else if deviationBps < config.deviationThresholdBps then hold
    else if Position(snapshot.exposure) >= config.maxPositionSize then hold.(reason := PositionLimit)
    else
      var tradeSize := TradeSize(deviationBps, Position(snapshot.exposure), config);
      if tradeSize < config.minTradeSize then hold.(reason := BelowMinSize)
      else hold.(action := if deviation < 0.0 then BuyYes else BuyNo, amount := tradeSize, reason := Deviation(deviationBps))
  }

  /** The size a given deviation implies reaches a size of at least one exactly from the deviation whose
      proportional share rounds up to it. */
  lemma RawSizeReaches(deviationBps: int, size: int, config: AmmConfig)
    requires 1 <= size <= config.maxTradeSize
    ensures RawTradeSize(deviationBps, config) >= size <==> 2 * config.maxTradeSize * deviationBps >= (2 * size - 1) * 10_000
  {
    var whole := config.maxTradeSize;
    RawSizeCases(deviationBps, config);
    var product := whole * deviationBps;
    assert 2 * whole * deviationBps == 2 * product;
    if deviationBps <= 10_000 {
      RoundReaches(product, size);
    } else {
      ProductAbove(whole, deviationBps);
    }
  }

  lemma RawSizeCases(deviationBps: int, config: AmmConfig)
    ensures RawTradeSize(deviationBps, config)
         == if deviationBps <= 10_000 then Round((config.maxTradeSize * deviationBps) as real / 10_000.0) else config.maxTradeSize
  {
    ScaledRatio(config.maxTradeSize, deviationBps);
    assert deviationBps as real / 10_000.0 <= 1.0 <==> deviationBps <= 10_000;
    assert config.maxTradeSize as real * 1.0 == config.maxTradeSize as real;
  }

  lemma ProductAbove(whole: int, factor: int)
    requires 0 <= whole && 10_000 < factor
    ensures whole * factor >= whole * 10_000
  {
  }

  lemma ScaledRatio(whole: int, part: int)
    ensures whole as real * (part as real / 10_000.0) == (whole * part) as real / 10_000.0
  {
  }

  lemma RoundReaches(product: int, size: int)
    ensures Round(product as real / 10_000.0) >= size <==> 2 * product >= (2 * size - 1) * 10_000
  {
    var x := product as real / 10_000.0;
    assert x * 10_000.0 == product as real;
  }

  /** A trade happens exactly when the gate is off, the deviation passes both the configured threshold and the
      one its size implies, and there is room for a minimum trade; then it goes towards fair value, within every
      cap, and is as large as those caps and the deviation allow. */
  lemma TradesExactlyWhen(snapshot: AmmSnapshot, signal: Signal, config: AmmConfig, now: int)
    requires 1 <= config.minTradeSize
    ensures
      var decision := BuildAmmTradeDecision(snapshot, signal, config, now);
      var room := config.maxPositionSize - Position(snapshot.exposure);
      && (decision.action != Hold <==>
            && decision.risk.breaker.None?
            && decision.deviationBps >= config.deviationThresholdBps
            && 2 * config.maxTradeSize * decision.deviationBps >= (2 * config.minTradeSize - 1) * 10_000
            && room >= config.minTradeSize
            && config.maxTradeSize >= config.minTradeSize)
      && (decision.action != Hold ==>
            && config.minTradeSize <= decision.amount <= config.maxTradeSize
            && decision.amount <= room
            && (decision.amount == room || decision.amount == RawTradeSize(decision.deviationBps, config) || decision.amount == config.maxTradeSize)
            && (decision.action == BuyYes <==> decision.ammPrice < decision.fairValue)
            && decision.ammPrice != decision.fairValue)
      && (decision.action == Hold ==> decision.amount == 0)
  {
    var decision := BuildAmmTradeDecision(snapshot, signal, config, now);
    if config.minTradeSize <= config.maxTradeSize {
      RawSizeReaches(decision.deviationBps, config.minTradeSize, config);
    }
  }

  /** At the defaults the 300 bps threshold never decides anything: trades start at 1000 bps, and a deviation
      between the two is held for its size. */
  lemma DefaultThresholdIsInert(snapshot: AmmSnapshot, signal: Signal, now: int)
    ensures
      var decision := BuildAmmTradeDecision(snapshot, signal, DEFAULT_AMM_CONFIG, now);
      && (decision.action != Hold <==>
            && decision.risk.breaker.None?
            && decision.deviationBps >= 1_000
            && Position(snapshot.exposure) <= 490_000)
      && ((decision.risk.breaker.None? && 300 <= decision.deviationBps < 1_000 && Position(snapshot.exposure) < 500_000) ==>
            decision.reason == BelowMinSize)
  {
    var decision := BuildAmmTradeDecision(snapshot, signal, DEFAULT_AMM_CONFIG, now);
    TradesExactlyWhen(snapshot, signal, DEFAULT_AMM_CONFIG, now);
    RawSizeReaches(decision.deviationBps, 10_000, DEFAULT_AMM_CONFIG);
  }

  /** With no book in its input the blend never runs: the signal's weight has no say in an AMM decision. */
  lemma SignalWeightIsIgnored(snapshot: AmmSnapshot, price: Option<real>, w1: Option<real>, w2: Option<real>, config: AmmConfig, now: int)
    ensures BuildAmmTradeDecision(snapshot, Signal(price, w1), config, now)
         == BuildAmmTradeDecision(snapshot, Signal(price, w2), config, now)
  {
  }
}
