/**
 The AMM decision in terms of prices: the gap between the pool's price and fair value that a trade of a given size
 takes, the gate in front of it, and what fair value is.
 */
module AmmPrices {
  import opened Numbers
  import opened Wrappers
  import opened MarketMaker
  import opened QuoteGate
  import opened QuotePricing
  import opened QuoteFairValue
  import opened AmmDecision

  // ---------------------------------------------------------------------------------------------
  // The gate

  /** Shares held and on order, of both outcomes. */
  function Holdings(exposure: Exposure): int { exposure.yes + exposure.no + exposure.openYes + exposure.openNo }

  /** The market is open, not about to close, seen on all feeds within the AMM's limits, and neither loss nor
      holdings have reached their limit; the limit on holdings is the order book's, 750000. */
  predicate FitToTrade(snapshot: AmmSnapshot, config: AmmConfig, now: int) {
    && snapshot.lifecycleStatus == Open
    && (snapshot.betCloseTimeMs.Some? ==> snapshot.betCloseTimeMs.value > now + config.betCloseGuardMs)
    && SeenWithin(snapshot.lastStreamAtMs, config.staleStreamAfterMs, now)
    && SeenWithin(snapshot.lastOracleAtMs, config.staleOracleAfterMs, now)
    && SeenWithin(snapshot.lastRpcAtMs, config.staleRpcAfterMs, now)
    && 0 < config.maxDrawdownBps
    && (snapshot.exposure.drawdownBps.Some? ==> snapshot.exposure.drawdownBps.value < config.maxDrawdownBps)
    && Holdings(snapshot.exposure) < 750_000
  }

  lemma GateExactly(snapshot: AmmSnapshot, signal: Signal, config: AmmConfig, now: int)
    ensures BuildAmmTradeDecision(snapshot, signal, config, now).risk.breaker.None? <==> FitToTrade(snapshot, config, now)
  {
    var synthetic, settings := SyntheticSnapshot(snapshot), SyntheticConfig(config);
    BreakerExactly(synthetic, signal, settings, now);
    PlanGate(synthetic, signal, settings, now);
    assert FitToQuote(synthetic, settings, now) <==> FitToTrade(snapshot, config, now);
    hide BuildQuotePlan, BuildRiskState, FitToQuote, FitToTrade, AmmFairValue, TradeSize;
  }

  lemma PlanGate(snapshot: Snapshot, signal: Signal, config: Config, now: int)
    ensures BuildQuotePlan(snapshot, signal, config, now).risk == BuildRiskState(snapshot, config, now)
  {
    hide BuildRiskState, ComputeFairValue, PlannedUnits, QuotePrices;
  }

  // ---------------------------------------------------------------------------------------------
  // Trades

  function Gap(snapshot: AmmSnapshot, fairValue: real): real {
    if snapshot.ammPriceYes >= fairValue then snapshot.ammPriceYes - fairValue else fairValue - snapshot.ammPriceYes
  }

  /** The gap, in basis points of one, rounds to at least d. */
  predicate GapReaches(gap: real, d: int) { 20_000.0 * gap >= (2 * d - 1) as real }

  /** A deviation of d basis points implies a size that rounds to at least the given one. */
  predicate DeviationSupports(d: int, size: int, config: AmmConfig) {
    2 * (config.maxTradeSize * d) >= (2 * size - 1) * 10_000
  }

  /** What a trade of at least the given size takes. */
  ghost predicate Supports(snapshot: AmmSnapshot, config: AmmConfig, now: int, gap: real, size: int) {
    && FitToTrade(snapshot, config, now)
    && GapReaches(gap, config.deviationThresholdBps)
    && Holdings(snapshot.exposure) + size <= config.maxPositionSize
    && size <= config.maxTradeSize
    && exists d :: GapReaches(gap, d) && DeviationSupports(d, size, config)
  }

  lemma DeviationReaches(gap: real, d: int)
    ensures Round(gap * 10_000.0) >= d <==> GapReaches(gap, d)
  {
  }

  lemma SizeNeedsDeviation(gap: real, size: int, config: AmmConfig)
    requires 1 <= size <= config.maxTradeSize
    ensures RawTradeSize(Round(gap * 10_000.0), config) >= size <==>
      exists d :: GapReaches(gap, d) && DeviationSupports(d, size, config)
  {
    var deviation := Round(gap * 10_000.0);
    hide Round, RawTradeSize, GapReaches;
    DeviationReaches(gap, deviation);
    RawSizeReaches(deviation, size, config);
    assert 2 * config.maxTradeSize * deviation == 2 * (config.maxTradeSize * deviation);
    forall d | GapReaches(gap, d) && DeviationSupports(d, size, config)
      ensures DeviationSupports(deviation, size, config)
    {
      DeviationReaches(gap, d);
      MoreDeviation(config.maxTradeSize, d, deviation);
    }
  }

  lemma MoreDeviation(whole: int, low: int, high: int)
    requires 0 <= whole && low <= high
    ensures whole * low <= whole * high
  {
  }

  /** On prices: a trade of at least a given size is made exactly when the market is fit to trade, there is room for
      the size, and the gap between pool price and fair value reaches both the configured threshold and a deviation
      that implies the size. It buys YES below fair value and NO above. */
  lemma TradesOnPrices(snapshot: AmmSnapshot, signal: Signal, config: AmmConfig, now: int, size: int)
    requires 1 <= config.minTradeSize <= size
    ensures
      var decision := BuildAmmTradeDecision(snapshot, signal, config, now);
      var gap := Gap(snapshot, decision.fairValue);
      && (decision.action != Hold && decision.amount >= size <==> Supports(snapshot, config, now, gap, size))
      && (decision.action == BuyYes ==> snapshot.ammPriceYes < decision.fairValue)
      && (decision.action == BuyNo ==> snapshot.ammPriceYes > decision.fairValue)
  {
    var decision := BuildAmmTradeDecision(snapshot, signal, config, now);
    var gap := Gap(snapshot, decision.fairValue);
    GateExactly(snapshot, signal, config, now);
    assert decision.deviationBps == Round(gap * 10_000.0) by {
      hide BuildRiskState, AmmFairValue, TradeSize, Round;
    }
    DeviationReaches(gap, config.deviationThresholdBps);
    if size <= config.maxTradeSize {
      SizeNeedsDeviation(gap, size, config);
    }
    TradesExactlyWhen(snapshot, signal, config, now);
    hide Round, RawTradeSize, GapReaches, FitToTrade, DeviationSupports, Gap, BuildRiskState, AmmFairValue;
    AmountReaches(snapshot, signal, config, now, size);
  }

  lemma AmountReaches(snapshot: AmmSnapshot, signal: Signal, config: AmmConfig, now: int, size: int)
    requires config.minTradeSize <= size && 1 <= size
    ensures
      var decision := BuildAmmTradeDecision(snapshot, signal, config, now);
      decision.action != Hold && decision.amount >= size <==>
        && decision.risk.breaker.None? && decision.deviationBps >= config.deviationThresholdBps
        && Holdings(snapshot.exposure) + size <= config.maxPositionSize && size <= config.maxTradeSize
        && RawTradeSize(decision.deviationBps, config) >= size
  {
    hide BuildRiskState, AmmFairValue, Round, RawTradeSize, RealAbs;
  }

  /** Why nothing is traded: the gate's cause, a gap below the threshold, no room at all, or too small a size. */
  lemma HoldReasonsExactly(snapshot: AmmSnapshot, signal: Signal, config: AmmConfig, now: int)
    ensures
      var decision := BuildAmmTradeDecision(snapshot, signal, config, now);
      var near := !GapReaches(Gap(snapshot, decision.fairValue), config.deviationThresholdBps);
      var full := Holdings(snapshot.exposure) >= config.maxPositionSize;
      var fit := FitToTrade(snapshot, config, now);
      && (decision.reason == WithinThreshold <==> fit && near)
      && (decision.reason == PositionLimit <==> fit && !near && full)
      && (decision.reason == BelowMinSize <==> fit && !near && !full && decision.action == Hold)
      && (forall cause :: decision.reason == AmmReason.Halted(cause) <==> decision.risk.breaker == Some(cause))
      && (decision.reason == Deviation(decision.deviationBps) <==> decision.action != Hold)
  {
    var decision := BuildAmmTradeDecision(snapshot, signal, config, now);
    GateExactly(snapshot, signal, config, now);
    assert decision.deviationBps == Round(Gap(snapshot, decision.fairValue) * 10_000.0) by {
      hide BuildRiskState, AmmFairValue, TradeSize, Round;
    }
    DeviationReaches(Gap(snapshot, decision.fairValue), config.deviationThresholdBps);
    hide BuildRiskState, AmmFairValue, TradeSize, Round, GapReaches, FitToTrade, Gap;
  }

  /** At the defaults a trade starts at a price gap of 0.09995, with room for ten thousand. */
  lemma DefaultGap(snapshot: AmmSnapshot, signal: Signal, now: int)
    ensures
      var decision := BuildAmmTradeDecision(snapshot, signal, DEFAULT_AMM_CONFIG, now);
      decision.action != Hold <==>
        && FitToTrade(snapshot, DEFAULT_AMM_CONFIG, now)
        && Gap(snapshot, decision.fairValue) >= 0.09995
        && Holdings(snapshot.exposure) <= 490_000
  {
    var decision := BuildAmmTradeDecision(snapshot, signal, DEFAULT_AMM_CONFIG, now);
    var gap := Gap(snapshot, decision.fairValue);
    TradesOnPrices(snapshot, signal, DEFAULT_AMM_CONFIG, now, 10_000);
    TradesExactlyWhen(snapshot, signal, DEFAULT_AMM_CONFIG, now);
    hide BuildAmmTradeDecision, FitToTrade, Gap;
    if gap >= 0.09995 {
      assert GapReaches(gap, 1_000) && DeviationSupports(1_000, 10_000, DEFAULT_AMM_CONFIG);
    }
    forall d | GapReaches(gap, d) && DeviationSupports(d, 10_000, DEFAULT_AMM_CONFIG)
      ensures gap >= 0.09995
    {
      assert d >= 1_000;
    }
  }

  // ---------------------------------------------------------------------------------------------
  // Fair value

  /** What leaning away from the position, by 750 basis points of its net share, leaves of a price. */
  function AmmLeaning(exposure: Exposure): real {
    var yes, no := exposure.yes + exposure.openYes, exposure.no + exposure.openNo;
    var share := (yes - no) as real / Max(1, yes + no) as real;
    1.0 - 750.0 * (if share > 1.0 then 1.0 else if share < -1.0 then -1.0 else share) / 10_000.0
  }

  /** The tick that a signal stands for, or 500 without one. */
  predicate StandsFor(signal: Signal, price: int) {
    if signal.price.Some? then NearestTick(price, signal.price.value, 1, 999) else price == 500
  }

  /** Fair value is a thousandth of the tick, among 1 to 999, nearest to the signal's own tick, or to 500 without a
      signal, after leaning away from the position. */
  lemma AmmFairValueExactly(snapshot: AmmSnapshot, signal: Signal, config: AmmConfig, now: int, price: int, tick: int)
    requires StandsFor(signal, price)
    ensures BuildAmmTradeDecision(snapshot, signal, config, now).fairValue == tick as real / 1000.0 <==>
      NearestTick(tick, Leaned(price as real, AmmLeaning(snapshot.exposure)), 1, 999)
  {
    hide Leaned, AmmLeaning;
    assert BuildAmmTradeDecision(snapshot, signal, config, now).fairValue == AmmFairValue(snapshot, signal) by {
      hide AmmFairValue, BuildRiskState, TradeSize, Round;
    }
    hide BuildAmmTradeDecision;
    if signal.price.Some? {
      ClampIsNearest(signal.price.value, 1, 999, price);
    }
    hide NearestTick;
    AmmShift(snapshot.exposure, price as real);
    var leaned := Leaned(price as real, AmmLeaning(snapshot.exposure));
    AmmTick(snapshot, signal, price);
    ClampIsNearest(leaned, 1, 999, tick);
    ThousandthsAreDistinct(ClampPrice(leaned, 1, 999), tick);
    hide AmmFairValue, ClampPrice;
  }

  lemma ThousandthsAreDistinct(a: int, b: int)
    ensures a as real / 1000.0 == b as real / 1000.0 <==> a == b
  {
    assert (a as real / 1000.0) * 1000.0 == a as real && (b as real / 1000.0) * 1000.0 == b as real;
  }

  lemma AmmShift(exposure: Exposure, price: real)
    ensures
      var skew := RealMax(-1.0, RealMin(1.0, ComputeInventorySkew(exposure)));
      ShiftedFairValue(price, 750, skew) == Leaned(price, AmmLeaning(exposure))
  {
    var skew := RealMax(-1.0, RealMin(1.0, ComputeInventorySkew(exposure)));
    assert AmmLeaning(exposure) == 1.0 - 750 as real * skew / 10_000.0;
    hide ComputeInventorySkew, AmmLeaning;
    ShiftIsLeaned(price, 750, skew);
  }

  lemma AmmTick(snapshot: AmmSnapshot, signal: Signal, price: int)
    requires if signal.price.Some? then ClampPrice(signal.price.value, 1, 999) == price else price == 500
    ensures
      var skew := RealMax(-1.0, RealMin(1.0, ComputeInventorySkew(snapshot.exposure)));
      AmmFairValue(snapshot, signal) == ClampPrice(ShiftedFairValue(price as real, 750, skew), 1, 999) as real / 1000.0
  {
    hide ShiftedFairValue, ComputeInventorySkew;
    assert ClampPrice(500.0, 1, 999) == 500;
    hide ClampPrice;
  }

  /** On a balanced position fair value is the signal's tick itself, a half without a signal. */
  lemma BalancedFairValue(snapshot: AmmSnapshot, signal: Signal, config: AmmConfig, now: int, price: int)
    requires StandsFor(signal, price)
    requires snapshot.exposure.yes + snapshot.exposure.openYes == snapshot.exposure.no + snapshot.exposure.openNo
    ensures BuildAmmTradeDecision(snapshot, signal, config, now).fairValue == price as real / 1000.0
  {
    AmmFairValueExactly(snapshot, signal, config, now, price, price);
    assert AmmLeaning(snapshot.exposure) == 1.0;
    hide AmmLeaning, BuildAmmTradeDecision;
  }
}
