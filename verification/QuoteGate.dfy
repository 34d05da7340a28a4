/**
 The risk gate in terms of the snapshot, the configuration and the time alone: when the breaker is off and which
 cause it names otherwise, when a side may be quoted, and what counts as lopsided or toxic.
 */
module QuoteGate {
  import opened Numbers
  import opened Wrappers
  import opened MarketMaker

  function Yes(snapshot: Snapshot): int { snapshot.exposure.yes + snapshot.exposure.openYes }

  function No(snapshot: Snapshot): int { snapshot.exposure.no + snapshot.exposure.openNo }

  // ---------------------------------------------------------------------------------------------
  // The breaker

  /** The feed has been seen, and not longer ago than its limit. */
  predicate SeenWithin(lastAtMs: Option<int>, limitMs: int, now: int) {
    lastAtMs.Some? && now <= lastAtMs.value + limitMs
  }

  /** Bets do not close, or close later than the guard from now. */
  predicate ClosesLater(snapshot: Snapshot, config: Config, now: int) {
    snapshot.betCloseTimeMs.Some? ==> snapshot.betCloseTimeMs.value > now + config.betCloseGuardMs
  }

  predicate LossBelowLimit(snapshot: Snapshot, config: Config) {
    0 < config.maxDrawdownBps && (snapshot.exposure.drawdownBps.Some? ==> snapshot.exposure.drawdownBps.value < config.maxDrawdownBps)
  }

  predicate NotionalBelowLimit(snapshot: Snapshot, config: Config) {
    Yes(snapshot) + No(snapshot) < config.maxGrossExposure || Yes(snapshot) + No(snapshot) < config.maxQuoteUnits
  }

  /** The market is open, not about to close, seen on all three feeds in time, and neither loss nor notional has
      reached its limit. */
  predicate FitToQuote(snapshot: Snapshot, config: Config, now: int) {
    && snapshot.lifecycleStatus == Open
    && ClosesLater(snapshot, config, now)
    && SeenWithin(snapshot.lastStreamAtMs, config.staleStreamAfterMs, now)
    && SeenWithin(snapshot.lastOracleAtMs, config.staleOracleAfterMs, now)
    && SeenWithin(snapshot.lastRpcAtMs, config.staleRpcAfterMs, now)
    && LossBelowLimit(snapshot, config)
    && NotionalBelowLimit(snapshot, config)
  }

  /** The breaker of a plan is off exactly when the market is fit to quote. Otherwise it names the first cause of
      the seven that applies: status, close, stream, oracle, RPC, drawdown, notional. */
  lemma BreakerExactly(snapshot: Snapshot, signal: Signal, config: Config, now: int)
    ensures
      var breaker := BuildQuotePlan(snapshot, signal, config, now).risk.breaker;
      var open, later := snapshot.lifecycleStatus == Open, ClosesLater(snapshot, config, now);
      var stream := SeenWithin(snapshot.lastStreamAtMs, config.staleStreamAfterMs, now);
      var oracle := SeenWithin(snapshot.lastOracleAtMs, config.staleOracleAfterMs, now);
      var rpc := SeenWithin(snapshot.lastRpcAtMs, config.staleRpcAfterMs, now);
      var loss, notional := LossBelowLimit(snapshot, config), NotionalBelowLimit(snapshot, config);
      && (breaker.None? <==> FitToQuote(snapshot, config, now))
      && (breaker == Some(MarketNotQuotable(snapshot.lifecycleStatus)) <==> !open)
      && (breaker == Some(BetCloseGuard) <==> open && !later)
      && (breaker == Some(StaleStream) <==> open && later && !stream)
      && (breaker == Some(StaleOracle) <==> open && later && stream && !oracle)
      && (breaker == Some(StaleRpc) <==> open && later && stream && oracle && !rpc)
      && (breaker == Some(DrawdownLimit) <==> open && later && stream && oracle && rpc && !loss)
      && (breaker == Some(MarketNotionalLimit) <==> open && later && stream && oracle && rpc && loss && !notional)
  {
    hide ComputeFairValue, PlannedUnits, QuotePrices, ComputeToxicityBps, SideImbalanceBps;
  }

  /** An active breaker clears the plan: neither side gets a price or a size. */
  lemma BreakerClearsPlan(snapshot: Snapshot, signal: Signal, config: Config, now: int)
    ensures
      var plan := BuildQuotePlan(snapshot, signal, config, now);
      !FitToQuote(snapshot, config, now) ==>
        plan.bidPrice.None? && plan.askPrice.None? && plan.bidUnits == plan.askUnits == 0 && plan.replaceQuotes
  {
    BreakerExactly(snapshot, signal, config, now);
    hide ComputeFairValue, PlannedUnits, QuotePrices, BuildRiskState, FitToQuote;
  }

  // ---------------------------------------------------------------------------------------------
  // Imbalance, toxicity and permissions

  /** Net exposure is at least the given share of gross exposure, in basis points rounded to the nearest. */
  predicate LopsidedBy(snapshot: Snapshot, bps: int) {
    var yes, no := Yes(snapshot), No(snapshot);
    if yes + no > 0 then 20_000 * Abs(yes - no) >= (2 * bps - 1) * (yes + no) else bps <= 0
  }

  lemma RatioReaches(part: int, whole: int, bps: int)
    requires whole > 0
    ensures Round((part as real * 10_000.0) / whole as real) >= bps <==> 20_000 * part >= (2 * bps - 1) * whole
  {
    var x := (part as real * 10_000.0) / whole as real;
    assert x * whole as real == part as real * 10_000.0;
    RealReaches(x, whole as real, bps);
    assert (2 * bps - 1) as real * whole as real == ((2 * bps - 1) * whole) as real;
  }

  lemma RealReaches(x: real, whole: real, bps: int)
    requires whole > 0.0
    ensures Round(x) >= bps <==> 2.0 * (x * whole) >= (2 * bps - 1) as real * whole
  {
    var bound := (2 * bps - 1) as real;
    assert Round(x) >= bps <==> 2.0 * x >= bound;
    if 2.0 * x >= bound {
      MulMonotone(bound, 2.0 * x, whole);
    } else {
      MulStrictly(2.0 * x, bound, whole);
    }
    assert (2.0 * x) * whole == 2.0 * (x * whole);
  }

  lemma MulStrictly(x: real, y: real, k: real)
    requires x < y && 0.0 < k
    ensures x * k < y * k
  {
  }

  lemma LopsidedReads(snapshot: Snapshot, config: Config, now: int, bps: int)
    ensures BuildRiskState(snapshot, config, now).sideImbalanceBps >= bps <==> LopsidedBy(snapshot, bps)
  {
    hide Breaker, ComputeToxicityBps;
    if Yes(snapshot) + No(snapshot) > 0 {
      RatioReaches(Abs(Yes(snapshot) - No(snapshot)), Yes(snapshot) + No(snapshot), bps);
    }
    hide Round;
  }

  /** Without a book that has both prices above zero and not crossed, toxicity is 10000 bps; with one it is the
      spread's share of the mid, rounded. */
  predicate ToxicBy(bestBid: Option<real>, bestAsk: Option<real>, bps: int) {
    if bestBid.Some? && bestAsk.Some? && 0.0 < bestBid.value <= bestAsk.value then
      40_000.0 * (bestAsk.value - bestBid.value) >= (2 * bps - 1) as real * (bestBid.value + bestAsk.value)
    else 10_000 >= bps
  }

  lemma ToxicityReads(bestBid: Option<real>, bestAsk: Option<real>, bps: int)
    ensures ComputeToxicityBps(bestBid, bestAsk) >= bps <==> ToxicBy(bestBid, bestAsk, bps)
  {
    if bestBid.Some? && bestAsk.Some? && 0.0 < bestBid.value <= bestAsk.value {
      var mid := (bestBid.value + bestAsk.value) / 2.0;
      var x := ((bestAsk.value - bestBid.value) * 10_000.0) / mid;
      assert x * mid == (bestAsk.value - bestBid.value) * 10_000.0;
      RealReaches(x, mid, bps);
      assert ComputeToxicityBps(bestBid, bestAsk) == Round(x);
      assert (2 * bps - 1) as real * (2.0 * mid) == 2.0 * ((2 * bps - 1) as real * mid);
    }
  }

  /** A side may be quoted exactly when the market is fit to quote, that side's inventory and the net exposure
      towards it are below their limits, and it is not the heavier side of a lopsided position. */
  lemma PermissionsExactly(snapshot: Snapshot, signal: Signal, config: Config, now: int)
    ensures
      var risk := BuildQuotePlan(snapshot, signal, config, now).risk;
      var yes, no := Yes(snapshot), No(snapshot);
      var lopsided := LopsidedBy(snapshot, config.maxSideImbalanceBps);
      && (risk.canBid <==>
            && FitToQuote(snapshot, config, now)
            && yes < config.maxInventoryPerSide && yes - no < config.maxNetExposure && !(yes > no && lopsided))
      && (risk.canAsk <==>
            && FitToQuote(snapshot, config, now)
            && no < config.maxInventoryPerSide && no - yes < config.maxNetExposure && !(no > yes && lopsided))
      && risk.yesExposure == yes && risk.noExposure == no
      && risk.grossExposure == yes + no && risk.netExposure == yes - no
  {
    BreakerExactly(snapshot, signal, config, now);
    LopsidedReads(snapshot, config, now, config.maxSideImbalanceBps);
    hide ComputeFairValue, PlannedUnits, QuotePrices, ComputeToxicityBps, SideImbalanceBps, FitToQuote, LopsidedBy, Breaker;
  }

  /** The flags and the drawdown that the plan reports with its risk. */
  lemma FlagsExactly(snapshot: Snapshot, signal: Signal, config: Config, now: int)
    ensures
      var risk := BuildQuotePlan(snapshot, signal, config, now).risk;
      && (risk.staleStream <==> !SeenWithin(snapshot.lastStreamAtMs, config.staleStreamAfterMs, now))
      && (risk.staleOracle <==> !SeenWithin(snapshot.lastOracleAtMs, config.staleOracleAfterMs, now))
      && (risk.staleRpc <==> !SeenWithin(snapshot.lastRpcAtMs, config.staleRpcAfterMs, now))
      && (risk.closingSoon <==> !ClosesLater(snapshot, config, now))
      && risk.drawdownBps >= 0
      && (snapshot.exposure.drawdownBps.Some? && snapshot.exposure.drawdownBps.value > 0 ==>
            risk.drawdownBps == snapshot.exposure.drawdownBps.value)
      && (snapshot.exposure.drawdownBps.None? || snapshot.exposure.drawdownBps.value <= 0 ==> risk.drawdownBps == 0)
  {
    hide ComputeFairValue, PlannedUnits, QuotePrices, ComputeToxicityBps, SideImbalanceBps, Breaker;
  }

  // ---------------------------------------------------------------------------------------------
  // The decision for one side

  /** What one side does, exactly. It keeps a quote when the plan wants one there, the quote is younger than the
      maximum age, and it either matches the plan or the refresh window is shut; it cancels any other quote; and it
      places when the plan wants a quote that is not kept. */
  lemma DecisionExactly(side: Side, plan: QuotePlan, quote: Option<ManagedQuote>, config: Config, now: int)
    ensures
      var decision := EvaluateQuoteDecision(side, plan, quote, config, now);
      var price := if side == Bid then plan.bidPrice else plan.askPrice;
      var units := if side == Bid then plan.bidUnits else plan.askUnits;
      var wanted := price.Some? && units > 0;
      var young := quote.Some? && now < quote.value.placedAtMs + config.maxQuoteAgeMs && 0 < config.maxQuoteAgeMs;
      var matches := quote.Some? && price == Some(quote.value.price) && units == quote.value.units;
      && (decision.shouldCancel <==> quote.Some? && !(wanted && young && (matches || !plan.replaceQuotes)))
      && (decision.shouldPlace <==> wanted && (quote.None? || decision.shouldCancel))
      && (decision.shouldKeep <==> !decision.shouldCancel && !decision.shouldPlace)
      && decision.side == side && decision.targetPrice == price && decision.targetUnits == units
  {
  }

  /** The reason a decision names: nothing for a quote that is kept; else the breaker's cause or that the side is
      disabled when no quote is wanted, a missing quote, an expired one, and the size before the price. */
  lemma ReasonExactly(side: Side, plan: QuotePlan, quote: Option<ManagedQuote>, config: Config, now: int)
    ensures
      var decision := EvaluateQuoteDecision(side, plan, quote, config, now);
      var wanted := decision.targetPrice.Some? && decision.targetUnits > 0;
      && (decision.reason == Some(QuoteMissing) <==> wanted && quote.None?)
      && (decision.reason == Some(QuoteDisabled) <==> !wanted && quote.Some? && plan.risk.breaker.None?)
      && (decision.reason == Some(QuoteExpired) <==>
            wanted && quote.Some? && Max(0, now - quote.value.placedAtMs) >= config.maxQuoteAgeMs)
      && (decision.reason == Some(SizeRefresh) <==>
            && wanted && decision.shouldCancel
            && Max(0, now - quote.value.placedAtMs) < config.maxQuoteAgeMs && quote.value.units != decision.targetUnits)
      && (decision.reason == Some(PriceRefresh) <==>
            && wanted && decision.shouldCancel
            && Max(0, now - quote.value.placedAtMs) < config.maxQuoteAgeMs && quote.value.units == decision.targetUnits)
      && (forall cause :: decision.reason == Some(DecisionReason.Halted(cause)) <==>
            !wanted && plan.risk.breaker == Some(cause))
      && (decision.reason.None? <==>
            if wanted then quote.Some? && decision.shouldKeep else quote.None? && plan.risk.breaker.None?)
  {
  }

  /** The plan opens the refresh window when nothing is quoted, or when the reported quote age has reached the
      refresh interval, or when the breaker is active. */
  lemma RefreshWindowExactly(snapshot: Snapshot, signal: Signal, config: Config, now: int)
    ensures BuildQuotePlan(snapshot, signal, config, now).replaceQuotes <==>
      || !FitToQuote(snapshot, config, now)
      || snapshot.quoteAgeMs.None?
      || snapshot.quoteAgeMs.value >= config.minRefreshIntervalMs
  {
    BreakerExactly(snapshot, signal, config, now);
    hide ComputeFairValue, PlannedUnits, QuotePrices, BuildRiskState, FitToQuote;
  }
}
