/**
 Fair value and prices in terms of the snapshot, signal and configuration alone: which prices are blended, how far
 the inventory moves them, and that every price quoted is the nearest tick the band allows.
 */
module QuoteFairValue {
  import opened Numbers
  import opened Wrappers
  import opened MarketMaker
  import opened QuoteGate
  import opened QuotePricing

  /** The tick nearest to a price among those of the band, the upper one on a tie. */
  predicate NearestTick(tick: int, price: real, min: int, max: int) {
    && min <= tick <= max
    && (tick > min ==> tick as real - 0.5 <= price)
    && (tick < max ==> price < tick as real + 0.5)
  }

  lemma ClampIsNearest(price: real, min: int, max: int, tick: int)
    requires min <= max
    ensures ClampPrice(price, min, max) == tick <==> NearestTick(tick, price, min, max)
  {
  }

  // ---------------------------------------------------------------------------------------------
  // Fair value

  /** Both best prices are there, above zero and not crossed. */
  predicate HasBook(snapshot: Snapshot) {
    snapshot.bestBid.Some? && snapshot.bestAsk.Some? && 0.0 < snapshot.bestBid.value <= snapshot.bestAsk.value
  }

  /** The signal's weight, none counting as zero, kept between zero and one. */
  function WeightOf(signal: Signal): real {
    if signal.weight.None? || signal.weight.value <= 0.0 then 0.0
    else if signal.weight.value >= 1.0 then 1.0
    else signal.weight.value
  }

  /** How much of the price is left after leaning away from the inventory: the skew rate times the net share of
      the gross exposure is taken off. */
  function Leaning(snapshot: Snapshot, config: Config): real {
    var yes, no := Yes(snapshot), No(snapshot);
    var share := (yes - no) as real / Max(1, yes + no) as real;
    var bounded := if share > 1.0 then 1.0 else if share < -1.0 then -1.0 else share;
    1.0 - (if config.inventorySkewBps > 0 then config.inventorySkewBps as real * bounded / 10_000.0 else 0.0)
  }

  function Leaned(price: real, leaning: real): real { price * leaning }

  /** The price the fair value is taken from: the signal's tick weighed against the mid of the book, whichever of
      them exists, or 500. */
  ghost predicate PricedAt(snapshot: Snapshot, signal: Signal, config: Config, price: real) {
    if signal.price.None? then
      price == if HasBook(snapshot) then (snapshot.bestBid.value + snapshot.bestAsk.value) / 2.0 else 500.0
    else
      exists tick :: NearestTick(tick, signal.price.value, config.minQuotePrice, config.maxQuotePrice) &&
        if HasBook(snapshot) then
          2.0 * price == (1.0 - WeightOf(signal)) * (snapshot.bestBid.value + snapshot.bestAsk.value)
                         + 2.0 * WeightOf(signal) * tick as real
        else price == tick as real
  }

  lemma BlendReads(bid: real, ask: real, tick: real, weight: real)
    ensures 2.0 * Blend((bid + ask) / 2.0, tick, weight) == (1.0 - weight) * (bid + ask) + 2.0 * weight * tick
  {
    var mid := (bid + ask) / 2.0;
    assert 2.0 * (mid * (1.0 - weight)) == (1.0 - weight) * (bid + ask);
    assert 2.0 * (tick * weight) == 2.0 * weight * tick;
  }

  lemma MidReads(snapshot: Snapshot)
    ensures ComputeBookMid(snapshot.bestBid, snapshot.bestAsk)
         == if HasBook(snapshot) then Some((snapshot.bestBid.value + snapshot.bestAsk.value) / 2.0) else None
  {
  }

  lemma UnshiftedIsPriced(snapshot: Snapshot, signal: Signal, config: Config)
    requires SoundPrices(config)
    ensures PricedAt(snapshot, signal, config, UnshiftedFairValue(PlanInput(snapshot, signal, config)))
  {
    var input := PlanInput(snapshot, signal, config);
    hide ComputeInventorySkew, ComputeBookMid, Blend;
    MidReads(snapshot);
    assert ClampPrice(500.0, 1, 999) == 500;
    if signal.price.Some? {
      var tick := SignalTick(input, signal.price.value);
      ClampIsNearest(signal.price.value, config.minQuotePrice, config.maxQuotePrice, tick);
      hide NearestTick, ClampPrice;
      if HasBook(snapshot) {
        BlendReads(snapshot.bestBid.value, snapshot.bestAsk.value, tick as real, WeightOf(signal));
      }
    }
  }

  /** A price, once the tick of the signal is known, is determined: two prices a market is priced at are equal. */
  lemma PriceIsUnique(snapshot: Snapshot, signal: Signal, config: Config, first: real, second: real)
    requires PricedAt(snapshot, signal, config, first) && PricedAt(snapshot, signal, config, second)
    ensures first == second
  {
    if signal.price.Some? {
      forall a, b
        ensures
          && NearestTick(a, signal.price.value, config.minQuotePrice, config.maxQuotePrice)
          && NearestTick(b, signal.price.value, config.minQuotePrice, config.maxQuotePrice)
          ==> a == b
      {
      }
    }
  }

  /** Every market has a price, and the fair value of a plan is the tick nearest to it after leaning away from the
      inventory. */
  lemma FairValueExactly(snapshot: Snapshot, signal: Signal, config: Config, now: int)
    requires SoundPrices(config)
    ensures exists price :: PricedAt(snapshot, signal, config, price)
    ensures forall price :: PricedAt(snapshot, signal, config, price) ==>
      NearestTick(BuildQuotePlan(snapshot, signal, config, now).fairValue, Leaned(price, Leaning(snapshot, config)),
                  config.minQuotePrice, config.maxQuotePrice)
  {
    hide UnshiftedFairValue, BuildQuotePlan, NearestTick, Leaning, Leaned, PlanInput, PricedAt;
    var price := UnshiftedFairValue(PlanInput(snapshot, signal, config));
    UnshiftedIsPriced(snapshot, signal, config);
    PlanHoldsFairValue(snapshot, signal, config, now);
    LeaningIsNearest(snapshot, signal, config);
    forall other | PricedAt(snapshot, signal, config, other)
      ensures other == price
    {
      PriceIsUnique(snapshot, signal, config, price, other);
    }
  }

  lemma PlanHoldsFairValue(snapshot: Snapshot, signal: Signal, config: Config, now: int)
    ensures BuildQuotePlan(snapshot, signal, config, now).fairValue == ComputeFairValue(PlanInput(snapshot, signal, config))
  {
    hide BuildRiskState, ComputeFairValue, PlannedUnits, QuotePrices;
  }

  lemma LeaningIsNearest(snapshot: Snapshot, signal: Signal, config: Config)
    requires SoundPrices(config)
    ensures
      var input := PlanInput(snapshot, signal, config);
      NearestTick(ComputeFairValue(input), Leaned(UnshiftedFairValue(input), Leaning(snapshot, config)),
                  config.minQuotePrice, config.maxQuotePrice)
  {
    var input := PlanInput(snapshot, signal, config);
    var price := UnshiftedFairValue(input);
    var skew := RealMax(-1.0, RealMin(1.0, ComputeInventorySkew(snapshot.exposure)));
    var skewBps := Max(0, config.inventorySkewBps);
    hide UnshiftedFairValue, NearestTick, ClampPrice, ComputeInventorySkew, Leaning;
    ShiftIsLeaned(price, skewBps, skew);
    LeaningReads(snapshot, config, skewBps, skew);
    hide ShiftedFairValue, Leaned;
    assert ComputeFairValue(input)
        == ClampPrice(ShiftedFairValue(price, skewBps, skew), config.minQuotePrice, config.maxQuotePrice);
    ClampIsNearest(ShiftedFairValue(price, skewBps, skew), config.minQuotePrice, config.maxQuotePrice,
                   ComputeFairValue(input));
  }

  lemma ShiftIsLeaned(price: real, skewBps: int, skew: real)
    ensures ShiftedFairValue(price, skewBps, skew) == Leaned(price, 1.0 - skewBps as real * skew / 10_000.0)
  {
    ShiftAsFactor(price, skewBps, skew);
  }

  lemma LeaningReads(snapshot: Snapshot, config: Config, skewBps: int, skew: real)
    requires skewBps == Max(0, config.inventorySkewBps)
    requires skew == RealMax(-1.0, RealMin(1.0, ComputeInventorySkew(snapshot.exposure)))
    ensures Leaning(snapshot, config) == 1.0 - skewBps as real * skew / 10_000.0
  {
  }

  /** At weight zero or less, or without one, the signal beside a book has no say; at weight one or more the book
      beside a signal has none. */
  lemma WeightEndpoints(snapshot: Snapshot, signal: Signal, config: Config, now: int)
    requires SoundPrices(config) && HasBook(snapshot) && signal.price.Some?
    ensures
      var fairValue := BuildQuotePlan(snapshot, signal, config, now).fairValue;
      && (WeightOf(signal) == 0.0 ==>
            fairValue == BuildQuotePlan(snapshot, Signal(None, signal.weight), config, now).fairValue)
      && (WeightOf(signal) == 1.0 ==>
            fairValue == BuildQuotePlan(snapshot.(bestBid := None, bestAsk := None), signal, config, now).fairValue)
  {
    hide BuildRiskState, PlannedUnits, QuotePrices, ShiftedFairValue, ComputeInventorySkew, ClampPrice;
    var input := PlanInput(snapshot, signal, config);
    MidReads(snapshot);
    hide ComputeBookMid;
    var mid, tick := (snapshot.bestBid.value + snapshot.bestAsk.value) / 2.0, SignalTick(input, signal.price.value) as real;
    assert Blend(mid, tick, 0.0) == mid && Blend(mid, tick, 1.0) == tick;
    hide Blend;
  }

  // ---------------------------------------------------------------------------------------------
  // Width and prices

  /** The least whole width of at least five ticks that covers the target spread of the fair value. */
  predicate LeastWidth(width: int, fairValue: int, config: Config) {
    && width >= 5 && 10_000 * width >= config.targetSpreadBps * fairValue
    && (width > 5 ==> 10_000 * (width - 1) < config.targetSpreadBps * fairValue)
  }

  lemma CalmWidthIsLeast(fairValue: int, config: Config)
    ensures LeastWidth(CalmWidth(fairValue, config), fairValue, config)
  {
    CeilIsLeast(config.targetSpreadBps * fairValue);
  }

  lemma LeastWidthIsUnique(first: int, second: int, fairValue: int, config: Config)
    requires LeastWidth(first, fairValue, config) && LeastWidth(second, fairValue, config)
    ensures first == second
  {
  }

  lemma CeilIsLeast(n: int)
    ensures var c := Ceil(n as real / 10_000.0); 10_000 * c >= n > 10_000 * (c - 1)
  {
    var x := n as real / 10_000.0;
    assert x * 10_000.0 == n as real;
  }

  function ToxicFactor(snapshot: Snapshot, config: Config): real {
    if ToxicBy(snapshot.bestBid, snapshot.bestAsk, config.toxicityThresholdBps) && config.toxicSpreadMultiplier > 1.0
    then config.toxicSpreadMultiplier else 1.0
  }

  /** Half the quoted width: the whole width times the multiplier, halved. */
  function HalfWidth(width: int, snapshot: Snapshot, config: Config): real {
    width as real * ToxicFactor(snapshot, config) / 2.0
  }

  /** Each price of a plan is the tick nearest to fair value less or plus half the width: the least covering width,
      times the multiplier on a toxic book. */
  lemma PlanPricesExactly(snapshot: Snapshot, signal: Signal, config: Config, now: int, width: int)
    requires SoundPrices(config)
    requires LeastWidth(width, BuildQuotePlan(snapshot, signal, config, now).fairValue, config)
    ensures
      var plan := BuildQuotePlan(snapshot, signal, config, now);
      var half := HalfWidth(width, snapshot, config);
      && (plan.bidPrice.Some? ==>
            NearestTick(plan.bidPrice.value, plan.fairValue as real - half, config.minQuotePrice, config.maxQuotePrice))
      && (plan.askPrice.Some? ==>
            NearestTick(plan.askPrice.value, plan.fairValue as real + half, config.minQuotePrice, config.maxQuotePrice))
  {
    hide BuildQuotePlan, CalmWidth, LeastWidth, QuotePrices, NearestTick, QuoteWidth, IsToxic, HalfWidth;
    var plan := BuildQuotePlan(snapshot, signal, config, now);
    CalmWidthIsLeast(plan.fairValue, config);
    LeastWidthIsUnique(width, CalmWidth(plan.fairValue, config), plan.fairValue, config);
    PlanHoldsPrices(snapshot, signal, config, now);
    WidthReads(snapshot, signal, config, now);
    PricesAreNearest(plan.fairValue, IsToxic(plan.risk, config), config);
  }

  lemma PlanHoldsPrices(snapshot: Snapshot, signal: Signal, config: Config, now: int)
    requires SoundPrices(config)
    ensures
      var plan := BuildQuotePlan(snapshot, signal, config, now);
      var prices := QuotePrices(plan.fairValue, IsToxic(plan.risk, config), config);
      && config.minQuotePrice <= plan.fairValue <= config.maxQuotePrice
      && (plan.bidPrice.Some? ==> plan.bidPrice.value == prices.0)
      && (plan.askPrice.Some? ==> plan.askPrice.value == prices.1)
  {
    FairValueInBand(PlanInput(snapshot, signal, config));
    hide BuildRiskState, ComputeFairValue, PlannedUnits, QuotePrices, IsToxic;
  }

  lemma PricesAreNearest(fairValue: int, toxic: bool, config: Config)
    requires SoundPrices(config) && config.minQuotePrice <= fairValue <= config.maxQuotePrice
    ensures
      var prices, half := QuotePrices(fairValue, toxic, config), QuoteWidth(fairValue, toxic, config) / 2.0;
      && NearestTick(prices.0, fairValue as real - half, config.minQuotePrice, config.maxQuotePrice)
      && NearestTick(prices.1, fairValue as real + half, config.minQuotePrice, config.maxQuotePrice)
  {
    PricesStraddle(fairValue, toxic, config);
    hide QuoteWidth, QuotePrices, NearestTick, ClampPrice;
    var half := QuoteWidth(fairValue, toxic, config) / 2.0;
    ClampIsNearest(fairValue as real - half, config.minQuotePrice, config.maxQuotePrice, RawBidPrice(fairValue, toxic, config));
    ClampIsNearest(fairValue as real + half, config.minQuotePrice, config.maxQuotePrice, RawAskPrice(fairValue, toxic, config));
  }

  lemma WidthReads(snapshot: Snapshot, signal: Signal, config: Config, now: int)
    ensures
      var plan := BuildQuotePlan(snapshot, signal, config, now);
      QuoteWidth(plan.fairValue, IsToxic(plan.risk, config), config) / 2.0
        == HalfWidth(CalmWidth(plan.fairValue, config), snapshot, config)
  {
    ToxicityReads(snapshot.bestBid, snapshot.bestAsk, config.toxicityThresholdBps);
    hide Breaker, SideImbalanceBps, ComputeFairValue, PlannedUnits, QuotePrices, ToxicBy, ComputeToxicityBps, CalmWidth;
  }
}
