/** Prices of a quote plan: they straddle fair value, never cross, and move with the signal and against inventory. */
module QuotePricing {
  import opened Numbers
  import opened Wrappers
  import opened MarketMaker
  import opened QuoteSizing

  lemma WidthAtLeastFive(fairValue: int, toxic: bool, config: Config)
    ensures QuoteWidth(fairValue, toxic, config) >= 5.0
  {
    MulMonotone(1.0, WidthFactor(toxic, config), CalmWidth(fairValue, config) as real);
  }

  /** Around any fair value inside the band the two prices straddle it, and they are apart exactly when the
      band holds more than one price. The repair of crossed prices changes nothing then, and in a one-price
      band it leaves both sides on that price. */
  lemma PricesStraddle(fairValue: int, toxic: bool, config: Config)
    requires SoundPrices(config) && config.minQuotePrice <= fairValue <= config.maxQuotePrice
    ensures
      var (bid, ask) := QuotePrices(fairValue, toxic, config);
      && config.minQuotePrice <= bid <= fairValue <= ask <= config.maxQuotePrice
      && (bid < ask <==> config.minQuotePrice < config.maxQuotePrice)
      && bid == RawBidPrice(fairValue, toxic, config)
      && ask == RawAskPrice(fairValue, toxic, config)
  {
    WidthAtLeastFive(fairValue, toxic, config);
    var half := QuoteWidth(fairValue, toxic, config) / 2.0;
    RoundMonotone(fairValue as real - half, fairValue as real - 2.5);
    RoundMonotone(fairValue as real + 2.5, fairValue as real + half);
    assert Round(fairValue as real - 2.5) == fairValue - 2;
    assert Round(fairValue as real + 2.5) == fairValue + 3;
  }

  lemma FairValueInBand(input: FairValueInput)
    requires input.minPrice.GetOr(DEFAULT_CONFIG.minQuotePrice) <= input.maxPrice.GetOr(DEFAULT_CONFIG.maxQuotePrice)
    ensures input.minPrice.GetOr(DEFAULT_CONFIG.minQuotePrice) <= ComputeFairValue(input)
         <= input.maxPrice.GetOr(DEFAULT_CONFIG.maxQuotePrice)
  {
  }

  /** For every snapshot, signal and time: the quoted prices lie in the band, on their own side of fair value,
      and a two-sided plan is crossed or locked only when the band has a single price. */
  lemma QuotesNeverCross(snapshot: Snapshot, signal: Signal, config: Config, now: int)
    requires SoundPrices(config)
    ensures
      var plan := BuildQuotePlan(snapshot, signal, config, now);
      && config.minQuotePrice <= plan.fairValue <= config.maxQuotePrice
      && (plan.bidPrice.Some? ==> config.minQuotePrice <= plan.bidPrice.value <= plan.fairValue)
      && (plan.askPrice.Some? ==> plan.fairValue <= plan.askPrice.value <= config.maxQuotePrice)
      && (plan.bidPrice.Some? && plan.askPrice.Some? ==>
            (plan.bidPrice.value < plan.askPrice.value <==> config.minQuotePrice < config.maxQuotePrice))
  {
    var fairValue := ComputeFairValue(PlanInput(snapshot, signal, config));
    FairValueInBand(PlanInput(snapshot, signal, config));
    PricesStraddle(fairValue, IsToxic(BuildRiskState(snapshot, config, now), config), config);
  }

  /** Neither price of the quote is moved by the price band. */
  predicate NoClampBinds(fairValue: int, toxic: bool, config: Config) {
    var half := QuoteWidth(fairValue, toxic, config) / 2.0;
    && config.minQuotePrice <= Round(fairValue as real - half)
    && Round(fairValue as real + half) <= config.maxQuotePrice
  }

  /** The spread is the quote width exactly when that is whole and no clamp binds; with no clamp it is less than a
      tick off, and it never is a tick or more above the width. */
  lemma SpreadIsWidthExactly(fairValue: int, toxic: bool, config: Config)
    requires SoundPrices(config) && config.minQuotePrice <= fairValue <= config.maxQuotePrice
    ensures
      var (bid, ask) := QuotePrices(fairValue, toxic, config);
      var width := QuoteWidth(fairValue, toxic, config);
      && ((ask - bid) as real == width <==> width.Floor as real == width && NoClampBinds(fairValue, toxic, config))
      && (ask - bid) as real < width + 1.0
      && (NoClampBinds(fairValue, toxic, config) ==> width - 1.0 < (ask - bid) as real)
  {
    PricesStraddle(fairValue, toxic, config);
    WidthAtLeastFive(fairValue, toxic, config);
    var width := QuoteWidth(fairValue, toxic, config);
    var half := width / 2.0;
    assert Round(fairValue as real - half) == fairValue + Round(-half);
    assert Round(fairValue as real + half) == fairValue + Round(half);
    if width.Floor as real == width {
      HalvesAddUp(width.Floor);
    }
  }

  lemma HalvesAddUp(width: int)
    ensures Round(width as real / 2.0) - Round(-(width as real / 2.0)) == width
  {
    var k := width / 2;
    assert width == 2 * k || width == 2 * k + 1;
    assert width as real / 2.0 == k as real || width as real / 2.0 == k as real + 0.5;
  }

  // ---------------------------------------------------------------------------------------------
  // Monotonicity

  lemma CalmWidthGrowth(lower: int, upper: int, config: Config)
    requires lower <= upper && 0 <= config.targetSpreadBps <= 10_000
    ensures CalmWidth(lower, config) <= CalmWidth(upper, config) <= CalmWidth(lower, config) + (upper - lower)
  {
    CeilGrowth(config.targetSpreadBps, lower, upper);
  }

  lemma QuoteWidthGrowth(lower: int, upper: int, toxic: bool, config: Config)
    requires lower <= upper
    requires 0 <= config.targetSpreadBps <= 10_000 && config.toxicSpreadMultiplier <= 2.0
    ensures QuoteWidth(lower, toxic, config) <= QuoteWidth(upper, toxic, config)
         <= QuoteWidth(lower, toxic, config) + 2.0 * (upper - lower) as real
  {
    CalmWidthGrowth(lower, upper, config);
    assert 1.0 <= WidthFactor(toxic, config) <= 2.0;
    hide CalmWidth, WidthFactor, Widened;
    WidthGrowth(CalmWidth(lower, config), CalmWidth(upper, config), WidthFactor(toxic, config), upper - lower);
  }

  /** One tick more of fair value widens the quote by at most two ticks, so neither price can fall. */
  lemma PricesFollowFairValue(lower: int, upper: int, toxic: bool, config: Config)
    requires lower <= upper
    requires 0 <= config.targetSpreadBps <= 10_000 && config.toxicSpreadMultiplier <= 2.0
    ensures RawBidPrice(lower, toxic, config) <= RawBidPrice(upper, toxic, config)
    ensures RawAskPrice(lower, toxic, config) <= RawAskPrice(upper, toxic, config)
  {
    hide QuoteWidth, ClampPrice;
    QuoteWidthGrowth(lower, upper, toxic, config);
    PricesShift(lower, upper, QuoteWidth(lower, toxic, config), QuoteWidth(upper, toxic, config), config);
  }

  lemma PricesShift(lower: int, upper: int, low: real, high: real, config: Config)
    requires lower <= upper && low <= high <= low + 2.0 * (upper - lower) as real
    ensures ClampPrice(lower as real - low / 2.0, config.minQuotePrice, config.maxQuotePrice)
         <= ClampPrice(upper as real - high / 2.0, config.minQuotePrice, config.maxQuotePrice)
    ensures ClampPrice(lower as real + low / 2.0, config.minQuotePrice, config.maxQuotePrice)
         <= ClampPrice(upper as real + high / 2.0, config.minQuotePrice, config.maxQuotePrice)
  {
    RoundMonotone(lower as real - low / 2.0, upper as real - high / 2.0);
    RoundMonotone(lower as real + low / 2.0, upper as real + high / 2.0);
  }

  lemma CeilGrowth(spreadBps: int, lower: int, upper: int)
    requires lower <= upper && 0 <= spreadBps <= 10_000
    ensures
      var low := Ceil((spreadBps * lower) as real / 10_000.0);
      var high := Ceil((spreadBps * upper) as real / 10_000.0);
      low <= high <= low + (upper - lower)
  {
    var a, b, d := spreadBps * lower, spreadBps * upper, upper - lower;
    assert b - a == spreadBps * d;
    assert 0 <= spreadBps * d <= 10_000 * d;
    DivMonotone(a as real, b as real, 10_000.0);
    assert b as real / 10_000.0 <= a as real / 10_000.0 + d as real;
  }

  lemma StepGrowth(low: real, high: real, step: real, factor: real)
    requires high == low + step && 0.0 <= step && 1.0 <= factor <= 2.0
    ensures low * factor <= high * factor <= low * factor + 2.0 * step
  {
    MulMonotone(factor, 2.0, step);
    MulMonotone(0.0, step, factor);
    assert high * factor == low * factor + step * factor;
  }

  lemma WidthGrowth(low: int, high: int, factor: real, growth: int)
    requires low <= high <= low + growth && 1.0 <= factor <= 2.0
    ensures Widened(low, factor) <= Widened(high, factor) <= Widened(low, factor) + 2.0 * growth as real
  {
    StepGrowth(low as real, high as real, (high - low) as real, factor);
  }

  lemma BlendFollowsSignal(mid: real, lower: real, upper: real, weight: real)
    requires lower <= upper && 0.0 <= weight
    ensures Blend(mid, lower, weight) <= Blend(mid, upper, weight)
  {
    MulMonotone(lower, upper, weight);
  }

  lemma UnshiftedFollowsSignal(input: FairValueInput, lower: real, upper: real)
    requires lower <= upper
    ensures UnshiftedFairValue(input.(signal := input.signal.(price := Some(lower))))
         <= UnshiftedFairValue(input.(signal := input.signal.(price := Some(upper))))
  {
    RoundMonotone(lower, upper);
    var low, high := SignalTick(input, lower) as real, SignalTick(input, upper) as real;
    var weight := RealMin(1.0, RealMax(0.0, input.signal.weight.GetOr(0.0)));
    var bookMid := ComputeBookMid(input.bookBid, input.bookAsk);
    if bookMid.Some? {
      BlendFollowsSignal(bookMid.value, low, high, weight);
    }
  }

  lemma UnshiftedPositive(input: FairValueInput)
    requires 1 <= input.minPrice.GetOr(DEFAULT_CONFIG.minQuotePrice) <= input.maxPrice.GetOr(DEFAULT_CONFIG.maxQuotePrice)
    ensures 0.0 < UnshiftedFairValue(input)
  {
    var bookMid := ComputeBookMid(input.bookBid, input.bookAsk);
    if bookMid.Some? && input.signal.price.Some? {
      var weight := RealMin(1.0, RealMax(0.0, input.signal.weight.GetOr(0.0)));
      BlendPositive(bookMid.value, SignalTick(input, input.signal.price.value) as real, weight);
    }
  }

  lemma BlendPositive(a: real, b: real, weight: real)
    requires 0.0 < a && 0.0 < b && 0.0 <= weight <= 1.0
    ensures 0.0 < Blend(a, b, weight)
  {
    if weight <= 0.5 {
      assert a * (1.0 - weight) > 0.0;
    } else {
      assert b * weight > 0.0;
    }
  }

  lemma ShiftAtMostWhole(rate: real, skew: real)
    requires 0.0 <= rate <= 10_000.0 && skew <= 1.0
    ensures rate * skew <= 10_000.0
  {
    MulMonotone(skew, 1.0, rate);
  }

  lemma ShiftKeepsOrder(lower: real, upper: real, skewBps: int, skew: real)
    requires lower <= upper && 0 <= skewBps <= 10_000 && -1.0 <= skew <= 1.0
    ensures ShiftedFairValue(lower, skewBps, skew) <= ShiftedFairValue(upper, skewBps, skew)
  {
    var product := skewBps as real * skew;
    ShiftAtMostWhole(skewBps as real, skew);
    MulMonotone(lower, upper, 1.0 - product / 10_000.0);
    ShiftAsFactor(lower, skewBps, skew);
    ShiftAsFactor(upper, skewBps, skew);
  }

  lemma ShiftAsFactor(fairValue: real, skewBps: int, skew: real)
    ensures ShiftedFairValue(fairValue, skewBps, skew) == fairValue * (1.0 - skewBps as real * skew / 10_000.0)
  {
    var product := skewBps as real * skew;
    assert fairValue * skewBps as real * skew == fairValue * product;
    assert fairValue * product / 10_000.0 == fairValue * (product / 10_000.0);
  }

  lemma SkewLowersShifted(fairValue: real, skewBps: int, lower: real, upper: real)
    requires 0.0 < fairValue && 0 <= skewBps && lower <= upper
    ensures ShiftedFairValue(fairValue, skewBps, upper) <= ShiftedFairValue(fairValue, skewBps, lower)
  {
    var scale := fairValue * skewBps as real;
    assert 0.0 <= scale;
    MulMonotone(lower, upper, scale);
  }

  /** With an inventory shift of at most the whole price, a higher signal never lowers fair value. */
  lemma FairValueFollowsSignal(input: FairValueInput, lower: real, upper: real)
    requires lower <= upper && input.inventorySkewBps.GetOr(0) <= 10_000
    ensures ComputeFairValue(input.(signal := input.signal.(price := Some(lower))))
         <= ComputeFairValue(input.(signal := input.signal.(price := Some(upper))))
  {
    var low := UnshiftedFairValue(input.(signal := input.signal.(price := Some(lower))));
    var high := UnshiftedFairValue(input.(signal := input.signal.(price := Some(upper))));
    var skew := RealMax(-1.0, RealMin(1.0, input.inventorySkew.GetOr(0.0)));
    var skewBps := Max(0, input.inventorySkewBps.GetOr(0));
    UnshiftedFollowsSignal(input, lower, upper);
    ShiftKeepsOrder(low, high, skewBps, skew);
    RoundMonotone(ShiftedFairValue(low, skewBps, skew), ShiftedFairValue(high, skewBps, skew));
  }

  /** More inventory skew never raises fair value, whatever the shift rate. */
  lemma FairValueOpposesSkew(input: FairValueInput, lower: real, upper: real)
    requires lower <= upper
    requires 1 <= input.minPrice.GetOr(DEFAULT_CONFIG.minQuotePrice) <= input.maxPrice.GetOr(DEFAULT_CONFIG.maxQuotePrice)
    ensures ComputeFairValue(input.(inventorySkew := Some(upper))) <= ComputeFairValue(input.(inventorySkew := Some(lower)))
  {
    var fairValue := UnshiftedFairValue(input);
    var low, high := RealMax(-1.0, RealMin(1.0, lower)), RealMax(-1.0, RealMin(1.0, upper));
    var skewBps := Max(0, input.inventorySkewBps.GetOr(0));
    UnshiftedPositive(input);
    SkewLowersShifted(fairValue, skewBps, low, high);
    assert UnshiftedFairValue(input.(inventorySkew := Some(upper))) == fairValue;
    assert UnshiftedFairValue(input.(inventorySkew := Some(lower))) == fairValue;
    RoundMonotone(ShiftedFairValue(fairValue, skewBps, high), ShiftedFairValue(fairValue, skewBps, low));
  }

  predicate GentlePricing(config: Config) {
    && SoundPrices(config)
    && 0 <= config.targetSpreadBps <= 10_000
    && config.inventorySkewBps <= 10_000
    && config.toxicSpreadMultiplier <= 2.0
  }

  /** Raising the signal, all else equal, never lowers the plan's fair value or either of its prices. */
  lemma PlanFollowsSignal(snapshot: Snapshot, weight: Option<real>, lower: real, upper: real, config: Config, now: int)
    requires GentlePricing(config) && lower <= upper
    ensures
      var low := BuildQuotePlan(snapshot, Signal(Some(lower), weight), config, now);
      var high := BuildQuotePlan(snapshot, Signal(Some(upper), weight), config, now);
      && low.fairValue <= high.fairValue
      && (low.bidPrice.Some? <==> high.bidPrice.Some?)
      && (low.askPrice.Some? <==> high.askPrice.Some?)
      && (low.bidPrice.Some? ==> low.bidPrice.value <= high.bidPrice.value)
      && (low.askPrice.Some? ==> low.askPrice.value <= high.askPrice.value)
  {
    var toxic := IsToxic(BuildRiskState(snapshot, config, now), config);
    var input := PlanInput(snapshot, Signal(Some(lower), weight), config);
    assert PlanInput(snapshot, Signal(Some(upper), weight), config) == input.(signal := input.signal.(price := Some(upper)));
    assert input == input.(signal := input.signal.(price := Some(lower)));
    var high := PlanInput(snapshot, Signal(Some(upper), weight), config);
    FairValueFollowsSignal(input, lower, upper);
    QuotedPricesOrdered(ComputeFairValue(input), ComputeFairValue(high), toxic, config);
  }

  lemma QuotedPricesOrdered(lower: int, upper: int, toxic: bool, config: Config)
    requires GentlePricing(config) && config.minQuotePrice <= lower <= upper <= config.maxQuotePrice
    ensures QuotePrices(lower, toxic, config).0 <= QuotePrices(upper, toxic, config).0
    ensures QuotePrices(lower, toxic, config).1 <= QuotePrices(upper, toxic, config).1
  {
    PricesStraddle(lower, toxic, config);
    PricesStraddle(upper, toxic, config);
    PricesFollowFairValue(lower, upper, toxic, config);
  }

  /** Raising the inventory skew, all else equal, never raises the prices quoted around the fair value. */
  lemma PricesOpposeSkew(input: FairValueInput, lower: real, upper: real, toxic: bool, config: Config)
    requires GentlePricing(config) && lower <= upper
    requires input.minPrice == Some(config.minQuotePrice) && input.maxPrice == Some(config.maxQuotePrice)
    ensures
      var low := QuotePrices(ComputeFairValue(input.(inventorySkew := Some(lower))), toxic, config);
      var high := QuotePrices(ComputeFairValue(input.(inventorySkew := Some(upper))), toxic, config);
      high.0 <= low.0 && high.1 <= low.1
  {
    FairValueOpposesSkew(input, lower, upper);
    FairValueInBand(input.(inventorySkew := Some(lower)));
    FairValueInBand(input.(inventorySkew := Some(upper)));
    QuotedPricesOrdered(ComputeFairValue(input.(inventorySkew := Some(upper))),
                        ComputeFairValue(input.(inventorySkew := Some(lower))), toxic, config);
  }

  /** Two exposures, all else equal: with the heavier skew, no fair value and no price that both plans quote is
      higher. */
  lemma PlanOpposesInventory(snapshot: Snapshot, exposure: Exposure, signal: Signal, config: Config, now: int)
    requires GentlePricing(config)
    requires ComputeInventorySkew(snapshot.exposure) <= ComputeInventorySkew(exposure)
    ensures
      var light := BuildQuotePlan(snapshot, signal, config, now);
      var heavy := BuildQuotePlan(snapshot.(exposure := exposure), signal, config, now);
      && heavy.fairValue <= light.fairValue
      && (light.bidPrice.Some? && heavy.bidPrice.Some? ==> heavy.bidPrice.value <= light.bidPrice.value)
      && (light.askPrice.Some? && heavy.askPrice.Some? ==> heavy.askPrice.value <= light.askPrice.value)
  {
    var input := PlanInput(snapshot, signal, config);
    var lower, upper := ComputeInventorySkew(snapshot.exposure), ComputeInventorySkew(exposure);
    var toxic := IsToxic(BuildRiskState(snapshot, config, now), config);
    assert input == input.(inventorySkew := Some(lower));
    assert PlanInput(snapshot.(exposure := exposure), signal, config) == input.(inventorySkew := Some(upper));
    assert IsToxic(BuildRiskState(snapshot.(exposure := exposure), config, now), config) == toxic;
    hide ComputeInventorySkew, ComputeFairValue, QuotePrices, PlannedUnits, Breaker, ComputeToxicityBps;
    FairValueOpposesSkew(input, lower, upper);
    PricesOpposeSkew(input, lower, upper, toxic, config);
  }

  // ---------------------------------------------------------------------------------------------
  // Widths that grow too fast

  /** How many whole ticks below fair value the bid stands, before the clamp. */
  function BidDistance(fairValue: int, toxic: bool, config: Config): int {
    -Round(-(QuoteWidth(fairValue, toxic, config) / 2.0))
  }

  /** For any configuration: a higher fair value lowers the bid exactly when the bid's distance grows by more ticks
      than the fair value, and the lower one's bid was not already at the minimum price. */
  lemma BidFallsExactly(lower: int, upper: int, toxic: bool, config: Config)
    requires SoundPrices(config) && config.minQuotePrice <= lower <= upper <= config.maxQuotePrice
    ensures QuotePrices(upper, toxic, config).0 < QuotePrices(lower, toxic, config).0 <==>
      && BidDistance(upper, toxic, config) - BidDistance(lower, toxic, config) > upper - lower
      && lower - BidDistance(lower, toxic, config) > config.minQuotePrice
  {
    BidStandsBelow(lower, toxic, config);
    BidStandsBelow(upper, toxic, config);
  }

  lemma BidStandsBelow(fairValue: int, toxic: bool, config: Config)
    requires SoundPrices(config) && config.minQuotePrice <= fairValue <= config.maxQuotePrice
    ensures QuotePrices(fairValue, toxic, config).0 == Max(config.minQuotePrice, fairValue - BidDistance(fairValue, toxic, config))
  {
    PricesStraddle(fairValue, toxic, config);
    WidthAtLeastFive(fairValue, toxic, config);
    var half := QuoteWidth(fairValue, toxic, config) / 2.0;
    assert Round(fairValue as real - half) == fairValue + Round(-half);
  }

  /** The ask never falls as fair value rises, whatever the multiplier. */
  lemma AskFollowsFairValue(lower: int, upper: int, toxic: bool, config: Config)
    requires SoundPrices(config) && config.minQuotePrice <= lower <= upper <= config.maxQuotePrice
    requires 0 <= config.targetSpreadBps
    ensures QuotePrices(lower, toxic, config).1 <= QuotePrices(upper, toxic, config).1
  {
    PricesStraddle(lower, toxic, config);
    PricesStraddle(upper, toxic, config);
    WidthFollowsFairValue(lower, upper, toxic, config);
    var low, high := QuoteWidth(lower, toxic, config), QuoteWidth(upper, toxic, config);
    hide QuoteWidth, QuotePrices;
    RoundMonotone(lower as real + low / 2.0, upper as real + high / 2.0);
  }

  lemma WidthFollowsFairValue(lower: int, upper: int, toxic: bool, config: Config)
    requires lower <= upper && 0 <= config.targetSpreadBps
    ensures QuoteWidth(lower, toxic, config) <= QuoteWidth(upper, toxic, config)
  {
    CalmWidthFollowsFairValue(lower, upper, config);
    hide CalmWidth;
    MulMonotone(CalmWidth(lower, config) as real, CalmWidth(upper, config) as real, WidthFactor(toxic, config));
  }

  lemma CalmWidthFollowsFairValue(lower: int, upper: int, config: Config)
    requires lower <= upper && 0 <= config.targetSpreadBps
    ensures CalmWidth(lower, config) <= CalmWidth(upper, config)
  {
    var low, high := config.targetSpreadBps * lower, config.targetSpreadBps * upper;
    assert low <= high;
    DivMonotone(low as real, high as real, 10_000.0);
  }

  /** While the width grows by at most two ticks per tick of fair value, the bid cannot fall; a growth of two more
      ticks than that makes it fall wherever the clamp does not hold it. */
  lemma WidthGrowthDecides(lower: int, upper: int, toxic: bool, config: Config)
    requires SoundPrices(config) && config.minQuotePrice <= lower <= upper <= config.maxQuotePrice
    ensures
      var growth := QuoteWidth(upper, toxic, config) - QuoteWidth(lower, toxic, config);
      var falls := QuotePrices(upper, toxic, config).0 < QuotePrices(lower, toxic, config).0;
      && (growth <= 2.0 * (upper - lower) as real ==> !falls)
      && (growth >= 2.0 * (upper - lower) as real + 2.0 && QuotePrices(lower, toxic, config).0 > config.minQuotePrice
          ==> falls)
  {
    BidFallsExactly(lower, upper, toxic, config);
    BidStandsBelow(lower, toxic, config);
    var low, high := QuoteWidth(lower, toxic, config) / 2.0, QuoteWidth(upper, toxic, config) / 2.0;
    if high <= low + (upper - lower) as real {
      RoundMonotone(-low - (upper - lower) as real, -high);
      assert Round(-low - (upper - lower) as real) == Round(-low) - (upper - lower);
    }
    if high >= low + (upper - lower) as real + 1.0 {
      RoundMonotone(-high, -low - (upper - lower) as real - 1.0);
      assert Round(-low - (upper - lower) as real - 1.0) == Round(-low) - (upper - lower) - 1;
    }
  }

  /** The same for two plans that differ only in the signal: exactly when the higher signal lowers the bid. */
  lemma PlanBidFallsExactly(snapshot: Snapshot, weight: Option<real>, lower: real, upper: real, config: Config, now: int)
    requires SoundPrices(config) && config.inventorySkewBps <= 10_000 && lower <= upper
    ensures
      var low := BuildQuotePlan(snapshot, Signal(Some(lower), weight), config, now);
      var high := BuildQuotePlan(snapshot, Signal(Some(upper), weight), config, now);
      var toxic := IsToxic(low.risk, config);
      && (low.bidPrice.Some? <==> high.bidPrice.Some?)
      && (low.bidPrice.Some? ==>
            (high.bidPrice.value < low.bidPrice.value <==>
               && BidDistance(high.fairValue, toxic, config) - BidDistance(low.fairValue, toxic, config)
                    > high.fairValue - low.fairValue
               && low.fairValue - BidDistance(low.fairValue, toxic, config) > config.minQuotePrice))
  {
    var toxic := IsToxic(BuildRiskState(snapshot, config, now), config);
    var input := PlanInput(snapshot, Signal(Some(lower), weight), config);
    var high := PlanInput(snapshot, Signal(Some(upper), weight), config);
    assert high == input.(signal := input.signal.(price := Some(upper)));
    assert input == input.(signal := input.signal.(price := Some(lower)));
    FairValueFollowsSignal(input, lower, upper);
    FairValueInBand(input);
    FairValueInBand(high);
    hide ComputeFairValue, PlannedUnits, Breaker, ComputeToxicityBps;
    BidFallsExactly(ComputeFairValue(input), ComputeFairValue(high), toxic, config);
  }

  /** With a ten percent target spread and a multiplier of three it does: on a market without a book, raising the
      signal from 110 to 111 lowers the bid from 94 to 93. */
  lemma HigherSignalLowersTheBid()
    ensures
      var config := DEFAULT_CONFIG.(targetSpreadBps := 1_000, toxicSpreadMultiplier := 3.0);
      var snapshot := Snapshot(Open, None, None, None, Some(0), Some(0), Some(0), None, Exposure(0, 0, 0, 0, None));
      && BuildQuotePlan(snapshot, Signal(Some(110.0), None), config, 0).bidPrice == Some(94)
      && BuildQuotePlan(snapshot, Signal(Some(111.0), None), config, 0).bidPrice == Some(93)
  {
    var config := DEFAULT_CONFIG.(targetSpreadBps := 1_000, toxicSpreadMultiplier := 3.0);
    var snapshot := Snapshot(Open, None, None, None, Some(0), Some(0), Some(0), None, Exposure(0, 0, 0, 0, None));
    hide BuildQuotePlan, QuotePrices;
    UnbookedBid(snapshot, config, 110);
    UnbookedBid(snapshot, config, 111);
    TripleWidthBids(config);
  }

  lemma TripleWidthBids(config: Config)
    requires config == DEFAULT_CONFIG.(targetSpreadBps := 1_000, toxicSpreadMultiplier := 3.0)
    ensures QuotePrices(110, true, config).0 == 94 && QuotePrices(111, true, config).0 == 93
  {
    hide QuotePrices;
    assert CalmWidth(110, config) == 11 && CalmWidth(111, config) == 12;
    BidStandsBelow(110, true, config);
    BidStandsBelow(111, true, config);
    hide CalmWidth;
    assert BidDistance(110, true, config) == 16 && BidDistance(111, true, config) == 18;
  }

  /** A flat desk on a market without a book quotes around the signal, at the toxic width. */
  lemma UnbookedBid(snapshot: Snapshot, config: Config, tick: int)
    requires config == DEFAULT_CONFIG.(targetSpreadBps := 1_000, toxicSpreadMultiplier := 3.0) && 1 <= tick <= 999
    requires snapshot == Snapshot(Open, None, None, None, Some(0), Some(0), Some(0), None, Exposure(0, 0, 0, 0, None))
    ensures BuildQuotePlan(snapshot, Signal(Some(tick as real), None), config, 0).bidPrice
         == Some(QuotePrices(tick, true, config).0)
  {
    hide QuotePrices, ComputeFairValue, PlannedUnits, BuildRiskState, PlanInput;
    FlatRisk(snapshot, config);
    FlatUnits(BuildRiskState(snapshot, config, 0), config);
    SignalIsFairValue(snapshot, config, tick);
  }

  lemma FlatRisk(snapshot: Snapshot, config: Config)
    requires config == DEFAULT_CONFIG.(targetSpreadBps := 1_000, toxicSpreadMultiplier := 3.0)
    requires snapshot == Snapshot(Open, None, None, None, Some(0), Some(0), Some(0), None, Exposure(0, 0, 0, 0, None))
    ensures
      var risk := BuildRiskState(snapshot, config, 0);
      && risk.breaker.None? && risk.canBid && risk.toxicityBps == 10_000
      && risk.yesExposure == risk.noExposure == risk.grossExposure == risk.netExposure == risk.drawdownBps == 0
  {
    assert ComputeToxicityBps(None, None) == 10_000;
    hide ComputeToxicityBps;
  }

  lemma SignalIsFairValue(snapshot: Snapshot, config: Config, tick: int)
    requires config.minQuotePrice == 1 && config.maxQuotePrice == 999 && 1 <= tick <= 999
    requires snapshot.bestBid.None? && snapshot.exposure == Exposure(0, 0, 0, 0, None)
    ensures ComputeFairValue(PlanInput(snapshot, Signal(Some(tick as real), None), config)) == tick
  {
    var input := PlanInput(snapshot, Signal(Some(tick as real), None), config);
    RoundOfInt(tick);
    assert ComputeInventorySkew(snapshot.exposure) == 0.0;
    hide ComputeInventorySkew;
    assert UnshiftedFairValue(input) == tick as real;
    hide UnshiftedFairValue;
    NoSkewNoShift(tick as real, Max(0, config.inventorySkewBps));
    hide ShiftedFairValue;
  }

  lemma NoSkewNoShift(fairValue: real, skewBps: int)
    ensures ShiftedFairValue(fairValue, skewBps, 0.0) == fairValue
  {
  }

  lemma FlatUnits(risk: RiskState, config: Config)
    requires config == DEFAULT_CONFIG.(targetSpreadBps := 1_000, toxicSpreadMultiplier := 3.0)
    requires risk.yesExposure == risk.noExposure == risk.grossExposure == risk.netExposure == risk.drawdownBps == 0
    requires risk.canBid && risk.toxicityBps == 10_000
    ensures PlannedUnits(Bid, risk, config) > 0
  {
    hide ClampQuoteUnits;
    assert BaseUnits(risk, config) == 50;
    assert Lean(Bid, 0, 0) == 0.0 && RequestedUnits(50, 0.0) == 50;
    ClampIsGreatestAdmissible(50, 25, [500_000, 250_000, 750_000]);
  }
}
