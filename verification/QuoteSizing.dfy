/** What the sizes of a quote plan respect: every cap, the pair of sides together, and the mirror image. */
module QuoteSizing {
  import opened Numbers
  import opened Wrappers
  import opened MarketMaker

  lemma {:induction false} MinOfIsLeast(first: int, rest: seq<int>)
    ensures MinOf(first, rest) <= first
    ensures forall l :: l in rest ==> MinOf(first, rest) <= Max(0, l)
    ensures MinOf(first, rest) == first || exists l :: l in rest && MinOf(first, rest) == Max(0, l)
  {
    if rest != [] {
      var next := Min(first, Max(0, rest[0]));
      MinOfIsLeast(next, rest[1..]);
      assert forall l :: l in rest ==> l == rest[0] || l in rest[1..];
    }
  }

  /** The size is the request or one of the limits, never above any of them, and is dropped to zero exactly
      when the request or some limit is below the minimum. */
  lemma ClampIsGreatestAdmissible(requestedUnits: int, minQuoteUnits: int, limits: seq<int>)
    requires 1 <= minQuoteUnits
    ensures var units := ClampQuoteUnits(requestedUnits, minQuoteUnits, limits);
      && (units == 0 <==> requestedUnits < minQuoteUnits || exists l :: l in limits && Max(0, l) < minQuoteUnits)
      && (units != 0 ==>
            && minQuoteUnits <= units <= requestedUnits
            && (forall l :: l in limits ==> units <= l)
            && (units == requestedUnits || units in limits))
  {
    MinOfIsLeast(requestedUnits, limits);
  }

  /** The requested size of a side never exceeds the common base size. */
  lemma RequestWithinBase(baseUnits: int, lean: real)
    requires 0 <= baseUnits
    ensures RequestedUnits(baseUnits, lean) <= baseUnits
  {
    var factor := RealMax(0.25, 1.0 - RealMax(0.0, lean));
    MulMonotone(factor, 1.0, baseUnits as real);
    RoundMonotone(baseUnits as real * factor, baseUnits as real);
    RoundOfInt(baseUnits);
  }

  /** Each side alone keeps the quote within its minimum and maximum and within all three headrooms. */
  lemma PlannedUnitsWithinCaps(side: Side, risk: RiskState, config: Config)
    requires SoundUnits(config)
    ensures var units := PlannedUnits(side, risk, config);
      units != 0 ==>
        && (if side.Bid? then risk.canBid else risk.canAsk)
        && config.minQuoteUnits <= units <= BaseUnits(risk, config) <= config.maxQuoteUnits
        && units <= config.maxInventoryPerSide - (if side.Bid? then risk.yesExposure else risk.noExposure)
        && units <= config.maxNetExposure - (if side.Bid? then risk.netExposure else -risk.netExposure)
        && units <= config.maxGrossExposure - risk.grossExposure
    ensures 0 <= PlannedUnits(side, risk, config)
  {
    var units := PlannedUnits(side, risk, config);
    if units != 0 {
      var lean := Lean(side, risk.yesExposure, risk.noExposure);
      var exposure := if side.Bid? then risk.yesExposure else risk.noExposure;
      var net := if side.Bid? then risk.netExposure else -risk.netExposure;
      var limits := [ Max(0, config.maxInventoryPerSide - exposure),
                      Max(0, config.maxNetExposure - net),
                      Max(0, config.maxGrossExposure - risk.grossExposure) ];
      ClampIsGreatestAdmissible(RequestedUnits(BaseUnits(risk, config), lean), config.minQuoteUnits, limits);
      RequestWithinBase(BaseUnits(risk, config), lean);
      assert limits[0] in limits && limits[1] in limits && limits[2] in limits;
    }
  }

  /** How far the two sides together can pass the gross headroom: by at most one maximum quote, and by no
      more than one MINIMUM quote once the gross limit is at least twice the maximum quote. */
  function GrossSlack(config: Config): int {
    if 2 * config.maxQuoteUnits <= config.maxGrossExposure then config.minQuoteUnits else config.maxQuoteUnits
  }

  lemma HeadroomRatioIsShare(used: int, limit: int)
    requires 1 <= limit && 0 <= used <= limit
    ensures 0.0 <= HeadroomRatio(used, limit)
    ensures HeadroomRatio(used, limit) * limit as real == (limit - used) as real
  {
    var share := used as real / limit as real;
    assert share * limit as real == used as real;
    DivUpper(used as real, limit as real, 1.0);
  }

  lemma HalfOfShare(units: real, ratio: real, scale: real, share: real, part: real, whole: real)
    requires 0.0 <= units <= whole / 2.0 && 0.0 <= ratio <= share && 0.0 <= scale <= 1.0
    requires share * whole == part
    ensures units * ratio * scale <= part / 2.0
  {
    MulMonotone(ratio, share, units);
    MulMonotone(units, whole / 2.0, share);
    assert (whole / 2.0) * share == part / 2.0;
    var product := units * ratio;
    assert 0.0 <= product <= part / 2.0;
    MulMonotone(scale, 1.0, product);
  }

  lemma ScaledUnitsFollowGrossHeadroom(risk: RiskState, config: Config)
    requires 1 <= config.maxQuoteUnits && 2 * config.maxQuoteUnits <= config.maxGrossExposure
    requires 0 <= risk.grossExposure <= config.maxGrossExposure
    ensures ScaledUnits(risk, config) <= (config.maxGrossExposure - risk.grossExposure) as real / 2.0
  {
    var units, ratio, scale := config.maxQuoteUnits as real, HeadroomShare(risk, config), ToxicUnitScale(risk, config);
    var share := HeadroomRatio(risk.grossExposure, config.maxGrossExposure);
    HeadroomRatioIsShare(risk.grossExposure, config.maxGrossExposure);
    assert units <= config.maxGrossExposure as real / 2.0;
    HalfOfShare(units, ratio, scale, share, (config.maxGrossExposure - risk.grossExposure) as real, config.maxGrossExposure as real);
  }

  /** Above the minimum, the base size is at most half of what the gross headroom leaves, rounded. */
  lemma BaseUnitsFollowGrossHeadroom(risk: RiskState, config: Config)
    requires SoundUnits(config) && 2 * config.maxQuoteUnits <= config.maxGrossExposure
    requires 0 <= risk.grossExposure <= config.maxGrossExposure
    ensures BaseUnits(risk, config) <= config.minQuoteUnits
         || 2 * BaseUnits(risk, config) <= config.maxGrossExposure - risk.grossExposure + 1
  {
    ScaledUnitsFollowGrossHeadroom(risk, config);
    RoundMonotone(ScaledUnits(risk, config), (config.maxGrossExposure - risk.grossExposure) as real / 2.0);
  }

  /** Both sides are capped by the same gross headroom on their own, so together they may overshoot it, but
      by no more than the slack. */
  lemma PairWithinGrossSlack(risk: RiskState, config: Config)
    requires SoundUnits(config)
    requires risk.grossExposure >= 0
    ensures var both := PlannedUnits(Bid, risk, config) + PlannedUnits(Ask, risk, config);
      both == 0 || risk.grossExposure + both <= config.maxGrossExposure + GrossSlack(config)
  {
    PlannedUnitsWithinCaps(Bid, risk, config);
    PlannedUnitsWithinCaps(Ask, risk, config);
    var bid, ask := PlannedUnits(Bid, risk, config), PlannedUnits(Ask, risk, config);
    if bid + ask != 0 && 2 * config.maxQuoteUnits <= config.maxGrossExposure {
      BaseUnitsFollowGrossHeadroom(risk, config);
    }
  }

  lemma HalfOfShareStrictly(units: real, ratio: real, scale: real, share: real, part: real, whole: real)
    requires 0.0 <= units < whole / 2.0 && 0.0 <= ratio <= share && 0.0 <= scale <= 1.0
    requires share * whole == part && 0.0 < part && 0.0 < whole
    ensures units * ratio * scale < part / 2.0
  {
    assert 0.0 < share;
    MulMonotone(ratio, share, units);
    MulBelow(units, whole / 2.0, share);
    assert (whole / 2.0) * share == part / 2.0;
    var product := units * ratio;
    assert 0.0 <= product < part / 2.0;
    MulMonotone(scale, 1.0, product);
  }

  lemma MulBelow(x: real, y: real, k: real)
    requires x < y && 0.0 < k
    ensures x * k < y * k
  {
  }

  /** With two maximum quotes below the gross limit, the base size above the minimum is at most half the headroom. */
  lemma BaseUnitsWithinHalfHeadroom(risk: RiskState, config: Config)
    requires SoundUnits(config) && 2 * config.maxQuoteUnits < config.maxGrossExposure
    requires 0 <= risk.grossExposure <= config.maxGrossExposure
    ensures BaseUnits(risk, config) <= config.minQuoteUnits
         || 2 * BaseUnits(risk, config) <= config.maxGrossExposure - risk.grossExposure
  {
    var headroom := config.maxGrossExposure - risk.grossExposure;
    var units, ratio, scale := config.maxQuoteUnits as real, HeadroomShare(risk, config), ToxicUnitScale(risk, config);
    var share := HeadroomRatio(risk.grossExposure, config.maxGrossExposure);
    ScaledUnitsFollowGrossHeadroom(risk, config);
    if headroom > 0 {
      HeadroomRatioIsShare(risk.grossExposure, config.maxGrossExposure);
      assert units < config.maxGrossExposure as real / 2.0;
      assert 0.0 <= ratio <= share && 0.0 <= scale <= 1.0;
      hide HeadroomShare, HeadroomRatio, ToxicUnitScale;
      HalfOfShareStrictly(units, ratio, scale, share, headroom as real, config.maxGrossExposure as real);
    }
  }

  /** Exactly when one plan's two sides overshoot the gross limit: both are quoted and what the limit leaves is
      less than two minimum quotes. */
  lemma PairOvershootsExactly(risk: RiskState, config: Config)
    requires SoundUnits(config) && 2 * config.maxQuoteUnits < config.maxGrossExposure
    requires 0 <= risk.grossExposure <= config.maxGrossExposure
    ensures
      var bid, ask := PlannedUnits(Bid, risk, config), PlannedUnits(Ask, risk, config);
      risk.grossExposure + bid + ask > config.maxGrossExposure <==>
        bid > 0 && ask > 0 && config.maxGrossExposure - risk.grossExposure < 2 * config.minQuoteUnits
  {
    PlannedUnitsWithinCaps(Bid, risk, config);
    PlannedUnitsWithinCaps(Ask, risk, config);
    BaseUnitsWithinHalfHeadroom(risk, config);
  }

  /** What a caller can check beforehand: for every configuration, headroom for two maximum quotes keeps the gross
      limit, and when two maximum quotes are below the limit, headroom for two minimum quotes is enough. */
  predicate HasGrossRoom(gross: int, config: Config) {
    || config.maxGrossExposure - gross >= 2 * config.maxQuoteUnits
    || (2 * config.maxQuoteUnits < config.maxGrossExposure && config.maxGrossExposure - gross >= 2 * config.minQuoteUnits)
  }

  lemma PairKeepsGrossLimit(risk: RiskState, config: Config)
    requires SoundUnits(config) && 0 <= risk.grossExposure && HasGrossRoom(risk.grossExposure, config)
    ensures risk.grossExposure + PlannedUnits(Bid, risk, config) + PlannedUnits(Ask, risk, config) <= config.maxGrossExposure
  {
    PlannedUnitsWithinCaps(Bid, risk, config);
    PlannedUnitsWithinCaps(Ask, risk, config);
    if config.maxGrossExposure - risk.grossExposure < 2 * config.maxQuoteUnits {
      PairOvershootsExactly(risk, config);
    }
  }

  // ---------------------------------------------------------------------------------------------
  // Mirror symmetry

  function Mirror(exposure: Exposure): Exposure {
    Exposure(exposure.no, exposure.yes, exposure.openNo, exposure.openYes, exposure.drawdownBps)
  }

  lemma NegatedQuotient(a: int, b: int)
    requires b > 0
    ensures -(a as real) / b as real == -(a as real / b as real)
  {
  }

  /** Swapping YES and NO swaps the sides' permissions and sizes and leaves the gate itself alone. */
  lemma MirrorSymmetry(snapshot: Snapshot, signal: Signal, config: Config, now: int)
    ensures
      var plan := BuildQuotePlan(snapshot, signal, config, now);
      var mirrored := BuildQuotePlan(snapshot.(exposure := Mirror(snapshot.exposure)), signal, config, now);
      && mirrored.risk.canBid == plan.risk.canAsk && mirrored.risk.canAsk == plan.risk.canBid
      && mirrored.bidUnits == plan.askUnits && mirrored.askUnits == plan.bidUnits
      && mirrored.risk.breaker == plan.risk.breaker
      && mirrored.risk.reduceOnly == plan.risk.reduceOnly
      && mirrored.risk.netExposure == -plan.risk.netExposure
      && mirrored.risk.grossExposure == plan.risk.grossExposure
      && mirrored.replaceQuotes == plan.replaceQuotes
  {
    var risk := BuildRiskState(snapshot, config, now);
    var mirrored := BuildRiskState(snapshot.(exposure := Mirror(snapshot.exposure)), config, now);
    MirroredUnits(Bid, risk, mirrored, config);
    MirroredUnits(Ask, risk, mirrored, config);
  }

  lemma LeanMirrors(yes: int, no: int)
    ensures Lean(Bid, yes, no) == Lean(Ask, no, yes) && Lean(Ask, yes, no) == Lean(Bid, no, yes)
  {
    assert (no - yes) as real == -((yes - no) as real);
    NegatedQuotient(yes - no, Max(1, yes + no));
  }

  lemma MirroredBase(risk: RiskState, mirrored: RiskState, config: Config)
    requires mirrored.yesExposure == risk.noExposure && mirrored.noExposure == risk.yesExposure
    requires mirrored.grossExposure == risk.grossExposure
    requires mirrored.drawdownBps == risk.drawdownBps && mirrored.toxicityBps == risk.toxicityBps
    ensures BaseUnits(mirrored, config) == BaseUnits(risk, config)
  {
    hide HeadroomRatio;
    assert HeadroomShare(mirrored, config) == HeadroomShare(risk, config);
    hide HeadroomShare;
  }

  lemma MirroredUnits(side: Side, risk: RiskState, mirrored: RiskState, config: Config)
    requires mirrored.yesExposure == risk.noExposure && mirrored.noExposure == risk.yesExposure
    requires mirrored.grossExposure == risk.grossExposure && mirrored.netExposure == -risk.netExposure
    requires mirrored.canBid == risk.canAsk && mirrored.canAsk == risk.canBid
    requires mirrored.drawdownBps == risk.drawdownBps && mirrored.toxicityBps == risk.toxicityBps
    ensures PlannedUnits(side, mirrored, config) == PlannedUnits(if side.Bid? then Ask else Bid, risk, config)
  {
    MirroredBase(risk, mirrored, config);
    hide BaseUnits, Lean, RequestedUnits, ClampQuoteUnits;
    LeanMirrors(risk.yesExposure, risk.noExposure);
  }

  /** Reduce-only mode is exactly a lopsided book whose lighter side may still be quoted; then only that side
      gets a size, and every fill on it moves net exposure towards the other sign. */
  lemma ReduceOnlyOpensTheLighterSide(snapshot: Snapshot, signal: Signal, config: Config, now: int)
    ensures
      var plan := BuildQuotePlan(snapshot, signal, config, now);
      var risk := plan.risk;
      && (risk.reduceOnly <==>
            && risk.breaker.None?
            && risk.netExposure != 0
            && risk.sideImbalanceBps >= config.maxSideImbalanceBps
            && (if risk.netExposure > 0
                then risk.noExposure < config.maxInventoryPerSide && -risk.netExposure < config.maxNetExposure
                else risk.yesExposure < config.maxInventoryPerSide && risk.netExposure < config.maxNetExposure))
      && (risk.reduceOnly ==>
            && risk.canBid != risk.canAsk
            && (risk.canAsk <==> risk.netExposure > 0)
            && (risk.netExposure > 0 ==> plan.bidPrice.None? && plan.bidUnits == 0)
            && (risk.netExposure < 0 ==> plan.askPrice.None? && plan.askUnits == 0))
  {
  }

  function LighterSide(risk: RiskState): Side { if risk.netExposure > 0 then Ask else Bid }

  function LighterExposure(risk: RiskState): int {
    if risk.netExposure > 0 then risk.noExposure else risk.yesExposure
  }

  /** A quote of the given size fits the base size and all three headrooms of the lighter side. */
  predicate FitsLighterSide(units: int, risk: RiskState, config: Config) {
    && units <= BaseUnits(risk, config)
    && units <= config.maxInventoryPerSide - LighterExposure(risk)
    && units <= config.maxNetExposure + Abs(risk.netExposure)
    && units <= config.maxGrossExposure - risk.grossExposure
  }

  lemma LighterSideAsksForBase(risk: RiskState, config: Config)
    requires SoundUnits(config) && risk.netExposure != 0 && risk.netExposure == risk.yesExposure - risk.noExposure
    ensures RequestedUnits(BaseUnits(risk, config), Lean(LighterSide(risk), risk.yesExposure, risk.noExposure))
         == BaseUnits(risk, config)
  {
    hide BaseUnits;
    LighterSideLeansBack(risk.yesExposure, risk.noExposure);
    RoundOfInt(BaseUnits(risk, config));
    assert BaseUnits(risk, config) as real * 1.0 == BaseUnits(risk, config) as real;
  }

  lemma LighterSideLeansBack(yes: int, no: int)
    ensures yes >= no ==> Lean(Ask, yes, no) <= 0.0
    ensures yes <= no ==> Lean(Bid, yes, no) <= 0.0
  {
    var whole := Max(1, yes + no);
    if yes >= no {
      DivMonotone(0.0, (yes - no) as real, whole as real);
    }
    if yes <= no {
      DivMonotone((yes - no) as real, 0.0, whole as real);
    }
  }

  lemma LighterUnitsExceedExactly(risk: RiskState, config: Config)
    requires SoundUnits(config) && risk.netExposure != 0 && risk.netExposure == risk.yesExposure - risk.noExposure
    requires if risk.netExposure > 0 then risk.canAsk else risk.canBid
    ensures PlannedUnits(LighterSide(risk), risk, config) > Abs(risk.netExposure) <==>
      FitsLighterSide(Max(config.minQuoteUnits, Abs(risk.netExposure) + 1), risk, config)
  {
    LighterSideAsksForBase(risk, config);
    hide BaseUnits, RequestedUnits, Lean, ClampQuoteUnits;
    var limits := [ Max(0, config.maxInventoryPerSide - LighterExposure(risk)),
                    Max(0, config.maxNetExposure + Abs(risk.netExposure)),
                    Max(0, config.maxGrossExposure - risk.grossExposure) ];
    ClampReachesExactly(BaseUnits(risk, config), config.minQuoteUnits, limits, Abs(risk.netExposure) + 1);
    assert forall l :: l in limits ==> l == limits[0] || l == limits[1] || l == limits[2];
    assert limits[0] in limits && limits[1] in limits && limits[2] in limits;
  }

  /** A clamped size reaches a given size exactly when request and limits reach both that size and the minimum. */
  lemma ClampReachesExactly(requestedUnits: int, minQuoteUnits: int, limits: seq<int>, size: int)
    requires 1 <= minQuoteUnits && 1 <= size
    ensures ClampQuoteUnits(requestedUnits, minQuoteUnits, limits) >= size <==>
      Max(minQuoteUnits, size) <= requestedUnits && forall l :: l in limits ==> Max(minQuoteUnits, size) <= Max(0, l)
  {
    MinOfIsLeast(requestedUnits, limits);
  }

  /** Exactly when reduce-only mode quotes more than the net exposure it is to reduce, so that filling the quote
      would carry net exposure past zero: one unit more than the net exposure, and at least the minimum quote,
      fits the base size and the lighter side's headrooms. */
  lemma ReduceOnlyFlipsExactly(snapshot: Snapshot, signal: Signal, config: Config, now: int)
    requires SoundUnits(config)
    ensures
      var plan := BuildQuotePlan(snapshot, signal, config, now);
      var risk := plan.risk;
      var quoted := if risk.netExposure > 0 then plan.askUnits else plan.bidUnits;
      risk.reduceOnly ==>
        (quoted > Abs(risk.netExposure) <==>
           FitsLighterSide(Max(config.minQuoteUnits, Abs(risk.netExposure) + 1), risk, config))
  {
    ReduceOnlyOpensTheLighterSide(snapshot, signal, config, now);
    var risk := BuildRiskState(snapshot, config, now);
    hide PlannedUnits, FitsLighterSide;
    if risk.reduceOnly {
      LighterUnitsExceedExactly(risk, config);
    }
  }

  /** What a caller can check beforehand: with a net exposure of at least one maximum quote, no fill of a
      reduce-only quote carries net exposure past zero. */
  lemma ReduceOnlyKeepsSign(snapshot: Snapshot, signal: Signal, config: Config, now: int, filled: int)
    requires SoundUnits(config)
    ensures
      var plan := BuildQuotePlan(snapshot, signal, config, now);
      var net := plan.risk.netExposure;
      plan.risk.reduceOnly && Abs(net) >= config.maxQuoteUnits ==>
        && (net > 0 && 0 <= filled <= plan.askUnits ==> 0 <= net - filled <= net)
        && (net < 0 && 0 <= filled <= plan.bidUnits ==> net <= net + filled <= 0)
  {
    var risk := BuildRiskState(snapshot, config, now);
    PlannedUnitsWithinCaps(Bid, risk, config);
    PlannedUnitsWithinCaps(Ask, risk, config);
  }

  /** The mode's name promises more than the sizes keep: at the default configuration one YES share is
      answered with a 100-unit ask, whose fill leaves net exposure at -99. */
  lemma ReduceOnlyCanFlipNetExposure(now: int)
    ensures
      var snapshot := Snapshot(Open, Some(495.0), Some(505.0), None, Some(now), Some(now), Some(now), None,
                               Exposure(1, 0, 0, 0, None));
      var plan := BuildQuotePlan(snapshot, Signal(None, None), DEFAULT_CONFIG, now);
      plan.risk.reduceOnly && plan.risk.netExposure == 1 && plan.askUnits == 100
  {
    var snapshot := Snapshot(Open, Some(495.0), Some(505.0), None, Some(now), Some(now), Some(now), None,
                             Exposure(1, 0, 0, 0, None));
    hide PlannedUnits, ComputeFairValue, QuotePrices;
    var risk := BuildRiskState(snapshot, DEFAULT_CONFIG, now);
    assert SideImbalanceBps(1, 1) == 10_000;
    assert ComputeToxicityBps(Some(495.0), Some(505.0)) == 200;
    OneShareAskSize(risk);
  }

  lemma OneShareAskSize(risk: RiskState)
    requires risk.yesExposure == 1 && risk.noExposure == 0 && risk.grossExposure == 1 && risk.netExposure == 1
    requires risk.canAsk && risk.drawdownBps == 0 && risk.toxicityBps == 200
    ensures PlannedUnits(Ask, risk, DEFAULT_CONFIG) == 100
  {
    hide ClampQuoteUnits;
    assert BaseUnits(risk, DEFAULT_CONFIG) == 100;
    assert RequestedUnits(100, Lean(Ask, 1, 0)) == 100;
    ClampIsGreatestAdmissible(100, 25, [500_000, 250_001, 749_999]);
  }
}
