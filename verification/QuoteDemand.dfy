/**
 The size of each side in terms of the snapshot, configuration and time alone, as a threshold: exactly when a side
 is quoted with at least a given size.
 */
module QuoteDemand {
  import opened Numbers
  import opened Wrappers
  import opened MarketMaker
  import opened QuoteSizing
  import opened QuoteGate

  // ---------------------------------------------------------------------------------------------
  // The base size

  /** How much of the maximum quote a toxic book leaves, in basis points between none and all. */
  function ScaleBps(snapshot: Snapshot, config: Config): int {
    if !ToxicBy(snapshot.bestBid, snapshot.bestAsk, config.toxicityThresholdBps) then 10_000
    else Max(0, Min(10_000, config.toxicUnitReductionBps))
  }

  /** The unused part of a limit, as a share of the scaled maximum quote, rounds to at least k units. */
  predicate ShareSupports(maxUnits: int, scaleBps: int, used: int, limit: int, k: int) {
    2 * (maxUnits * scaleBps * (Max(1, limit) - used)) >= (2 * k - 1) * (Max(1, limit) * 10_000)
  }

  /** A quarter of the scaled maximum quote, which every drawdown leaves, rounds to at least k units. */
  predicate QuarterSupports(maxUnits: int, scaleBps: int, k: int) {
    maxUnits * scaleBps >= (2 * k - 1) * 20_000
  }

  /** A size of k is within the base size: it is at most the minimum, or at most the maximum and supported by the
      unused inventory of the fuller side, by the unused gross exposure, and by the drawdown left. */
  predicate BaseSupports(snapshot: Snapshot, config: Config, k: int) {
    var scaleBps := ScaleBps(snapshot, config);
    || k <= config.minQuoteUnits
    || (&& k <= config.maxQuoteUnits
        && ShareSupports(config.maxQuoteUnits, scaleBps, Max(Yes(snapshot), No(snapshot)), config.maxInventoryPerSide, k)
        && ShareSupports(config.maxQuoteUnits, scaleBps, Yes(snapshot) + No(snapshot), config.maxGrossExposure, k)
        && (QuarterSupports(config.maxQuoteUnits, scaleBps, k)
            || ShareSupports(config.maxQuoteUnits, scaleBps, Max(0, snapshot.exposure.drawdownBps.GetOr(0)),
                             config.maxDrawdownBps, k)))
  }

  function Scaled(maxUnits: int, share: real, scale: real): real { maxUnits as real * share * scale }

  lemma ScaledShare(maxUnits: int, scaleBps: int, used: int, limit: int, k: int)
    ensures Round(Scaled(maxUnits, HeadroomRatio(used, limit), scaleBps as real / 10_000.0)) >= k
      <==> ShareSupports(maxUnits, scaleBps, used, limit, k)
  {
    var whole := Max(1, limit);
    var share, scale := HeadroomRatio(used, limit), scaleBps as real / 10_000.0;
    ShareTimesLimit(used, whole);
    assert share * whole as real == (whole - used) as real;
    var x := Scaled(maxUnits, share, scale);
    hide HeadroomRatio;
    ScaledTimesWhole(maxUnits, share, scale, scaleBps, whole, whole - used);
    hide Scaled;
    RealReaches(x, (whole * 10_000) as real, k);
    assert (2 * k - 1) as real * (whole * 10_000) as real == ((2 * k - 1) * (whole * 10_000)) as real;
  }

  lemma ShareTimesLimit(used: int, whole: int)
    requires whole >= 1
    ensures (1.0 - used as real / whole as real) * whole as real == (whole - used) as real
  {
    var ratio := used as real / whole as real;
    assert ratio * whole as real == used as real;
    assert (1.0 - ratio) * whole as real == whole as real - ratio * whole as real;
  }

  lemma ScaledTimesWhole(maxUnits: int, share: real, scale: real, scaleBps: int, whole: int, left: int)
    requires share * whole as real == left as real && scale == scaleBps as real / 10_000.0
    ensures Scaled(maxUnits, share, scale) * (whole * 10_000) as real == (maxUnits * scaleBps * left) as real
  {
    var m, w := maxUnits as real, whole as real;
    assert scale * 10_000.0 == scaleBps as real;
    assert (whole * 10_000) as real == w * 10_000.0;
    Regroup(m, share, scale, w);
    assert (m * (scale * 10_000.0)) * (share * w) == (maxUnits * scaleBps) as real * left as real;
    assert (maxUnits * scaleBps * left) as real == (maxUnits * scaleBps) as real * left as real;
  }

  lemma Regroup(m: real, share: real, scale: real, w: real)
    ensures (m * share * scale) * (w * 10_000.0) == (m * (scale * 10_000.0)) * (share * w)
  {
    var a := m * share;
    assert (a * scale) * (w * 10_000.0) == (a * w) * (scale * 10_000.0);
    assert a * w == m * (share * w);
  }

  lemma ScaledQuarter(maxUnits: int, scaleBps: int, k: int)
    ensures Round(Scaled(maxUnits, 0.25, scaleBps as real / 10_000.0)) >= k <==> QuarterSupports(maxUnits, scaleBps, k)
  {
    var scale := scaleBps as real / 10_000.0;
    var x := Scaled(maxUnits, 0.25, scale);
    assert scale * 10_000.0 == scaleBps as real;
    assert x == 0.25 * (maxUnits as real * scale);
    assert (maxUnits as real * scale) * 10_000.0 == maxUnits as real * scaleBps as real;
    assert (maxUnits * scaleBps) as real == maxUnits as real * scaleBps as real;
    hide Scaled;
    assert x * 40_000.0 == (maxUnits * scaleBps) as real;
    assert Round(x) >= k <==> 2.0 * x >= (2 * k - 1) as real;
  }

  /** Rounding the least of three scaled shares reaches k when rounding each of them does. */
  lemma ScaledLeast(maxUnits: int, scale: real, a: real, b: real, c: real, k: int)
    requires 0 <= maxUnits && 0.0 <= scale
    ensures Round(Scaled(maxUnits, RealMin(a, RealMin(b, c)), scale)) >= k <==>
      && Round(Scaled(maxUnits, a, scale)) >= k && Round(Scaled(maxUnits, b, scale)) >= k
      && Round(Scaled(maxUnits, c, scale)) >= k
  {
    var least := RealMin(a, RealMin(b, c));
    ScaledMonotone(maxUnits, scale, least, a);
    ScaledMonotone(maxUnits, scale, least, b);
    ScaledMonotone(maxUnits, scale, least, c);
    hide Scaled, Round;
  }

  lemma ScaledMonotone(maxUnits: int, scale: real, low: real, high: real)
    requires 0 <= maxUnits && 0.0 <= scale && low <= high
    ensures Round(Scaled(maxUnits, low, scale)) <= Round(Scaled(maxUnits, high, scale))
  {
    MulMonotone(low, high, maxUnits as real);
    MulMonotone(maxUnits as real * low, maxUnits as real * high, scale);
    RoundMonotone(Scaled(maxUnits, low, scale), Scaled(maxUnits, high, scale));
  }

  /** A share cut off at some floor reaches k when the share or the floor does. */
  lemma ScaledFloor(maxUnits: int, scale: real, floor: real, share: real, k: int)
    requires 0 <= maxUnits && 0.0 <= scale
    ensures Round(Scaled(maxUnits, RealMax(floor, share), scale)) >= k <==>
      Round(Scaled(maxUnits, floor, scale)) >= k || Round(Scaled(maxUnits, share, scale)) >= k
  {
    ScaledMonotone(maxUnits, scale, floor, RealMax(floor, share));
    ScaledMonotone(maxUnits, scale, share, RealMax(floor, share));
    hide Scaled, Round;
  }

  lemma ScaledNothing(maxUnits: int, scale: real, k: int)
    requires k >= 1
    ensures Round(Scaled(maxUnits, 0.0, scale)) < k
  {
    assert Scaled(maxUnits, 0.0, scale) == 0.0;
  }

  lemma ScaleReads(snapshot: Snapshot, config: Config, risk: RiskState)
    requires risk.toxicityBps == ComputeToxicityBps(snapshot.bestBid, snapshot.bestAsk)
    ensures ToxicUnitScale(risk, config) == ScaleBps(snapshot, config) as real / 10_000.0
    ensures 0 <= ScaleBps(snapshot, config)
  {
    ToxicityReads(snapshot.bestBid, snapshot.bestAsk, config.toxicityThresholdBps);
    hide ToxicBy, ComputeToxicityBps;
    if IsToxic(risk, config) {
      RatioOrder(config.toxicUnitReductionBps);
    }
  }

  lemma RatioOrder(bps: int)
    ensures bps <= 10_000 <==> bps as real / 10_000.0 <= 1.0
    ensures bps >= 0 <==> bps as real / 10_000.0 >= 0.0
  {
    var x := bps as real / 10_000.0;
    assert x * 10_000.0 == bps as real;
  }

  lemma ScaledReachesExactly(snapshot: Snapshot, config: Config, risk: RiskState, k: int)
    requires 0 <= config.maxQuoteUnits && 1 <= k
    requires risk.toxicityBps == ComputeToxicityBps(snapshot.bestBid, snapshot.bestAsk)
    ensures
      var maxUnits, scaleBps := config.maxQuoteUnits, ScaleBps(snapshot, config);
      Round(ScaledUnits(risk, config)) >= k <==>
        && ShareSupports(maxUnits, scaleBps, Max(risk.yesExposure, risk.noExposure), config.maxInventoryPerSide, k)
        && ShareSupports(maxUnits, scaleBps, risk.grossExposure, config.maxGrossExposure, k)
        && (QuarterSupports(maxUnits, scaleBps, k)
            || ShareSupports(maxUnits, scaleBps, risk.drawdownBps, config.maxDrawdownBps, k))
  {
    var maxUnits, scaleBps, scale := config.maxQuoteUnits, ScaleBps(snapshot, config), ToxicUnitScale(risk, config);
    ScaleReads(snapshot, config, risk);
    hide ScaleBps, ToxicUnitScale, HeadroomRatio, ShareSupports, QuarterSupports, Scaled, Round, ComputeToxicityBps;
    var side := HeadroomRatio(Max(risk.yesExposure, risk.noExposure), config.maxInventoryPerSide);
    var gross := HeadroomRatio(risk.grossExposure, config.maxGrossExposure);
    var drawdown := HeadroomRatio(risk.drawdownBps, config.maxDrawdownBps);
    RatioOrder(scaleBps);
    ScaledUnitsUnfold(risk, config);
    ScaledLeast(maxUnits, scale, RealMax(0.0, side), RealMax(0.0, gross), RealMax(0.25, drawdown), k);
    ScaledFloor(maxUnits, scale, 0.0, side, k);
    ScaledFloor(maxUnits, scale, 0.0, gross, k);
    ScaledFloor(maxUnits, scale, 0.25, drawdown, k);
    ScaledNothing(maxUnits, scale, k);
    ScaledShare(maxUnits, scaleBps, Max(risk.yesExposure, risk.noExposure), config.maxInventoryPerSide, k);
    ScaledShare(maxUnits, scaleBps, risk.grossExposure, config.maxGrossExposure, k);
    ScaledShare(maxUnits, scaleBps, risk.drawdownBps, config.maxDrawdownBps, k);
    ScaledQuarter(maxUnits, scaleBps, k);
  }

  lemma ScaledUnitsUnfold(risk: RiskState, config: Config)
    ensures ScaledUnits(risk, config) == Scaled(
      config.maxQuoteUnits,
      RealMin(RealMax(0.0, HeadroomRatio(Max(risk.yesExposure, risk.noExposure), config.maxInventoryPerSide)),
              RealMin(RealMax(0.0, HeadroomRatio(risk.grossExposure, config.maxGrossExposure)),
                      RealMax(0.25, HeadroomRatio(risk.drawdownBps, config.maxDrawdownBps)))),
      ToxicUnitScale(risk, config))
  {
    hide HeadroomRatio, ToxicUnitScale;
  }

  /** The base size of a plan reaches k exactly when its headrooms support k. */
  lemma BaseReachesExactly(snapshot: Snapshot, config: Config, now: int, k: int)
    requires SoundUnits(config)
    ensures BaseUnits(BuildRiskState(snapshot, config, now), config) >= k <==> BaseSupports(snapshot, config, k)
  {
    var risk := BuildRiskState(snapshot, config, now);
    if k > config.minQuoteUnits {
      ScaledReachesExactly(snapshot, config, risk, k);
    }
    hide ScaledUnits, ScaleBps, ShareSupports, QuarterSupports, Round, Breaker, SideImbalanceBps, ComputeToxicityBps;
  }

  // ---------------------------------------------------------------------------------------------
  // The side's size

  /** Exposure of the side that a quote would add to, and of the other one. */
  function Added(snapshot: Snapshot, side: Side): int { if side == Bid then Yes(snapshot) else No(snapshot) }

  function Opposed(snapshot: Snapshot, side: Side): int { if side == Bid then No(snapshot) else Yes(snapshot) }

  /** A base size, cut back by the share that the side is heavier, but to no less than a quarter, rounds to at
      least k. */
  predicate LeanSupports(snapshot: Snapshot, side: Side, base: int, k: int) {
    var gross, heavier := Max(1, Yes(snapshot) + No(snapshot)), Max(0, Added(snapshot, side) - Opposed(snapshot, side));
    || base >= 2 * (2 * k - 1)
    || 2 * (base * (gross - heavier)) >= (2 * k - 1) * gross
  }

  function Portion(base: int, factor: real): real { base as real * factor }

  function Unleaned(heavier: int, gross: int): real
    requires gross >= 1
  {
    1.0 - heavier as real / gross as real
  }

  lemma LeanReaches(snapshot: Snapshot, side: Side, base: int, k: int)
    requires 0 <= base && 1 <= k
    ensures RequestedUnits(base, Lean(side, Yes(snapshot), No(snapshot))) >= k <==> LeanSupports(snapshot, side, base, k)
  {
    hide Lean, RequestedUnits, Round, Portion, Unleaned;
    var gross := Max(1, Yes(snapshot) + No(snapshot));
    var heavier := Max(0, Added(snapshot, side) - Opposed(snapshot, side));
    LeanIsShare(snapshot, side);
    RequestUnfolds(base, Lean(side, Yes(snapshot), No(snapshot)));
    RequestReaches(base, RealMax(0.25, Unleaned(heavier, gross)), Unleaned(heavier, gross), k);
    QuarterReaches(base, k);
    UnleanedReaches(base, gross, heavier, k);
  }

  lemma RequestUnfolds(base: int, lean: real)
    ensures RequestedUnits(base, lean) == Round(Portion(base, RealMax(0.25, 1.0 - RealMax(0.0, lean))))
  {
  }

  lemma LeanIsShare(snapshot: Snapshot, side: Side)
    ensures
      var gross := Max(1, Yes(snapshot) + No(snapshot));
      var heavier := Max(0, Added(snapshot, side) - Opposed(snapshot, side));
      RealMax(0.25, 1.0 - RealMax(0.0, Lean(side, Yes(snapshot), No(snapshot))))
        == RealMax(0.25, Unleaned(heavier, gross))
  {
    var gross := Max(1, Yes(snapshot) + No(snapshot));
    var net := Added(snapshot, side) - Opposed(snapshot, side);
    NegatedQuotient(Yes(snapshot) - No(snapshot), gross);
    assert (No(snapshot) - Yes(snapshot)) as real == -((Yes(snapshot) - No(snapshot)) as real);
    QuotientSign(net, gross);
  }

  lemma QuotientSign(net: int, gross: int)
    requires gross >= 1
    ensures net >= 0 ==> net as real / gross as real >= 0.0
    ensures net <= 0 ==> net as real / gross as real <= 0.0
  {
    var x := net as real / gross as real;
    assert x * gross as real == net as real;
    if net >= 0 {
      DivMonotone(0.0, net as real, gross as real);
    } else {
      DivMonotone(net as real, 0.0, gross as real);
    }
  }

  lemma RequestReaches(base: int, factor: real, rest: real, k: int)
    requires 0 <= base && factor == RealMax(0.25, rest)
    ensures Round(Portion(base, factor)) >= k <==> Round(Portion(base, 0.25)) >= k || Round(Portion(base, rest)) >= k
  {
    MulMonotone(0.25, factor, base as real);
    MulMonotone(rest, factor, base as real);
    RoundMonotone(Portion(base, 0.25), Portion(base, factor));
    RoundMonotone(Portion(base, rest), Portion(base, factor));
    hide Round, Portion;
  }

  lemma QuarterReaches(base: int, k: int)
    ensures Round(Portion(base, 0.25)) >= k <==> base >= 2 * (2 * k - 1)
  {
    assert 4.0 * Portion(base, 0.25) == base as real;
  }

  lemma UnleanedReaches(base: int, gross: int, heavier: int, k: int)
    requires 1 <= gross
    ensures Round(Portion(base, Unleaned(heavier, gross))) >= k <==> 2 * (base * (gross - heavier)) >= (2 * k - 1) * gross
  {
    var x := Portion(base, Unleaned(heavier, gross));
    PortionTimesGross(base, gross, heavier);
    hide Portion, Unleaned;
    RealReaches(x, gross as real, k);
    hide Round;
    assert (2 * k - 1) as real * gross as real == ((2 * k - 1) * gross) as real;
  }

  lemma PortionTimesGross(base: int, gross: int, heavier: int)
    requires 1 <= gross
    ensures Portion(base, Unleaned(heavier, gross)) * gross as real == (base * (gross - heavier)) as real
  {
    ShareTimesLimit(heavier, gross);
    var share := Unleaned(heavier, gross);
    hide Unleaned;
    assert (base as real * share) * gross as real == base as real * (share * gross as real);
    assert base as real * (gross - heavier) as real == (base * (gross - heavier)) as real;
  }

  /** The side is permitted, and a quote of k units stays within its inventory, net and gross limits. */
  predicate Admits(snapshot: Snapshot, config: Config, now: int, side: Side, k: int) {
    var added, opposed := Added(snapshot, side), Opposed(snapshot, side);
    && FitToQuote(snapshot, config, now)
    && !(added > opposed && LopsidedBy(snapshot, config.maxSideImbalanceBps))
    && added + k <= config.maxInventoryPerSide
    && added - opposed + k <= config.maxNetExposure
    && added + opposed + k <= config.maxGrossExposure
  }

  lemma PlannedReaches(side: Side, risk: RiskState, config: Config, k: int)
    requires SoundUnits(config) && config.minQuoteUnits <= k
    ensures PlannedUnits(side, risk, config) >= k <==>
      && (if side.Bid? then risk.canBid else risk.canAsk)
      && k <= RequestedUnits(BaseUnits(risk, config), Lean(side, risk.yesExposure, risk.noExposure))
      && k <= config.maxInventoryPerSide - (if side.Bid? then risk.yesExposure else risk.noExposure)
      && k <= config.maxNetExposure - (if side.Bid? then risk.netExposure else -risk.netExposure)
      && k <= config.maxGrossExposure - risk.grossExposure
  {
    var exposure := if side.Bid? then risk.yesExposure else risk.noExposure;
    var net := if side.Bid? then risk.netExposure else -risk.netExposure;
    var limits := [ Max(0, config.maxInventoryPerSide - exposure),
                    Max(0, config.maxNetExposure - net),
                    Max(0, config.maxGrossExposure - risk.grossExposure) ];
    var requested := RequestedUnits(BaseUnits(risk, config), Lean(side, risk.yesExposure, risk.noExposure));
    hide RequestedUnits, BaseUnits, Lean, ClampQuoteUnits;
    ClampReachesExactly(requested, config.minQuoteUnits, limits, k);
    assert forall l :: l in limits ==> l == limits[0] || l == limits[1] || l == limits[2];
    assert limits[0] in limits && limits[1] in limits && limits[2] in limits;
  }

  /** A side of a plan is quoted with at least k units, k being no less than the minimum quote, exactly when the
      limits admit k more units there and some base size that the headrooms support, leaned back, reaches k. */
  lemma SizeReachesExactly(snapshot: Snapshot, signal: Signal, config: Config, now: int, side: Side, k: int)
    requires SoundUnits(config) && config.minQuoteUnits <= k
    ensures TargetUnits(side, BuildQuotePlan(snapshot, signal, config, now)) >= k <==>
      && Admits(snapshot, config, now, side, k)
      && exists base :: 0 <= base && BaseSupports(snapshot, config, base) && LeanSupports(snapshot, side, base, k)
  {
    var risk := BuildRiskState(snapshot, config, now);
    hide BaseSupports, LeanSupports, FitToQuote, LopsidedBy;
    PlanHoldsUnits(snapshot, signal, config, now, side);
    PermissionsExactly(snapshot, signal, config, now);
    PlanHoldsRisk(snapshot, signal, config, now);
    hide BuildQuotePlan, BuildRiskState, PlannedUnits;
    PlannedReaches(side, risk, config, k);
    RequestSupported(snapshot, config, now, side, k);
    hide RequestedUnits, BaseUnits, Lean;
  }

  lemma PlanHoldsRisk(snapshot: Snapshot, signal: Signal, config: Config, now: int)
    ensures BuildQuotePlan(snapshot, signal, config, now).risk == BuildRiskState(snapshot, config, now)
  {
    hide BuildRiskState, ComputeFairValue, PlannedUnits, QuotePrices;
  }

  lemma PlanHoldsUnits(snapshot: Snapshot, signal: Signal, config: Config, now: int, side: Side)
    requires SoundUnits(config)
    ensures TargetUnits(side, BuildQuotePlan(snapshot, signal, config, now))
         == PlannedUnits(side, BuildRiskState(snapshot, config, now), config)
  {
    var risk := BuildRiskState(snapshot, config, now);
    assert risk.breaker.Some? ==> !risk.canBid && !risk.canAsk;
    hide BuildRiskState, ComputeFairValue, QuotePrices, ClampQuoteUnits, RequestedUnits, BaseUnits, Lean;
  }

  lemma RequestSupported(snapshot: Snapshot, config: Config, now: int, side: Side, k: int)
    requires SoundUnits(config) && 1 <= k
    ensures
      var risk := BuildRiskState(snapshot, config, now);
      RequestedUnits(BaseUnits(risk, config), Lean(side, Yes(snapshot), No(snapshot))) >= k <==>
        exists base :: 0 <= base && BaseSupports(snapshot, config, base) && LeanSupports(snapshot, side, base, k)
  {
    var base := BaseUnits(BuildRiskState(snapshot, config, now), config);
    assert base >= config.minQuoteUnits;
    hide BaseUnits, BuildRiskState, BaseSupports, RequestedUnits, Lean;
    BaseReachesExactly(snapshot, config, now, base);
    LeanReaches(snapshot, side, base, k);
    forall other | 0 <= other && BaseSupports(snapshot, config, other) && LeanSupports(snapshot, side, other, k)
      ensures LeanSupports(snapshot, side, base, k)
    {
      BaseReachesExactly(snapshot, config, now, other);
      LeanGrows(snapshot, side, other, base, k);
    }
    hide LeanSupports;
  }

  lemma LeanGrows(snapshot: Snapshot, side: Side, low: int, high: int, k: int)
    requires 0 <= low <= high && 1 <= k && LeanSupports(snapshot, side, low, k)
    ensures LeanSupports(snapshot, side, high, k)
  {
    var gross, heavier := Max(1, Yes(snapshot) + No(snapshot)), Max(0, Added(snapshot, side) - Opposed(snapshot, side));
    if gross - heavier >= 0 {
      ProductGrows(low, high, gross - heavier);
    } else {
      ProductGrows(gross - heavier, 0, low);
      assert (2 * k - 1) * gross >= gross;
    }
  }

  lemma ProductGrows(low: int, high: int, factor: int)
    requires low <= high && 0 <= factor
    ensures low * factor <= high * factor
  {
  }
}
