/**
 How fast one side can be re-quoted. The refresh interval is measured on the age of the OLDEST live quote, so
 it bounds a side's churn as long as that side's quote is the oldest when plans are made; otherwise an older
 quote on the other side opens the refresh window early.
 */
module QuoteChurn {
  import opened Numbers
  import opened Wrappers
  import opened MarketMaker
  import opened QuotePricing
  import opened QuoteRuns
  import opened QuoteSizing

  function RefreshInterval(config: Config): int { Min(config.minRefreshIntervalMs, config.maxQuoteAgeMs) }

  predicate InTime(desk: Desk, event: Event) {
    (event.Plan? || event.Act?) ==> desk.clock <= event.now
  }

  /** The side's quote, if live, is no younger than the other side's. */
  predicate Oldest(desk: Desk, side: Side) {
    QuoteOf(desk, side).Some? && QuoteOf(desk, Other(side)).Some? ==>
      QuoteOf(desk, side).value.placedAtMs <= QuoteOf(desk, Other(side)).value.placedAtMs
  }

  /** Time never runs backwards, and every plan is made while the side's quote is the oldest one. */
  predicate Paced(config: Config, start: Desk, events: seq<Event>, side: Side) {
    events == [] ||
      var before := Run(config, start, events[..|events| - 1]);
      var event := events[|events| - 1];
      && Paced(config, start, events[..|events| - 1], side)
      && InTime(before, event)
      && (event.Plan? ==> Oldest(before, side))
  }

  predicate Places(config: Config, desk: Desk, event: Event, side: Side) {
    event.Act? && event.side == side && event.placementLands && Due(desk, side) &&
    Decide(config, desk, side, event.now).shouldPlace
  }

  function NextStreak(config: Config, desk: Desk, event: Event, streak: seq<int>, side: Side): seq<int> {
    if QuoteOf(Step(config, desk, event), side).None? then []
    else if Places(config, desk, event, side) then streak + [event.now]
    else streak
  }

  /** Placement times of the side since it was last empty. */
  function Streak(config: Config, start: Desk, events: seq<Event>, side: Side): seq<int> {
    if events == [] then
      if QuoteOf(start, side).Some? then [QuoteOf(start, side).value.placedAtMs] else []
    else
      NextStreak(config, Run(config, start, events[..|events| - 1]), events[|events| - 1],
                 Streak(config, start, events[..|events| - 1], side), side)
  }

  predicate Spaced(times: seq<int>, interval: int) {
    forall i :: 0 < i < |times| ==> times[i] - times[i - 1] >= interval
  }

  /** The streak ends with the live quote, and a plan that opens the refresh window for a side still to act
      was made when that side's quote had served its interval. */
  predicate ChurnInvariant(config: Config, desk: Desk, streak: seq<int>, side: Side) {
    && (QuoteOf(desk, side).None? <==> streak == [])
    && (streak != [] ==>
          && QuoteOf(desk, side).value.placedAtMs == streak[|streak| - 1] <= desk.clock
          && (Due(desk, side) && desk.pending.value.plan.replaceQuotes && SideOpen(desk.pending.value.plan, side) ==>
                config.minRefreshIntervalMs <= desk.clock - streak[|streak| - 1]))
    && (desk.pending.Some? && TargetPrice(side, desk.pending.value.plan).Some? ==>
          SideOpen(desk.pending.value.plan, side))
    && Spaced(streak, RefreshInterval(config))
  }

  lemma PlanKeepsChurnInvariant(config: Config, desk: Desk, feed: Feed, now: int, streak: seq<int>, side: Side)
    requires SoundUnits(config) && ChurnInvariant(config, desk, streak, side)
    requires desk.clock <= now && Oldest(desk, side)
    ensures ChurnInvariant(config, Step(config, desk, Plan(feed, now)), streak, side)
  {
    PlannedSideIsOpen(config, desk, feed, now, side);
    PlanWindow(config, desk, feed, now);
  }

  /** With the breaker off, the refresh window opens when there is no quote or the oldest one has served. */
  lemma PlanWindow(config: Config, desk: Desk, feed: Feed, now: int)
    ensures var plan := PlanFor(config, desk, feed, now);
      plan.risk.breaker.None? ==>
        (plan.replaceQuotes <==>
           OldestQuoteAge(desk, now).None? || OldestQuoteAge(desk, now).value >= config.minRefreshIntervalMs)
  {
  }

  lemma ActKeepsChurnInvariant(config: Config, desk: Desk, event: Event, streak: seq<int>, side: Side)
    requires ChurnInvariant(config, desk, streak, side)
    requires event.Act? && InTime(desk, event)
    ensures ChurnInvariant(config, Step(config, desk, event), NextStreak(config, desk, event, streak, side), side)
  {
    if Due(desk, event.side) {
      var plan := desk.pending.value.plan;
      CarryOutcomes(config, plan, event.side, QuoteOf(desk, event.side), event.placementLands, event.now);
    }
  }

  lemma StepKeepsChurnInvariant(config: Config, desk: Desk, event: Event, streak: seq<int>, side: Side)
    requires SoundUnits(config) && ChurnInvariant(config, desk, streak, side)
    requires InTime(desk, event) && (event.Plan? ==> Oldest(desk, side))
    ensures ChurnInvariant(config, Step(config, desk, event), NextStreak(config, desk, event, streak, side), side)
  {
    hide PlanFor, RefreshInterval;
    match event
    case Plan(feed, now) => PlanKeepsChurnInvariant(config, desk, feed, now, streak, side);
    case Act(_, _, _) => ActKeepsChurnInvariant(config, desk, event, streak, side);
    case _ =>
  }

  lemma StartOfStreak(config: Config, start: Desk, side: Side)
    requires start.pending.None?
    requires QuoteOf(start, side).Some? ==> QuoteOf(start, side).value.placedAtMs <= start.clock
    ensures ChurnInvariant(config, start, Streak(config, start, [], side), side)
  {
  }

  lemma {:induction false} ChurnInvariantHolds(config: Config, start: Desk, events: seq<Event>, side: Side)
    requires SoundUnits(config) && start.pending.None?
    requires QuoteOf(start, side).Some? ==> QuoteOf(start, side).value.placedAtMs <= start.clock
    requires Paced(config, start, events, side)
    ensures ChurnInvariant(config, Run(config, start, events), Streak(config, start, events, side), side)
  {
    hide Step, ChurnInvariant, Decide, Oldest, RefreshInterval;
    if events == [] {
      StartOfStreak(config, start, side);
    } else {
      var earlier, event := events[..|events| - 1], events[|events| - 1];
      var before, streak := Run(config, start, earlier), Streak(config, start, earlier, side);
      ChurnInvariantHolds(config, start, earlier, side);
      StepKeepsChurnInvariant(config, before, event, streak, side);
    }
  }

  lemma {:induction false} SpacedSpan(times: seq<int>, interval: int)
    requires times != [] && Spaced(times, interval)
    ensures times[|times| - 1] - times[0] >= (|times| - 1) * interval
  {
    if |times| > 1 {
      SpacedSpan(times[..|times| - 1], interval);
    }
  }

  /** Churn bound: k placements of a side that stays quoted and stays the oldest span at least k - 1 intervals,
      the interval being the shorter of the refresh interval and the maximum quote age. */
  lemma ChurnBound(config: Config, start: Desk, events: seq<Event>, side: Side)
    requires SoundUnits(config) && start.pending.None?
    requires QuoteOf(start, side).Some? ==> QuoteOf(start, side).value.placedAtMs <= start.clock
    requires Paced(config, start, events, side)
    ensures var streak := Streak(config, start, events, side);
      && Spaced(streak, RefreshInterval(config))
      && (streak != [] ==>
            streak[|streak| - 1] - streak[0] >= (|streak| - 1) * RefreshInterval(config))
  {
    ChurnInvariantHolds(config, start, events, side);
    var streak := Streak(config, start, events, side);
    if streak != [] {
      SpacedSpan(streak, RefreshInterval(config));
    }
  }

  /** What happens without the pacing condition, decided for every desk: a quote younger than the interval is
      re-placed exactly when the plan moves it and the OTHER side's quote has served the refresh interval. */
  lemma EarlyRefreshExactly(config: Config, desk: Desk, feed: Feed, now: int, side: Side)
    requires SoundUnits(config) && QuoteOf(desk, side).Some?
    requires 0 <= now - QuoteOf(desk, side).value.placedAtMs < RefreshInterval(config)
    ensures
      var plan := PlanFor(config, desk, feed, now);
      var quote := QuoteOf(desk, side).value;
      var other := QuoteOf(desk, Other(side));
      EvaluateQuoteDecision(side, plan, Some(quote), config, now).shouldPlace <==>
        && TargetPrice(side, plan).Some?
        && (quote.price != TargetPrice(side, plan).value || quote.units != TargetUnits(side, plan))
        && other.Some? && now - other.value.placedAtMs >= config.minRefreshIntervalMs
  {
    PlannedSideIsOpen(config, desk, feed, now, side);
    PlanWindow(config, desk, feed, now);
  }

  /** Such a run: at the default configuration a bid placed at 900 is placed again at 1000, because the ask has
      rested since 0. */
  lemma OlderAskShortensTheStreak()
    ensures
      var start := Desk(0, 0, Some(ManagedQuote(600, 100, 900)), Some(ManagedQuote(700, 100, 0)), None, 900);
      var feed := Feed(Open, Some(495.0), Some(505.0), None, Some(1000), Some(1000), Some(1000), None, Signal(None, None));
      var streak := Streak(DEFAULT_CONFIG, start, Tick(feed, 1000, 1000, 1000), Bid);
      streak == [900, 1000] && !Spaced(streak, RefreshInterval(DEFAULT_CONFIG))
  {
    var start := Desk(0, 0, Some(ManagedQuote(600, 100, 900)), Some(ManagedQuote(700, 100, 0)), None, 900);
    var feed := Feed(Open, Some(495.0), Some(505.0), None, Some(1000), Some(1000), Some(1000), None, Signal(None, None));
    hide PlanFor, EvaluateQuoteDecision, Streak, Run, Tick;
    BidMovesBelowTheOldOne(start, feed);
    EarlyRefreshExactly(DEFAULT_CONFIG, start, feed, 1000, Bid);
    StreakOfTick(start, feed);
    var streak := [900, 1000];
    assert streak[1] - streak[0] < RefreshInterval(DEFAULT_CONFIG);
  }

  lemma BidMovesBelowTheOldOne(start: Desk, feed: Feed)
    requires start == Desk(0, 0, Some(ManagedQuote(600, 100, 900)), Some(ManagedQuote(700, 100, 0)), None, 900)
    requires feed == Feed(Open, Some(495.0), Some(505.0), None, Some(1000), Some(1000), Some(1000), None, Signal(None, None))
    ensures
      var plan := PlanFor(DEFAULT_CONFIG, start, feed, 1000);
      plan.bidUnits > 0 && plan.bidPrice.Some? && plan.bidPrice.value <= 500
  {
    var snapshot := Observe(start, feed, 1000);
    hide PlannedUnits, QuotePrices, ComputeFairValue, BuildRiskState, PlanInput;
    QuietRisk(snapshot);
    BalancedHundreds(BuildRiskState(snapshot, DEFAULT_CONFIG, 1000));
    MidIsFairValue(snapshot, feed.signal);
    QuotesNeverCross(snapshot, feed.signal, DEFAULT_CONFIG, 1000);
  }

  lemma QuietRisk(snapshot: Snapshot)
    requires snapshot.lifecycleStatus.Open? && snapshot.betCloseTimeMs.None?
    requires snapshot.lastStreamAtMs == snapshot.lastOracleAtMs == snapshot.lastRpcAtMs == Some(1000)
    requires snapshot.exposure == Exposure(0, 0, 100, 100, None)
    ensures
      var risk := BuildRiskState(snapshot, DEFAULT_CONFIG, 1000);
      && risk.breaker.None? && risk.canBid
      && risk.yesExposure == risk.noExposure == 100 && risk.grossExposure == 200 && risk.netExposure == 0
  {
    hide ComputeToxicityBps;
  }

  lemma MidIsFairValue(snapshot: Snapshot, signal: Signal)
    requires snapshot.bestBid == Some(495.0) && snapshot.bestAsk == Some(505.0) && signal == Signal(None, None)
    requires snapshot.exposure == Exposure(0, 0, 100, 100, None)
    ensures ComputeFairValue(PlanInput(snapshot, signal, DEFAULT_CONFIG)) == 500
  {
    var input := PlanInput(snapshot, signal, DEFAULT_CONFIG);
    assert input.inventorySkew == Some(0.0);
    assert UnshiftedFairValue(input) == 500.0;
    assert ShiftedFairValue(500.0, 750, 0.0) == 500.0;
  }

  lemma BalancedHundreds(risk: RiskState)
    requires risk.yesExposure == risk.noExposure == 100 && risk.grossExposure == 200 && risk.netExposure == 0
    requires risk.canBid
    ensures PlannedUnits(Bid, risk, DEFAULT_CONFIG) > 0
  {
    hide ClampQuoteUnits;
    var base := BaseUnits(risk, DEFAULT_CONFIG);
    assert 25 <= base <= 100;
    assert Lean(Bid, 100, 100) == 0.0;
    assert RequestedUnits(base, 0.0) == base;
    ClampIsGreatestAdmissible(base, 25, [499_900, 250_000, 749_800]);
  }

  lemma StreakOfTick(start: Desk, feed: Feed)
    requires start.bid.Some? && start.bid.value.placedAtMs == 900
    requires
      var plan := PlanFor(DEFAULT_CONFIG, start, feed, 1000);
      EvaluateQuoteDecision(Bid, plan, start.bid, DEFAULT_CONFIG, 1000).shouldPlace &&
      plan.bidPrice.Some? && plan.bidUnits > 0
    ensures Streak(DEFAULT_CONFIG, start, Tick(feed, 1000, 1000, 1000), Bid) == [900, 1000]
  {
    var events := Tick(feed, 1000, 1000, 1000);
    hide PlanFor;
    RunOfTick(DEFAULT_CONFIG, start, feed, 1000, 1000, 1000);
    assert events[..1][..0] == [] && events[..2][..1] == events[..1];
    assert Streak(DEFAULT_CONFIG, start, events[..1], Bid) == [900];
    hide Run;
    assert Streak(DEFAULT_CONFIG, start, events[..2], Bid) == [900, 1000];
  }
}
