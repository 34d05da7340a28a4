/**
 The market maker over time. A desk holds a position, at most one quote per side, and the plan it is working
 through. Planning, acting on one side, fills, outside cancels and failed placements interleave freely: fills
 and cancels may fall between the moment a plan is made and the moment a side acts on it.
 */
module QuoteRuns {
  import opened Numbers
  import opened Wrappers
  import opened MarketMaker
  import opened QuoteGate
  import opened QuoteSizing

  datatype WorkingPlan = WorkingPlan(plan: QuotePlan, bidDue: bool, askDue: bool)

  datatype Desk = Desk(
    yes: int,
    no: int,
    bid: Option<ManagedQuote>,
    ask: Option<ManagedQuote>,
    pending: Option<WorkingPlan>,
    clock: int)

  /** What the outside world contributes to a snapshot. */
  datatype Feed = Feed(
    lifecycleStatus: LifecycleStatus,
    bestBid: Option<real>,
    bestAsk: Option<real>,
    betCloseTimeMs: Option<int>,
    lastStreamAtMs: Option<int>,
    lastOracleAtMs: Option<int>,
    lastRpcAtMs: Option<int>,
    drawdownBps: Option<int>,
    signal: Signal)

  datatype Event =
    | Plan(feed: Feed, now: int)
    | Act(side: Side, placementLands: bool, now: int)
    | Fill(side: Side, units: int)
    | Cancel(side: Side)
    | Abandon

  function Other(side: Side): Side { if side.Bid? then Ask else Bid }

  function QuoteOf(desk: Desk, side: Side): Option<ManagedQuote> { if side.Bid? then desk.bid else desk.ask }

  function WithQuote(desk: Desk, side: Side, quote: Option<ManagedQuote>): Desk {
    if side.Bid? then desk.(bid := quote) else desk.(ask := quote)
  }

  function OpenUnits(desk: Desk, side: Side): int {
    if QuoteOf(desk, side).Some? then QuoteOf(desk, side).value.units else 0
  }

  function Held(desk: Desk, side: Side): int { if side.Bid? then desk.yes else desk.no }

  /** Shares held on a side plus shares still quoted there. */
  function SideExposure(desk: Desk, side: Side): int { Held(desk, side) + OpenUnits(desk, side) }

  function GrossExposure(desk: Desk): int { SideExposure(desk, Bid) + SideExposure(desk, Ask) }

  /** Age of the oldest live quote, as the keepers report it. */
  function OldestQuoteAge(desk: Desk, now: int): Option<int> {
    match (desk.bid, desk.ask)
    case (Some(bid), Some(ask)) => Some(now - Min(bid.placedAtMs, ask.placedAtMs))
    case (Some(bid), None) => Some(now - bid.placedAtMs)
    case (None, Some(ask)) => Some(now - ask.placedAtMs)
    case (None, None) => None
  }

  function Observe(desk: Desk, feed: Feed, now: int): Snapshot {
    Snapshot(
      feed.lifecycleStatus, feed.bestBid, feed.bestAsk, feed.betCloseTimeMs,
      feed.lastStreamAtMs, feed.lastOracleAtMs, feed.lastRpcAtMs, OldestQuoteAge(desk, now),
      Exposure(desk.yes, desk.no, OpenUnits(desk, Bid), OpenUnits(desk, Ask), feed.drawdownBps))
  }

  function PlanFor(config: Config, desk: Desk, feed: Feed, now: int): QuotePlan {
    BuildQuotePlan(Observe(desk, feed, now), feed.signal, config, now)
  }

  predicate Due(desk: Desk, side: Side) {
    desk.pending.Some? && (if side.Bid? then desk.pending.value.bidDue else desk.pending.value.askDue)
  }

  function Done(desk: Desk, side: Side): Desk
    requires desk.pending.Some?
  {
    desk.(pending := Some(
      if side.Bid? then desk.pending.value.(bidDue := false) else desk.pending.value.(askDue := false)))
  }

  function Decide(config: Config, desk: Desk, side: Side, now: int): QuoteDecision
    requires desk.pending.Some?
  {
    EvaluateQuoteDecision(side, desk.pending.value.plan, QuoteOf(desk, side), config, now)
  }

  /** Cancel if told to, then place if told to; a placement that does not land leaves the side empty. */
  function Carry(quote: Option<ManagedQuote>, decision: QuoteDecision, lands: bool, now: int): Option<ManagedQuote> {
    var kept := if decision.shouldCancel then None else quote;
    if !decision.shouldPlace || decision.targetPrice.None? || decision.targetUnits <= 0 then kept
    else if lands then Some(ManagedQuote(decision.targetPrice.value, decision.targetUnits, now))
    else None
  }

  function Filled(desk: Desk, side: Side, units: int): Desk
    requires QuoteOf(desk, side).Some?
  {
    var quote := QuoteOf(desk, side).value;
    var left := WithQuote(desk, side, if units < quote.units then Some(quote.(units := quote.units - units)) else None);
    if side.Bid? then left.(yes := left.yes + units) else left.(no := left.no + units)
  }

  /** An event that does not apply leaves the desk as it is. */
  function Step(config: Config, desk: Desk, event: Event): Desk {
    match event
    case Plan(feed, now) =>
      desk.(pending := Some(WorkingPlan(PlanFor(config, desk, feed, now), true, true)), clock := now)
    case Act(side, lands, now) =>
      if Due(desk, side) then
        WithQuote(Done(desk, side), side, Carry(QuoteOf(desk, side), Decide(config, desk, side, now), lands, now)).(clock := now)
      else desk
    case Fill(side, units) =>
      if 0 < units <= OpenUnits(desk, side) then Filled(desk, side, units) else desk
    case Cancel(side) => WithQuote(desk, side, None)
    case Abandon => desk.(pending := None)
  }

  function Run(config: Config, desk: Desk, events: seq<Event>): Desk {
    if events == [] then desk
    else Step(config, Run(config, desk, events[..|events| - 1]), events[|events| - 1])
  }

  // ---------------------------------------------------------------------------------------------
  // Inventory safety

  predicate WithinLimits(config: Config, desk: Desk) {
    && 0 <= desk.yes && 0 <= desk.no
    && (desk.bid.Some? ==> 0 < desk.bid.value.units)
    && (desk.ask.Some? ==> 0 < desk.ask.value.units)
    && SideExposure(desk, Bid) <= config.maxInventoryPerSide
    && SideExposure(desk, Ask) <= config.maxInventoryPerSide
    && GrossExposure(desk) <= config.maxGrossExposure + GrossSlack(config)
  }

  /** What a side may still reach under the plan being worked through: the exposure it was planned from while
      it has not acted, that plus the planned size once it has. */
  function Allowance(pending: WorkingPlan, side: Side): int {
    var risk := pending.plan.risk;
    if side.Bid? then risk.yesExposure + (if pending.bidDue then 0 else pending.plan.bidUnits)
    else risk.noExposure + (if pending.askDue then 0 else pending.plan.askUnits)
  }

  predicate SoundPlan(config: Config, plan: QuotePlan) {
    && 0 <= plan.bidUnits && 0 <= plan.askUnits
    && plan.risk.yesExposure + plan.bidUnits <= config.maxInventoryPerSide
    && plan.risk.noExposure + plan.askUnits <= config.maxInventoryPerSide
    && plan.risk.yesExposure + plan.risk.noExposure + plan.bidUnits + plan.askUnits
         <= config.maxGrossExposure + GrossSlack(config)
  }

  predicate OnPlan(config: Config, desk: Desk) {
    desk.pending.Some? ==>
      && SoundPlan(config, desk.pending.value.plan)
      && SideExposure(desk, Bid) <= Allowance(desk.pending.value, Bid)
      && SideExposure(desk, Ask) <= Allowance(desk.pending.value, Ask)
  }

  lemma PlanIsSound(config: Config, desk: Desk, feed: Feed, now: int)
    requires SoundUnits(config) && WithinLimits(config, desk)
    ensures SoundPlan(config, PlanFor(config, desk, feed, now))
    ensures var risk := PlanFor(config, desk, feed, now).risk;
      risk.yesExposure == SideExposure(desk, Bid) && risk.noExposure == SideExposure(desk, Ask)
  {
    var risk := BuildRiskState(Observe(desk, feed, now), config, now);
    PlannedUnitsWithinCaps(Bid, risk, config);
    PlannedUnitsWithinCaps(Ask, risk, config);
    PairWithinGrossSlack(risk, config);
  }

  lemma StepKeepsLimits(config: Config, desk: Desk, event: Event)
    requires SoundUnits(config) && WithinLimits(config, desk) && OnPlan(config, desk)
    ensures WithinLimits(config, Step(config, desk, event)) && OnPlan(config, Step(config, desk, event))
  {
    hide PlanFor, Carry, EvaluateQuoteDecision, SoundPlan, GrossSlack;
    match event
    case Plan(feed, now) => PlanIsSound(config, desk, feed, now);
    case Act(side, lands, now) =>
      if Due(desk, side) {
        CarryOutcomes(config, desk.pending.value.plan, side, QuoteOf(desk, side), lands, now);
        ActKeepsLimits(config, desk, side, Carry(QuoteOf(desk, side), Decide(config, desk, side, now), lands, now), now);
      }
    case Fill(side, units) =>
    case Cancel(side) =>
    case Abandon =>
  }

  /** Acting on a side leaves its quote alone, removes it, or puts the planned size there. */
  lemma CarryOutcomes(
    config: Config, plan: QuotePlan, side: Side, quote: Option<ManagedQuote>, lands: bool, now: int)
    ensures
      var after := Carry(quote, EvaluateQuoteDecision(side, plan, quote, config, now), lands, now);
      after == quote || after == None || (after.value.units == TargetUnits(side, plan) > 0 && after.value.placedAtMs == now)
  {
  }

  lemma ActKeepsLimits(config: Config, desk: Desk, side: Side, after: Option<ManagedQuote>, now: int)
    requires WithinLimits(config, desk) && OnPlan(config, desk) && Due(desk, side)
    requires after == QuoteOf(desk, side) || after == None
          || (after.value.units == TargetUnits(side, desk.pending.value.plan) > 0)
    ensures var end := WithQuote(Done(desk, side), side, after).(clock := now);
      WithinLimits(config, end) && OnPlan(config, end)
  {
    var pending := desk.pending.value;
    var end := WithQuote(Done(desk, side), side, after).(clock := now);
    assert end.pending.value.plan == pending.plan;
    assert SideExposure(end, Other(side)) == SideExposure(desk, Other(side));
    assert SideExposure(end, side) <= Allowance(end.pending.value, side);
  }

  /** Whole runs: whatever mix of plans, actions, partial fills, cancels and failed placements happens, each
      side's exposure stays within its inventory limit and gross exposure within the limit plus the slack. */
  lemma {:induction false} InventorySafety(config: Config, start: Desk, events: seq<Event>)
    requires SoundUnits(config) && WithinLimits(config, start) && start.pending.None?
    ensures WithinLimits(config, Run(config, start, events)) && OnPlan(config, Run(config, start, events))
  {
    if events != [] {
      InventorySafety(config, start, events[..|events| - 1]);
      StepKeepsLimits(config, Run(config, start, events[..|events| - 1]), events[|events| - 1]);
    }
  }

  function PlannedTotal(plan: QuotePlan): int {
    plan.risk.yesExposure + plan.risk.noExposure + plan.bidUnits + plan.askUnits
  }

  predicate WithinGross(config: Config, desk: Desk) {
    && GrossExposure(desk) <= config.maxGrossExposure
    && (desk.pending.Some? ==> PlannedTotal(desk.pending.value.plan) <= config.maxGrossExposure)
  }

  lemma StepKeepsGross(config: Config, desk: Desk, event: Event)
    requires SoundUnits(config) && WithinLimits(config, desk) && OnPlan(config, desk) && WithinGross(config, desk)
    requires event.Plan? ==> HasGrossRoom(GrossExposure(desk), config)
    ensures WithinGross(config, Step(config, desk, event))
  {
    StepKeepsLimits(config, desk, event);
    hide PlanFor, Decide, Carry, WithinLimits, HasGrossRoom;
    match event
    case Plan(feed, now) =>
      PlanKeepsGross(config, desk, feed, now);
    case Act(_, _, _) =>
    case Fill(_, _) =>
    case Cancel(_) =>
    case Abandon =>
  }

  lemma PlanKeepsGross(config: Config, desk: Desk, feed: Feed, now: int)
    requires SoundUnits(config) && WithinLimits(config, desk) && HasGrossRoom(GrossExposure(desk), config)
    ensures PlannedTotal(PlanFor(config, desk, feed, now)) <= config.maxGrossExposure
  {
    assert GrossExposure(desk) <= config.maxGrossExposure;
    hide PlannedUnits, HasGrossRoom, QuotePrices, ComputeFairValue;
    PlanIsSound(config, desk, feed, now);
    PairKeepsGrossLimit(BuildRiskState(Observe(desk, feed, now), config, now), config);
  }

  /** Every plan of the run is made with gross room left. */
  predicate Roomy(config: Config, start: Desk, events: seq<Event>) {
    events != [] ==>
      && Roomy(config, start, events[..|events| - 1])
      && (events[|events| - 1].Plan? ==> HasGrossRoom(GrossExposure(Run(config, start, events[..|events| - 1])), config))
  }

  /** Whole runs: as long as plans are only made with gross room left, the gross limit itself is kept, with no
      slack, however plans, actions, fills, cancels and failed placements interleave. */
  lemma {:induction false} GrossLimitKept(config: Config, start: Desk, events: seq<Event>)
    requires SoundUnits(config) && WithinLimits(config, start) && start.pending.None?
    requires GrossExposure(start) <= config.maxGrossExposure && Roomy(config, start, events)
    ensures WithinGross(config, Run(config, start, events))
  {
    if events != [] {
      hide Step, WithinLimits, OnPlan, HasGrossRoom;
      var earlier := events[..|events| - 1];
      InventorySafety(config, start, earlier);
      GrossLimitKept(config, start, earlier);
      StepKeepsGross(config, Run(config, start, earlier), events[|events| - 1]);
    }
  }

  /** One pass over a market: one plan drives the bid and then the ask, each decided at its own time. */
  function Tick(feed: Feed, now: int, bidAt: int, askAt: int): seq<Event> {
    [Plan(feed, now), Act(Bid, true, bidAt), Act(Ask, true, askAt)]
  }

  lemma RunOfTick(config: Config, desk: Desk, feed: Feed, now: int, bidAt: int, askAt: int)
    ensures
      var events := Tick(feed, now, bidAt, askAt);
      var planned := Step(config, desk, Plan(feed, now));
      && Run(config, desk, events[..1]) == planned
      && Run(config, desk, events[..2]) == Step(config, planned, Act(Bid, true, bidAt))
      && Run(config, desk, events) == Step(config, Step(config, planned, Act(Bid, true, bidAt)), Act(Ask, true, askAt))
  {
    hide Step;
    var events := Tick(feed, now, bidAt, askAt);
    assert events[..1][..0] == [] && events[..2][..1] == events[..1];
    assert events[..2][1] == Act(Bid, true, bidAt) && events[..1][0] == Plan(feed, now);
  }

  /** The gross limit itself is not kept: at the default configuration one tick from inside it ends exactly
      one minimum quote beyond, so the slack cannot be tightened. */
  lemma GrossSlackIsReached()
    ensures
      var start := Desk(374_987, 374_988, None, None, None, 0);
      var feed := Feed(Open, Some(495.0), Some(505.0), None, Some(0), Some(0), Some(0), None, Signal(None, None));
      var end := Run(DEFAULT_CONFIG, start, Tick(feed, 0, 0, 0));
      && WithinLimits(DEFAULT_CONFIG, start)
      && GrossExposure(start) < DEFAULT_CONFIG.maxGrossExposure
      && GrossExposure(end) == DEFAULT_CONFIG.maxGrossExposure + GrossSlack(DEFAULT_CONFIG)
  {
    var start := Desk(374_987, 374_988, None, None, None, 0);
    var feed := Feed(Open, Some(495.0), Some(505.0), None, Some(0), Some(0), Some(0), None, Signal(None, None));
    hide PlannedUnits, ComputeFairValue, QuotePrices, Run;
    RunOfTick(DEFAULT_CONFIG, start, feed, 0, 0, 0);
    OvershootSizes(BuildRiskState(Observe(start, feed, 0), DEFAULT_CONFIG, 0));
  }

  lemma OvershootSizes(risk: RiskState)
    requires risk.yesExposure == 374_987 && risk.noExposure == 374_988
    requires risk.grossExposure == 749_975 && risk.netExposure == -1 && risk.canBid && risk.canAsk
    ensures PlannedUnits(Bid, risk, DEFAULT_CONFIG) == PlannedUnits(Ask, risk, DEFAULT_CONFIG) == 25
  {
    ScaledUnitsFollowGrossHeadroom(risk, DEFAULT_CONFIG);
    RoundMonotone(ScaledUnits(risk, DEFAULT_CONFIG), 12.5);
    assert BaseUnits(risk, DEFAULT_CONFIG) == 25;
    assert RequestedUnits(25, Lean(Bid, 374_987, 374_988)) == 25;
    assert RequestedUnits(25, Lean(Ask, 374_987, 374_988)) == 25;
    ClampIsGreatestAdmissible(25, 25, [125_013, 250_001, 25]);
    ClampIsGreatestAdmissible(25, 25, [125_012, 249_999, 25]);
  }

  // ---------------------------------------------------------------------------------------------
  // Safety of the quotes that survive an action

  predicate SideOpen(plan: QuotePlan, side: Side) {
    plan.risk.breaker.None? && (if side.Bid? then plan.risk.canBid else plan.risk.canAsk)
  }

  /** The market is open, not about to close, seen on all three feeds within their limits, the loss is below its
      limit, and so is what the desk holds and quotes. */
  predicate FitDesk(config: Config, desk: Desk, feed: Feed, now: int) {
    && feed.lifecycleStatus == Open
    && (feed.betCloseTimeMs.Some? ==> feed.betCloseTimeMs.value > now + config.betCloseGuardMs)
    && SeenWithin(feed.lastStreamAtMs, config.staleStreamAfterMs, now)
    && SeenWithin(feed.lastOracleAtMs, config.staleOracleAfterMs, now)
    && SeenWithin(feed.lastRpcAtMs, config.staleRpcAfterMs, now)
    && 0 < config.maxDrawdownBps && (feed.drawdownBps.Some? ==> feed.drawdownBps.value < config.maxDrawdownBps)
    && (GrossExposure(desk) < config.maxGrossExposure || GrossExposure(desk) < config.maxQuoteUnits)
  }

  /** The side has inventory and net exposure left, counting what is held and what is quoted. */
  predicate HasRoom(config: Config, desk: Desk, side: Side) {
    && SideExposure(desk, side) < config.maxInventoryPerSide
    && SideExposure(desk, side) - SideExposure(desk, Other(side)) < config.maxNetExposure
  }

  /** The plan made for a desk has its breaker off exactly when the desk is fit, and opens no side without room. */
  lemma PlanIsGated(config: Config, desk: Desk, feed: Feed, now: int, side: Side)
    ensures var plan := PlanFor(config, desk, feed, now);
      && (plan.risk.breaker.None? <==> FitDesk(config, desk, feed, now))
      && (SideOpen(plan, side) ==> FitDesk(config, desk, feed, now) && HasRoom(config, desk, side))
  {
    hide BuildQuotePlan, LopsidedBy;
    BreakerExactly(Observe(desk, feed, now), feed.signal, config, now);
    PermissionsExactly(Observe(desk, feed, now), feed.signal, config, now);
  }

  lemma PlannedSideIsOpen(config: Config, desk: Desk, feed: Feed, now: int, side: Side)
    requires SoundUnits(config)
    ensures var plan := PlanFor(config, desk, feed, now);
      TargetUnits(side, plan) > 0 ==> SideOpen(plan, side)
    ensures var plan := PlanFor(config, desk, feed, now);
      TargetPrice(side, plan).Some? <==> TargetUnits(side, plan) > 0
  {
    PlannedUnitsWithinCaps(side, BuildRiskState(Observe(desk, feed, now), config, now), config);
  }

  /** A quote that is live after its side acted is younger than the maximum age, and either it is what the plan
      asks for or the refresh window was shut; a quote the plan does not ask for is gone. */
  lemma LiveAfterActing(config: Config, plan: QuotePlan, side: Side, quote: Option<ManagedQuote>, lands: bool, now: int)
    requires 0 < config.maxQuoteAgeMs
    ensures
      var after := Carry(quote, EvaluateQuoteDecision(side, plan, quote, config, now), lands, now);
      after.Some? ==>
        && TargetPrice(side, plan).Some? && TargetUnits(side, plan) > 0
        && now - after.value.placedAtMs < config.maxQuoteAgeMs
        && (after == Some(ManagedQuote(TargetPrice(side, plan).value, TargetUnits(side, plan), after.value.placedAtMs))
            || (after == quote && !plan.replaceQuotes))
  {
  }

  /** Deciding again at once, on the same plan and after the placement landed, always keeps. */
  lemma DecidingAgainKeeps(config: Config, plan: QuotePlan, side: Side, quote: Option<ManagedQuote>, now: int)
    requires 0 < config.maxQuoteAgeMs
    ensures
      var after := Carry(quote, EvaluateQuoteDecision(side, plan, quote, config, now), true, now);
      var again := EvaluateQuoteDecision(side, plan, after, config, now);
      again.shouldKeep && !again.shouldCancel && !again.shouldPlace
  {
  }

  /** End of a tick: a live quote means that, when the tick was planned, the market was open, not about to close and
      freshly seen on all feeds, loss and notional were below their limits and the side had room, and that the quote,
      when it was decided on, was younger than the maximum age; a market that was not fit leaves neither side quoted. */
  lemma EndOfTickSafety(config: Config, desk: Desk, feed: Feed, now: int, bidAt: int, askAt: int, side: Side)
    requires SoundUnits(config) && 0 < config.maxQuoteAgeMs
    ensures
      var end := Run(config, desk, Tick(feed, now, bidAt, askAt));
      var decidedAt := if side.Bid? then bidAt else askAt;
      && (QuoteOf(end, side).Some? ==>
            && FitDesk(config, desk, feed, now) && HasRoom(config, desk, side)
            && SideOpen(PlanFor(config, desk, feed, now), side)
            && decidedAt - QuoteOf(end, side).value.placedAtMs < config.maxQuoteAgeMs)
      && (!FitDesk(config, desk, feed, now) ==> end.bid.None? && end.ask.None?)
  {
    var plan := PlanFor(config, desk, feed, now);
    RunOfTick(config, desk, feed, now, bidAt, askAt);
    PlannedSideIsOpen(config, desk, feed, now, Bid);
    PlannedSideIsOpen(config, desk, feed, now, Ask);
    PlanIsGated(config, desk, feed, now, side);
    hide FitDesk, HasRoom, Run;
    LiveAfterActing(config, plan, Bid, desk.bid, true, bidAt);
    LiveAfterActing(config, plan, Ask, desk.ask, true, askAt);
    hide PlanFor;
  }

  /** The keeper's pass over an open market: it plans afresh for each side, the ask first. */
  function KeeperTick(askFeed: Feed, askNow: int, bidFeed: Feed, bidNow: int): seq<Event> {
    [Plan(askFeed, askNow), Act(Ask, true, askNow), Plan(bidFeed, bidNow), Act(Bid, true, bidNow)]
  }

  lemma RunOfKeeperTick(config: Config, desk: Desk, askFeed: Feed, askNow: int, bidFeed: Feed, bidNow: int)
    ensures
      var asked := Step(config, Step(config, desk, Plan(askFeed, askNow)), Act(Ask, true, askNow));
      Run(config, desk, KeeperTick(askFeed, askNow, bidFeed, bidNow))
        == Step(config, Step(config, asked, Plan(bidFeed, bidNow)), Act(Bid, true, bidNow))
  {
    hide Step;
    var events := KeeperTick(askFeed, askNow, bidFeed, bidNow);
    assert events[..3][..2] == events[..2] && events[..2][..1] == events[..1] && events[..1][..0] == [];
    assert events[..3][2] == events[2] && events[..2][1] == events[1] && events[..1][0] == events[0];
    assert Run(config, desk, events[..1]) == Step(config, desk, events[0]);
    assert Run(config, desk, events[..2]) == Step(config, Run(config, desk, events[..1]), events[1]);
  }

  /** End of the keeper's pass: each live quote was, when its own side was planned, fit to quote with room on its
      side, and young enough; so a side whose own plan finds the market unfit ends empty. */
  lemma KeeperTickSafety(config: Config, desk: Desk, askFeed: Feed, askNow: int, bidFeed: Feed, bidNow: int)
    requires SoundUnits(config) && 0 < config.maxQuoteAgeMs
    ensures
      var asked := Step(config, Step(config, desk, Plan(askFeed, askNow)), Act(Ask, true, askNow));
      var end := Run(config, desk, KeeperTick(askFeed, askNow, bidFeed, bidNow));
      && (end.ask.Some? ==>
            && FitDesk(config, desk, askFeed, askNow) && HasRoom(config, desk, Ask)
            && askNow - end.ask.value.placedAtMs < config.maxQuoteAgeMs)
      && (end.bid.Some? ==>
            && FitDesk(config, asked, bidFeed, bidNow) && HasRoom(config, asked, Bid)
            && bidNow - end.bid.value.placedAtMs < config.maxQuoteAgeMs)
  {
    var asked := Step(config, Step(config, desk, Plan(askFeed, askNow)), Act(Ask, true, askNow));
    hide FitDesk, HasRoom, PlanFor, EvaluateQuoteDecision, Run;
    RunOfKeeperTick(config, desk, askFeed, askNow, bidFeed, bidNow);
    PlannedSideIsOpen(config, desk, askFeed, askNow, Ask);
    PlannedSideIsOpen(config, asked, bidFeed, bidNow, Bid);
    PlanIsGated(config, desk, askFeed, askNow, Ask);
    PlanIsGated(config, asked, bidFeed, bidNow, Bid);
    LiveAfterActing(config, PlanFor(config, desk, askFeed, askNow), Ask, desk.ask, true, askNow);
    LiveAfterActing(config, PlanFor(config, asked, bidFeed, bidNow), Bid, desk.bid, true, bidNow);
  }

  /** A fill moves units from the quote to the position and leaves the other side and the side's exposure alone; a
      cancel removes exactly the quoted units. */
  lemma FillsAndCancelsMoveUnits(config: Config, desk: Desk, side: Side, units: int)
    requires 0 < units <= OpenUnits(desk, side)
    ensures
      var filled := Step(config, desk, Fill(side, units));
      && Held(filled, side) == Held(desk, side) + units
      && OpenUnits(filled, side) == OpenUnits(desk, side) - units
      && Held(filled, Other(side)) == Held(desk, Other(side))
      && QuoteOf(filled, Other(side)) == QuoteOf(desk, Other(side))
      && (QuoteOf(filled, side).Some? ==>
            && QuoteOf(filled, side).value.price == QuoteOf(desk, side).value.price
            && QuoteOf(filled, side).value.placedAtMs == QuoteOf(desk, side).value.placedAtMs)
    ensures
      var cancelled := Step(config, desk, Cancel(side));
      && QuoteOf(cancelled, side).None? && Held(cancelled, side) == Held(desk, side)
      && SideExposure(cancelled, Other(side)) == SideExposure(desk, Other(side))
  {
  }
}
