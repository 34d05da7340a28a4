/** The staged soak monitor's per-chain state machine: one poll's snapshot updates the running cycle record. */
module StagedMonitor {
  import opened Wrappers

  const OPEN_LAG_BUDGET_MS := 15_000
  const QUOTE_LAG_BUDGET_MS := 20_000
  const LOCK_LAG_BUDGET_MS := 10_000
  const PROPOSAL_LAG_BUDGET_MS := 60_000

  datatype Health = Health(
    bidPrice: Option<real>,
    askPrice: Option<real>,
    bidUnits: Option<real>,
    askUnits: Option<real>,
    quoteAgeMs: Option<int>)

  /** Result of the canary trade or claim that a poll may attempt: both are calls to a chain. */
  datatype TradeOutcome = TradeThrew | Traded(matched: bool, attemptedAtMs: int)

  datatype ClaimOutcome = ClaimThrew | Claimed(cleared: bool, attemptedAtMs: int, clearedAtMs: int)

  /** One chain's answer to one poll; `find` over its markets and status chains is already resolved. */
  datatype ChainSnapshot = ChainSnapshot(
    cycleDuelKeyHex: Option<string>,
    cycleDuelKey: Option<string>,
    streamDuelKey: Option<string>,
    activeDuelKey: Option<string>,
    activeDuelId: Option<string>,
    cyclePhase: Option<string>,
    streamDuelPhase: Option<string>,
    activePhase: Option<string>,
    activeBetCloseTime: Option<int>,
    statusBetCloseTime: Option<int>,
    statusLifecycle: Option<string>,
    marketLifecycle: Option<string>,
    statusHealth: Option<Health>,
    botHealth: Option<Health>,
    fetchedAtMs: int,
    trade: TradeOutcome,
    claim: ClaimOutcome)

  datatype Code =
    | SnapshotFailed
    | MarketMissing
    | QuotesMissing
    | OpenAfterClose
    | ProposalMissing
    | StaleQuoteHealth
    | TradeNoFill
    | TradeFailed
    | ClaimResidual
    | ClaimFailed

  datatype Intent = Yes | No

  datatype Trade = Trade(
    intent: Intent,
    attemptedAtMs: int,
    matched: bool,
    claimAttemptedAtMs: Option<int>,
    clearedAtMs: Option<int>)

  datatype Cycle = Cycle(
    cycleIndex: int,
    duelKey: string,
    duelId: Option<string>,
    startedAtMs: int,
    betCloseTimeMs: Option<int>,
    resolutionAtMs: Option<int>,
    openAtMs: Option<int>,
    quotesAtMs: Option<int>,
    lockAtMs: Option<int>,
    proposalAtMs: Option<int>,
    terminalAtMs: Option<int>,
    trade: Option<Trade>,
    incidents: seq<Code>)

  datatype Args = Args(pollMs: int, durationMin: int, canaryTradesEnabled: bool)

  // ---------------------------------------------------------------------------------------------
  // Reading a snapshot

  /** `a || b || ...`: the empty string counts as absent. */
  function FirstNonEmpty(candidates: seq<Option<string>>, fallback: string): string {
    if candidates == [] then fallback
    else if candidates[0].Some? && candidates[0].value != "" then candidates[0].value
    else FirstNonEmpty(candidates[1..], fallback)
  }

  function OrElse<T>(first: Option<T>, second: Option<T>): Option<T> {
    if first.Some? then first else second
  }

  function CurrentDuelKey(p: ChainSnapshot): string {
    FirstNonEmpty([p.cycleDuelKeyHex, p.cycleDuelKey, p.streamDuelKey, p.activeDuelKey, p.activeDuelId], "unknown")
  }

  function CurrentPhase(p: ChainSnapshot): string {
    FirstNonEmpty([p.cyclePhase, p.streamDuelPhase, p.activePhase], "UNKNOWN")
  }

  function Lifecycle(p: ChainSnapshot): string {
    OrElse(p.statusLifecycle, p.marketLifecycle).GetOr("UNKNOWN")
  }

  function HealthOf(p: ChainSnapshot): Option<Health> { OrElse(p.statusHealth, p.botHealth) }

  predicate TerminalLifecycle(status: string) { status == "RESOLVED" || status == "CANCELLED" }

  predicate ProposalLifecycle(status: string) {
    status == "PROPOSED" || status == "CHALLENGED" || TerminalLifecycle(status)
  }

  predicate HasTwoSidedQuotes(health: Option<Health>) {
    && health.Some?
    && health.value.bidPrice.Some? && health.value.askPrice.Some?
    && health.value.bidPrice.value > 0.0 && health.value.askPrice.value < 1000.0
    && health.value.bidUnits.GetOr(0.0) > 0.0 && health.value.askUnits.GetOr(0.0) > 0.0
  }

  predicate HasAnyQuote(health: Option<Health>) {
    && health.Some?
    && ((health.value.bidPrice.Some? && health.value.bidUnits.GetOr(0.0) > 0.0)
        || (health.value.askPrice.Some? && health.value.askUnits.GetOr(0.0) > 0.0))
  }

  predicate ShouldTradeCycle(cycleIndex: int) { cycleIndex <= 4 || cycleIndex % 4 == 0 }

  predicate IsOpen(p: ChainSnapshot) { Lifecycle(p) == "OPEN" }

  predicate IsQuoted(p: ChainSnapshot) { IsOpen(p) && HasTwoSidedQuotes(HealthOf(p)) }

  /** Quotes older than two polling intervals while the market is open. */
  predicate IsStale(args: Args, p: ChainSnapshot) {
    && IsOpen(p)
    && HealthOf(p).Some? && HealthOf(p).value.quoteAgeMs.Some?
    && HealthOf(p).value.quoteAgeMs.value > args.pollMs * 2
  }

  // ---------------------------------------------------------------------------------------------
  // The state machine on values

  datatype ChainState = ChainState(
    cycles: seq<Cycle>,
    current: Option<Cycle>,
    lastPhase: string,
    lastLifecycle: string,
    staleQuotePolls: int,
    openLagIncident: bool,
    quoteLagIncident: bool,
    lockLagIncident: bool,
    proposalLagIncident: bool)

  const INITIAL_STATE := ChainState([], None, "", "", 0, false, false, false, false)

  function NewCycle(index: int, p: ChainSnapshot): Cycle {
    Cycle(index, CurrentDuelKey(p), p.activeDuelId, p.fetchedAtMs, OrElse(p.activeBetCloseTime, p.statusBetCloseTime),
          None, None, None, None, None, None, None, [])
  }

  function Closed(s: ChainState): seq<Cycle> {
    s.cycles + (if s.current.Some? then [s.current.value] else [])
  }

  predicate Continues(s: ChainState, p: ChainSnapshot) {
    s.current.Some? && s.current.value.duelKey == CurrentDuelKey(p)
  }

  /** A new duel key closes the running cycle and clears every flag and counter; the bet close time follows the
      active duel's. */
  function Entered(s: ChainState, p: ChainSnapshot): (r: ChainState)
    ensures r.current.Some?
  {
    var entered :=
      if Continues(s, p) then s
      else INITIAL_STATE.(cycles := Closed(s), current := Some(NewCycle(|Closed(s)| + 1, p)));
    var c := entered.current.value;
    entered.(current := Some(c.(betCloseTimeMs := OrElse(p.activeBetCloseTime, c.betCloseTimeMs))))
  }

  function Stamp(at: Option<int>, due: bool, now: int): Option<int> {
    if at.None? && due then Some(now) else at
  }

  /** Milestones are stamped on the first poll that shows them. */
  function Stamped(s: ChainState, p: ChainSnapshot): (r: ChainState)
    requires s.current.Some?
    ensures r.current.Some?
  {
    var c, now := s.current.value, p.fetchedAtMs;
    s.(lastPhase := CurrentPhase(p),
       lastLifecycle := Lifecycle(p),
       current := Some(c.(
         resolutionAtMs := Stamp(c.resolutionAtMs, CurrentPhase(p) != s.lastPhase && CurrentPhase(p) == "RESOLUTION", now),
         openAtMs := Stamp(c.openAtMs, IsOpen(p), now),
         quotesAtMs := Stamp(c.quotesAtMs, IsQuoted(p), now),
         lockAtMs := Stamp(c.lockAtMs, c.betCloseTimeMs.Some? && !IsOpen(p), now),
         proposalAtMs := Stamp(c.proposalAtMs, ProposalLifecycle(Lifecycle(p)), now),
         terminalAtMs := Stamp(c.terminalAtMs, TerminalLifecycle(Lifecycle(p)), now))))
  }

  predicate OpenOverdue(c: Cycle, p: ChainSnapshot) {
    p.fetchedAtMs - c.startedAtMs > OPEN_LAG_BUDGET_MS && c.openAtMs.None?
  }

  predicate QuotesOverdue(c: Cycle, p: ChainSnapshot) {
    c.openAtMs.Some? && p.fetchedAtMs - c.openAtMs.value > QUOTE_LAG_BUDGET_MS && c.quotesAtMs.None?
  }

  predicate LockOverdue(c: Cycle, p: ChainSnapshot) {
    && c.betCloseTimeMs.Some?
    && p.fetchedAtMs > c.betCloseTimeMs.value + LOCK_LAG_BUDGET_MS
    && (IsOpen(p) || HasAnyQuote(HealthOf(p)))
  }

  predicate ProposalOverdue(c: Cycle, p: ChainSnapshot) {
    c.resolutionAtMs.Some? && p.fetchedAtMs > c.resolutionAtMs.value + PROPOSAL_LAG_BUDGET_MS && c.proposalAtMs.None?
  }

  /** Which of a cycle's four lag budgets this poll finds overrun. */
  datatype Overdue = Overdue(open: bool, quotes: bool, lock: bool, proposal: bool)

  function OverdueAt(c: Cycle, p: ChainSnapshot): Overdue {
    Overdue(OpenOverdue(c, p), QuotesOverdue(c, p), LockOverdue(c, p), ProposalOverdue(c, p))
  }

  function When(raise: bool, code: Code): seq<Code> { if raise then [code] else [] }

  /** The lag alarms of one poll; each raises its incident at most once per cycle. */
  function LagCodes(s: ChainState, overdue: Overdue): seq<Code> {
    OpeningCodes(s, overdue) + ClosingCodes(s, overdue)
  }

  function OpeningCodes(s: ChainState, overdue: Overdue): seq<Code> {
    When(!s.openLagIncident && overdue.open, MarketMissing) + When(!s.quoteLagIncident && overdue.quotes, QuotesMissing)
  }

  function ClosingCodes(s: ChainState, overdue: Overdue): seq<Code> {
    When(!s.lockLagIncident && overdue.lock, OpenAfterClose) + When(!s.proposalLagIncident && overdue.proposal, ProposalMissing)
  }

  function LagFlagged(s: ChainState, overdue: Overdue): ChainState {
    s.(openLagIncident := s.openLagIncident || overdue.open,
       quoteLagIncident := s.quoteLagIncident || overdue.quotes,
       lockLagIncident := s.lockLagIncident || overdue.lock,
       proposalLagIncident := s.proposalLagIncident || overdue.proposal)
  }

  function StaleCount(args: Args, s: ChainState, p: ChainSnapshot): int {
    if IsStale(args, p) then s.staleQuotePolls + 1 else 0
  }

  predicate TradeDue(args: Args, c: Cycle, p: ChainSnapshot) {
    args.canaryTradesEnabled && c.trade.None? && IsQuoted(p) && ShouldTradeCycle(c.cycleIndex)
  }

  /** The trade call's result; it throws at once when the active duel has no key. */
  function TradeResult(p: ChainSnapshot): TradeOutcome {
    if p.activeDuelKey.None? || p.activeDuelKey.value == "" then TradeThrew else p.trade
  }

  function TradeRecorded(c: Cycle, due: bool, result: TradeOutcome): Cycle {
    if due && result.Traded? then
      c.(trade := Some(Trade(if c.cycleIndex % 2 == 1 then Yes else No, result.attemptedAtMs, result.matched, None, None)))
    else c
  }

  function TradeCodes(due: bool, result: TradeOutcome): seq<Code> {
    When(due && result.TradeThrew?, TradeFailed) + When(due && result.Traded? && !result.matched, TradeNoFill)
  }

  predicate ClaimDue(c: Cycle) {
    c.trade.Some? && c.trade.value.matched && c.terminalAtMs.Some? && c.trade.value.claimAttemptedAtMs.None?
  }

  function ClaimRecorded(c: Cycle, claim: ClaimOutcome): Cycle {
    if ClaimDue(c) && claim.Claimed? then
      c.(trade := Some(c.trade.value.(
           claimAttemptedAtMs := Some(claim.attemptedAtMs),
           clearedAtMs := if claim.cleared then Some(claim.clearedAtMs) else None)))
    else c
  }

  function ClaimCodes(c: Cycle, claim: ClaimOutcome): seq<Code> {
    When(ClaimDue(c) && claim.ClaimThrew?, ClaimFailed) + When(ClaimDue(c) && claim.Claimed? && !claim.cleared, ClaimResidual)
  }

  function AlarmCodes(args: Args, s: ChainState, p: ChainSnapshot): seq<Code>
    requires s.current.Some?
  {
    LagCodes(s, OverdueAt(s.current.value, p)) + When(StaleCount(args, s, p) > 2, StaleQuoteHealth)
  }

  function ActedCycle(args: Args, c: Cycle, p: ChainSnapshot): Cycle {
    ClaimRecorded(TradeRecorded(c, TradeDue(args, c, p), TradeResult(p)), p.claim)
  }

  lemma ActingIgnoresIncidents(args: Args, c: Cycle, p: ChainSnapshot, incidents: seq<Code>, after: seq<Code>)
    ensures ActionCodes(args, c.(incidents := incidents), p) == ActionCodes(args, c, p)
    ensures ActedCycle(args, c.(incidents := incidents), p).(incidents := after)
         == ActedCycle(args, c, p).(incidents := after)
  {
  }

  function ActionCodes(args: Args, c: Cycle, p: ChainSnapshot): seq<Code> {
    var due, result := TradeDue(args, c, p), TradeResult(p);
    TradeCodes(due, result) + ClaimCodes(TradeRecorded(c, due, result), p.claim)
  }

  /** All incident codes of one poll, in the order they are raised; `s` is entered and stamped. */
  function StampedCodes(args: Args, s: ChainState, p: ChainSnapshot): seq<Code>
    requires s.current.Some?
  {
    AlarmCodes(args, s, p) + ActionCodes(args, s.current.value, p)
  }

  function Acted(args: Args, s: ChainState, p: ChainSnapshot): (r: ChainState)
    requires s.current.Some?
    ensures r.current.Some?
  {
    var c := s.current.value;
    var stale := StaleCount(args, s, p);
    LagFlagged(s, OverdueAt(c, p)).(
      staleQuotePolls := if stale > 2 then 0 else stale,
      current := Some(ActedCycle(args, c, p).(incidents := c.incidents + StampedCodes(args, s, p))))
  }

  function Raised(args: Args, s: ChainState, p: ChainSnapshot): seq<Code> {
    StampedCodes(args, Stamped(Entered(s, p), p), p)
  }

  /** One poll. */
  function Step(args: Args, s: ChainState, p: ChainSnapshot): (r: ChainState)
    ensures r.current.Some?
  {
    Acted(args, Stamped(Entered(s, p), p), p)
  }

  // ---------------------------------------------------------------------------------------------
  // The state machine on objects

  datatype Incident = Incident(chain: string, code: Code)

  function Logged(chain: string, codes: seq<Code>): (r: seq<Incident>)
    ensures |r| == |codes|
  {
    seq(|codes|, i requires 0 <= i < |codes| => Incident(chain, codes[i]))
  }

  lemma LoggedConcat(chain: string, first: seq<Code>, second: seq<Code>)
    ensures Logged(chain, first + second) == Logged(chain, first) + Logged(chain, second)
  {
  }

  /** The run-wide incident list that every chain's machine appends to. */
  class StagedContext {
    var incidents: seq<Incident>

    constructor ()
      ensures incidents == []
    {
      incidents := [];
    }
  }

  class StagedRuntimeState {
    const chain: string
    var cycles: seq<Cycle>
    var current: Option<Cycle>
    var lastPhase: string
    var lastLifecycle: string
    var staleQuotePolls: int
    var openLagIncident: bool
    var quoteLagIncident: bool
    var lockLagIncident: bool
    var proposalLagIncident: bool

    ghost function Value(): ChainState
      reads this
    {
      ChainState(cycles, current, lastPhase, lastLifecycle, staleQuotePolls,
                 openLagIncident, quoteLagIncident, lockLagIncident, proposalLagIncident)
    }

    constructor (chain: string)
      ensures this.chain == chain && Value() == INITIAL_STATE
    {
      this.chain := chain;
      cycles, current := [], None;
      lastPhase, lastLifecycle, staleQuotePolls := "", "", 0;
      openLagIncident, quoteLagIncident, lockLagIncident, proposalLagIncident := false, false, false, false;
    }

    method RecordIncident(context: StagedContext, code: Code)
      requires current.Some?
      modifies this`current, context
      ensures current == Some(old(current.value).(incidents := old(current.value.incidents) + [code]))
      ensures context.incidents == old(context.incidents) + Logged(chain, [code])
    {
      current := Some(current.value.(incidents := current.value.incidents + [code]));
      context.incidents := context.incidents + [Incident(chain, code)];
    }

    method EnterCycle(p: ChainSnapshot)
      modifies this
      ensures Value() == Entered(old(Value()), p)
    {
      hide CurrentDuelKey;
      if current.None? || current.value.duelKey != CurrentDuelKey(p) {
        if current.Some? {
          cycles := cycles + [current.value];
        }
        current := Some(NewCycle(|cycles| + 1, p));
        lastPhase, lastLifecycle, staleQuotePolls := "", "", 0;
        openLagIncident, quoteLagIncident, lockLagIncident, proposalLagIncident := false, false, false, false;
      }
      if p.activeBetCloseTime.Some? {
        current := Some(current.value.(betCloseTimeMs := p.activeBetCloseTime));
      }
    }

    method StampPhase(p: ChainSnapshot)
      requires current.Some?
      modifies this
      ensures var before := old(Value()); var c := before.current.value;
        Value() == before.(
          lastPhase := CurrentPhase(p),
          lastLifecycle := Lifecycle(p),
          current := Some(c.(resolutionAtMs :=
            Stamp(c.resolutionAtMs, CurrentPhase(p) != before.lastPhase && CurrentPhase(p) == "RESOLUTION", p.fetchedAtMs))))
    {
      var phase, lifecycle := CurrentPhase(p), Lifecycle(p);
      if phase != lastPhase {
        lastPhase := phase;
        if phase == "RESOLUTION" && current.value.resolutionAtMs.None? {
          current := Some(current.value.(resolutionAtMs := Some(p.fetchedAtMs)));
        }
      }
      if lifecycle != lastLifecycle {
        lastLifecycle := lifecycle;
      }
    }

    method StampMilestones(open: bool, twoSided: bool, proposed: bool, terminal: bool, now: int)
      requires current.Some?
      modifies this`current
      ensures var c := old(current.value);
        current == Some(c.(
          openAtMs := Stamp(c.openAtMs, open, now),
          quotesAtMs := Stamp(c.quotesAtMs, open && twoSided, now),
          lockAtMs := Stamp(c.lockAtMs, c.betCloseTimeMs.Some? && !open, now),
          proposalAtMs := Stamp(c.proposalAtMs, proposed, now),
          terminalAtMs := Stamp(c.terminalAtMs, terminal, now)))
    {
      if open && current.value.openAtMs.None? {
        current := Some(current.value.(openAtMs := Some(now)));
      }
      if twoSided && current.value.quotesAtMs.None? && open {
        current := Some(current.value.(quotesAtMs := Some(now)));
      }
      if current.value.betCloseTimeMs.Some? && !open && current.value.lockAtMs.None? {
        current := Some(current.value.(lockAtMs := Some(now)));
      }
      if proposed && current.value.proposalAtMs.None? {
        current := Some(current.value.(proposalAtMs := Some(now)));
      }
      if terminal && current.value.terminalAtMs.None? {
        current := Some(current.value.(terminalAtMs := Some(now)));
      }
    }

    method RecordIncidentWhen(raise: bool, context: StagedContext, code: Code)
      requires current.Some?
      modifies this`current, context
      ensures current == Some(old(current.value).(incidents := old(current.value.incidents) + When(raise, code)))
      ensures context.incidents == old(context.incidents) + Logged(chain, When(raise, code))
    {
      if raise {
        RecordIncident(context, code);
      } else {
        assert current.value.incidents == current.value.incidents + [];
      }
    }

    method RaiseOpeningAlarms(context: StagedContext, overdue: Overdue)
      requires current.Some?
      modifies this, context
      ensures var before := old(Value()); var codes := OpeningCodes(before, overdue);
        && Value() == before.(
             openLagIncident := before.openLagIncident || overdue.open,
             quoteLagIncident := before.quoteLagIncident || overdue.quotes,
             current := Some(before.current.value.(incidents := before.current.value.incidents + codes)))
        && context.incidents == old(context.incidents) + Logged(chain, codes)
    {
      ghost var before := Value();
      var open := !openLagIncident && overdue.open;
      openLagIncident := openLagIncident || open;
      RecordIncidentWhen(open, context, MarketMissing);
      var quotes := !quoteLagIncident && overdue.quotes;
      quoteLagIncident := quoteLagIncident || quotes;
      RecordIncidentWhen(quotes, context, QuotesMissing);
      assert current.value.incidents == before.current.value.incidents + OpeningCodes(before, overdue);
      LoggedConcat(chain, When(open, MarketMissing), When(quotes, QuotesMissing));
    }

    method RaiseClosingAlarms(context: StagedContext, overdue: Overdue)
      requires current.Some?
      modifies this, context
      ensures var before := old(Value()); var codes := ClosingCodes(before, overdue);
        && Value() == before.(
             lockLagIncident := before.lockLagIncident || overdue.lock,
             proposalLagIncident := before.proposalLagIncident || overdue.proposal,
             current := Some(before.current.value.(incidents := before.current.value.incidents + codes)))
        && context.incidents == old(context.incidents) + Logged(chain, codes)
    {
      ghost var before := Value();
      var lock := !lockLagIncident && overdue.lock;
      lockLagIncident := lockLagIncident || lock;
      RecordIncidentWhen(lock, context, OpenAfterClose);
      var proposal := !proposalLagIncident && overdue.proposal;
      proposalLagIncident := proposalLagIncident || proposal;
      RecordIncidentWhen(proposal, context, ProposalMissing);
      assert current.value.incidents == before.current.value.incidents + ClosingCodes(before, overdue);
      LoggedConcat(chain, When(lock, OpenAfterClose), When(proposal, ProposalMissing));
    }

    method RaiseLagAlarms(context: StagedContext, overdue: Overdue)
      requires current.Some?
      modifies this, context
      ensures var before := old(Value()); var codes := LagCodes(before, overdue);
        && Value() == LagFlagged(before, overdue).(
             current := Some(before.current.value.(incidents := before.current.value.incidents + codes)))
        && context.incidents == old(context.incidents) + Logged(chain, codes)
    {
      ghost var before := Value();
      RaiseOpeningAlarms(context, overdue);
      RaiseClosingAlarms(context, overdue);
      assert current.value.incidents == before.current.value.incidents + LagCodes(before, overdue);
      LoggedConcat(chain, OpeningCodes(before, overdue), ClosingCodes(before, overdue));
    }

    method CountStaleQuotes(args: Args, context: StagedContext, p: ChainSnapshot)
      requires current.Some?
      modifies this, context
      ensures var before := old(Value()); var stale := StaleCount(args, before, p);
        && Value() == before.(
             staleQuotePolls := if stale > 2 then 0 else stale,
             current := Some(before.current.value.(
               incidents := before.current.value.incidents + When(stale > 2, StaleQuoteHealth))))
        && context.incidents == old(context.incidents) + Logged(chain, When(stale > 2, StaleQuoteHealth))
    {
      if IsStale(args, p) {
        staleQuotePolls := staleQuotePolls + 1;
      } else {
        staleQuotePolls := 0;
      }
      var persistent := staleQuotePolls > 2;
      RecordIncidentWhen(persistent, context, StaleQuoteHealth);
      if persistent {
        staleQuotePolls := 0;
      }
    }

    method AttemptTrade(context: StagedContext, due: bool, result: TradeOutcome)
      requires current.Some?
      modifies this`current, context
      ensures var c := old(current.value); var codes := TradeCodes(due, result);
        && current == Some(TradeRecorded(c, due, result).(incidents := c.incidents + codes))
        && context.incidents == old(context.incidents) + Logged(chain, codes)
    {
      ghost var c := current.value;
      if due && result.Traded? {
        var intent := if current.value.cycleIndex % 2 == 1 then Yes else No;
        current := Some(current.value.(trade := Some(Trade(intent, result.attemptedAtMs, result.matched, None, None))));
      }
      RecordIncidentWhen(due && result.TradeThrew?, context, TradeFailed);
      RecordIncidentWhen(due && result.Traded? && !result.matched, context, TradeNoFill);
      assert current.value.incidents == c.incidents + TradeCodes(due, result);
      LoggedConcat(chain, When(due && result.TradeThrew?, TradeFailed), When(due && result.Traded? && !result.matched, TradeNoFill));
    }

    method AttemptClaim(context: StagedContext, claim: ClaimOutcome)
      requires current.Some?
      modifies this`current, context
      ensures var c := old(current.value); var codes := ClaimCodes(c, claim);
        && current == Some(ClaimRecorded(c, claim).(incidents := c.incidents + codes))
        && context.incidents == old(context.incidents) + Logged(chain, codes)
    {
      ghost var c := current.value;
      var due := ClaimDue(current.value);
      if due && claim.Claimed? {
        var trade := current.value.trade.value.(
          claimAttemptedAtMs := Some(claim.attemptedAtMs),
          clearedAtMs := if claim.cleared then Some(claim.clearedAtMs) else None);
        current := Some(current.value.(trade := Some(trade)));
      }
      RecordIncidentWhen(due && claim.ClaimThrew?, context, ClaimFailed);
      RecordIncidentWhen(due && claim.Claimed? && !claim.cleared, context, ClaimResidual);
      assert current.value.incidents == c.incidents + ClaimCodes(c, claim);
      LoggedConcat(chain, When(due && claim.ClaimThrew?, ClaimFailed), When(due && claim.Claimed? && !claim.cleared, ClaimResidual));
    }

    method RaiseAlarms(args: Args, context: StagedContext, p: ChainSnapshot)
      requires current.Some?
      modifies this, context
      ensures var before := old(Value()); var c := before.current.value;
        var codes, stale := AlarmCodes(args, before, p), StaleCount(args, before, p);
        && Value() == LagFlagged(before, OverdueAt(c, p)).(
             staleQuotePolls := if stale > 2 then 0 else stale,
             current := Some(c.(incidents := c.incidents + codes)))
        && context.incidents == old(context.incidents) + Logged(chain, codes)
    {
      hide LagCodes, OverdueAt, IsStale;
      ghost var before, c := Value(), current.value;
      RaiseLagAlarms(context, OverdueAt(current.value, p));
      CountStaleQuotes(args, context, p);
      assert current.value.incidents == c.incidents + AlarmCodes(args, before, p);
      LoggedConcat(chain, LagCodes(before, OverdueAt(c, p)), When(StaleCount(args, before, p) > 2, StaleQuoteHealth));
    }

    method TradeAndClaim(args: Args, context: StagedContext, p: ChainSnapshot)
      requires current.Some?
      modifies this`current, context
      ensures var c := old(current.value); var codes := ActionCodes(args, c, p);
        && current == Some(ActedCycle(args, c, p).(incidents := c.incidents + codes))
        && context.incidents == old(context.incidents) + Logged(chain, codes)
    {
      ghost var c := current.value;
      AttemptTrade(context, TradeDue(args, current.value, p), TradeResult(p));
      ghost var traded := current.value;
      AttemptClaim(context, p.claim);
      ghost var due, result := TradeDue(args, c, p), TradeResult(p);
      assert ClaimCodes(traded, p.claim) == ClaimCodes(TradeRecorded(c, due, result), p.claim);
      assert current.value.incidents == c.incidents + ActionCodes(args, c, p);
      LoggedConcat(chain, TradeCodes(due, result), ClaimCodes(traded, p.claim));
    }

    method RaiseAlarmsAndAct(args: Args, context: StagedContext, p: ChainSnapshot)
      requires current.Some?
      modifies this, context
      ensures Value() == Acted(args, old(Value()), p)
      ensures context.incidents == old(context.incidents) + Logged(chain, StampedCodes(args, old(Value()), p))
    {
      hide AlarmCodes, ActionCodes, ActedCycle, LagFlagged, StaleCount, OverdueAt;
      ghost var stamped, c := Value(), current.value;
      RaiseAlarms(args, context, p);
      ghost var alarmed := current.value;
      TradeAndClaim(args, context, p);
      ghost var a, b := AlarmCodes(args, stamped, p), ActionCodes(args, c, p);
      ActingIgnoresIncidents(args, c, p, alarmed.incidents, c.incidents + (a + b));
      assert alarmed == c.(incidents := alarmed.incidents);
      assert current.value.incidents == c.incidents + (a + b);
      LoggedConcat(chain, a, b);
    }

    /** One poll: the object's new value and the incidents logged are those of the machine on values. */
    method ProcessStagedSnapshot(args: Args, context: StagedContext, p: ChainSnapshot)
      modifies this, context
      ensures Value() == Step(args, old(Value()), p)
      ensures context.incidents == old(context.incidents) + Logged(chain, Raised(args, old(Value()), p))
    {
      hide Entered, Acted, StampedCodes, IsOpen, HasTwoSidedQuotes, ProposalLifecycle, TerminalLifecycle, CurrentPhase, Lifecycle;
      EnterCycle(p);
      StampPhase(p);
      var lifecycle := Lifecycle(p);
      StampMilestones(IsOpen(p), HasTwoSidedQuotes(HealthOf(p)), ProposalLifecycle(lifecycle), TerminalLifecycle(lifecycle), p.fetchedAtMs);
      assert Value() == Stamped(Entered(old(Value()), p), p);
      RaiseAlarmsAndAct(args, context, p);
    }
  }
}
