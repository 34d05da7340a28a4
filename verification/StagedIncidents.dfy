/** Which incidents a history of polls raises: every lag alarm once per cycle, a stale alarm per three stale polls. */
module StagedIncidents {
  import opened Wrappers
  import opened StagedMonitor
  import opened StagedHistory

  /** Poll i comes after a lag budget of its cycle without the milestone that the budget is for, or shows the
      market open or quoted past the close. */
  predicate Overran(polls: seq<ChainSnapshot>, i: nat, code: Code)
    requires i < |polls|
  {
    var now := polls[i].fetchedAtMs;
    match code
    case MarketMissing =>
      now - polls[CycleStart(polls, i)].fetchedAtMs > OPEN_LAG_BUDGET_MS && FirstShowing(polls, i, OpenSeen).None?
    case QuotesMissing =>
      && FirstTime(polls, i, OpenSeen).Some?
      && now - FirstTime(polls, i, OpenSeen).value > QUOTE_LAG_BUDGET_MS
      && FirstShowing(polls, i, QuotesSeen).None?
    case OpenAfterClose =>
      && BetClose(polls, i).Some?
      && now > BetClose(polls, i).value + LOCK_LAG_BUDGET_MS
      && (IsOpen(polls[i]) || HasAnyQuote(HealthOf(polls[i])))
    case ProposalMissing =>
      && FirstTime(polls, i, ResolutionSeen).Some?
      && now > FirstTime(polls, i, ResolutionSeen).value + PROPOSAL_LAG_BUDGET_MS
      && FirstShowing(polls, i, ProposalSeen).None?
    case _ => false
  }

  predicate IsLagCode(code: Code) {
    code.MarketMissing? || code.QuotesMissing? || code.OpenAfterClose? || code.ProposalMissing?
  }

  /** Some poll of i's cycle, up to i, overran. */
  predicate OverranSoFar(polls: seq<ChainSnapshot>, i: nat, code: Code)
    requires i < |polls|
  {
    Overran(polls, i, code) || (CycleStart(polls, i) < i && OverranSoFar(polls, i - 1, code))
  }

  /** Length of the unbroken run of stale polls of i's cycle that ends at i. */
  function StaleRun(args: Args, polls: seq<ChainSnapshot>, i: nat): (k: nat)
    requires i < |polls|
    ensures k <= i + 1 - CycleStart(polls, i)
    ensures k > 0 <==> IsStale(args, polls[i])
  {
    if !IsStale(args, polls[i]) then 0
    else 1 + if CycleStart(polls, i) < i then StaleRun(args, polls, i - 1) else 0
  }

  predicate StaleAlarm(args: Args, polls: seq<ChainSnapshot>, i: nat)
    requires i < |polls|
  {
    StaleRun(args, polls, i) > 0 && StaleRun(args, polls, i) % 3 == 0
  }

  function StaleAlarmsSoFar(args: Args, polls: seq<ChainSnapshot>, i: nat): nat
    requires i < |polls|
  {
    (if StaleAlarm(args, polls, i) then 1 else 0)
    + if CycleStart(polls, i) < i then StaleAlarmsSoFar(args, polls, i - 1) else 0
  }

  function LagFlag(s: ChainState, code: Code): bool {
    match code
    case MarketMissing => s.openLagIncident
    case QuotesMissing => s.quoteLagIncident
    case OpenAfterClose => s.lockLagIncident
    case ProposalMissing => s.proposalLagIncident
    case _ => false
  }

  function OverdueFor(overdue: Overdue, code: Code): bool {
    match code
    case MarketMissing => overdue.open
    case QuotesMissing => overdue.quotes
    case OpenAfterClose => overdue.lock
    case ProposalMissing => overdue.proposal
    case _ => false
  }

  /** How often a poll raises a code. */
  function Times(raise: bool): nat { if raise then 1 else 0 }

  function Count(codes: seq<Code>, code: Code): nat {
    if codes == [] then 0
    else Count(codes[..|codes| - 1], code) + Times(codes[|codes| - 1] == code)
  }

  lemma {:induction false} CountConcat(first: seq<Code>, second: seq<Code>, code: Code)
    ensures Count(first + second, code) == Count(first, code) + Count(second, code)
  {
    if second == [] {
      assert first + second == first;
    } else {
      assert (first + second)[..|first + second| - 1] == first + second[..|second| - 1];
      CountConcat(first, second[..|second| - 1], code);
    }
  }

  lemma TwoCount(r1: bool, c1: Code, r2: bool, c2: Code, counted: Code)
    ensures Count(When(r1, c1) + When(r2, c2), counted) == Times(r1 && c1 == counted) + Times(r2 && c2 == counted)
  {
    CountConcat(When(r1, c1), When(r2, c2), counted);
  }

  lemma OpeningCodesCount(s: ChainState, overdue: Overdue, code: Code)
    ensures Count(OpeningCodes(s, overdue), code)
         == Times(!s.openLagIncident && overdue.open && MarketMissing == code)
            + Times(!s.quoteLagIncident && overdue.quotes && QuotesMissing == code)
  {
    TwoCount(!s.openLagIncident && overdue.open, MarketMissing, !s.quoteLagIncident && overdue.quotes, QuotesMissing, code);
  }

  lemma ClosingCodesCount(s: ChainState, overdue: Overdue, code: Code)
    ensures Count(ClosingCodes(s, overdue), code)
         == Times(!s.lockLagIncident && overdue.lock && OpenAfterClose == code)
            + Times(!s.proposalLagIncident && overdue.proposal && ProposalMissing == code)
  {
    TwoCount(!s.lockLagIncident && overdue.lock, OpenAfterClose, !s.proposalLagIncident && overdue.proposal, ProposalMissing, code);
  }

  lemma LagCodesCount(s: ChainState, overdue: Overdue, code: Code)
    requires IsLagCode(code) || code.StaleQuoteHealth?
    ensures Count(LagCodes(s, overdue), code) == Times(!LagFlag(s, code) && OverdueFor(overdue, code))
  {
    CountConcat(OpeningCodes(s, overdue), ClosingCodes(s, overdue), code);
    OpeningCodesCount(s, overdue, code);
    ClosingCodesCount(s, overdue, code);
  }

  lemma ActionCodesCount(args: Args, c: Cycle, p: ChainSnapshot, code: Code)
    requires IsLagCode(code) || code.StaleQuoteHealth?
    ensures Count(ActionCodes(args, c, p), code) == 0
  {
    var due, result := TradeDue(args, c, p), TradeResult(p);
    var traded := TradeRecorded(c, due, result);
    CountConcat(TradeCodes(due, result), ClaimCodes(traded, p.claim), code);
    TwoCount(due && result.TradeThrew?, TradeFailed, due && result.Traded? && !result.matched, TradeNoFill, code);
    TwoCount(ClaimDue(traded) && p.claim.ClaimThrew?, ClaimFailed,
             ClaimDue(traded) && p.claim.Claimed? && !p.claim.cleared, ClaimResidual, code);
  }

  lemma RaisedCounts(args: Args, s: ChainState, p: ChainSnapshot, code: Code)
    requires s.current.Some? && (IsLagCode(code) || code.StaleQuoteHealth?)
    ensures Count(StampedCodes(args, s, p), code)
         == if code.StaleQuoteHealth? then Times(StaleCount(args, s, p) > 2)
            else Times(!LagFlag(s, code) && OverdueFor(OverdueAt(s.current.value, p), code))
  {
    var c := s.current.value;
    var lag, stale := LagCodes(s, OverdueAt(c, p)), When(StaleCount(args, s, p) > 2, StaleQuoteHealth);
    CountConcat(AlarmCodes(args, s, p), ActionCodes(args, c, p), code);
    CountConcat(lag, stale, code);
    LagCodesCount(s, OverdueAt(c, p), code);
    ActionCodesCount(args, c, p, code);
  }

  /** The counts and flags of one poll: a new cycle starts from nothing, an overrun raises its code if its flag
      was down, and the third stale poll in a row raises the stale alarm. */
  lemma StepCounts(args: Args, s: ChainState, p: ChainSnapshot, code: Code)
    requires IsLagCode(code)
    ensures
      var after := Step(args, s, p);
      var overdue := OverdueFor(OverdueAt(Stamped(Entered(s, p), p).current.value, p), code);
      var flag := Continues(s, p) && LagFlag(s, code);
      && LagFlag(after, code) == (flag || overdue)
      && Count(after.current.value.incidents, code)
           == (if Continues(s, p) then Count(s.current.value.incidents, code) else 0) + Times(!flag && overdue)
  {
    var stamped := Stamped(Entered(s, p), p);
    StampedKeepsAlarms(s, p, code);
    ActedAlarms(args, stamped, p, code);
    RaisedCounts(args, stamped, p, code);
    CountConcat(stamped.current.value.incidents, StampedCodes(args, stamped, p), code);
  }

  lemma StepStale(args: Args, s: ChainState, p: ChainSnapshot)
    ensures
      var after := Step(args, s, p);
      var stale := if !IsStale(args, p) then 0 else (if Continues(s, p) then s.staleQuotePolls else 0) + 1;
      && after.staleQuotePolls == (if stale > 2 then 0 else stale)
      && Count(after.current.value.incidents, StaleQuoteHealth)
           == (if Continues(s, p) then Count(s.current.value.incidents, StaleQuoteHealth) else 0) + Times(stale > 2)
  {
    var stamped := Stamped(Entered(s, p), p);
    StampedKeepsAlarms(s, p, MarketMissing);
    ActedAlarms(args, stamped, p, MarketMissing);
    RaisedCounts(args, stamped, p, StaleQuoteHealth);
    CountConcat(stamped.current.value.incidents, StampedCodes(args, stamped, p), StaleQuoteHealth);
  }

  lemma ContinuesWithinCycle(args: Args, polls: seq<ChainSnapshot>, i: nat)
    requires i < |polls|
    ensures Continues(StateAfter(args, polls, i), polls[i]) <==> CycleStart(polls, i) < i
  {
    hide Step;
    if i > 0 {
      RecordFollowsHistory(args, polls, i - 1);
    }
  }

  lemma OverdueIsOverran(args: Args, polls: seq<ChainSnapshot>, i: nat, code: Code)
    requires i < |polls|
    ensures OverdueFor(OverdueAt(StampedAt(args, polls, i).current.value, polls[i]), code) == Overran(polls, i, code)
  {
    hide StateAfter, Stamped, Entered;
    RecordFollowsHistory(args, polls, i);
    var c := StampedAt(args, polls, i).current.value;
    assert MilestoneOf(c, OpenSeen) == FirstTime(polls, i, OpenSeen);
    assert MilestoneOf(c, QuotesSeen) == FirstTime(polls, i, QuotesSeen);
    assert MilestoneOf(c, ResolutionSeen) == FirstTime(polls, i, ResolutionSeen);
    assert MilestoneOf(c, ProposalSeen) == FirstTime(polls, i, ProposalSeen);
  }

  /** After every poll, each lag flag says whether its budget was overrun in this cycle, and the cycle's
      incidents hold that code once if it was and never otherwise. */
  lemma {:induction false} LagIncidentsExactly(args: Args, polls: seq<ChainSnapshot>, i: nat, code: Code)
    requires i < |polls| && IsLagCode(code)
    ensures
      var s := StateAfter(args, polls, i + 1);
      && LagFlag(s, code) == OverranSoFar(polls, i, code)
      && Count(s.current.value.incidents, code) == Times(OverranSoFar(polls, i, code))
  {
    hide Step, Continues, Overran;
    if i > 0 {
      LagIncidentsExactly(args, polls, i - 1, code);
    }
    ContinuesWithinCycle(args, polls, i);
    OverdueIsOverran(args, polls, i, code);
    StepCounts(args, StateAfter(args, polls, i), polls[i], code);
  }

  lemma NextThird(run: nat)
    ensures (if run % 3 + 1 > 2 then 0 else run % 3 + 1) == (run + 1) % 3
    ensures run % 3 + 1 > 2 <==> (run + 1) % 3 == 0
  {
  }

  /** After every poll, the stale counter is the length of the running stale run modulo three, and the cycle's
      incidents hold one stale alarm for every poll that completed a third. */
  lemma {:induction false} StaleIncidentsExactly(args: Args, polls: seq<ChainSnapshot>, i: nat)
    requires i < |polls|
    ensures
      var s := StateAfter(args, polls, i + 1);
      && s.staleQuotePolls == StaleRun(args, polls, i) % 3
      && Count(s.current.value.incidents, StaleQuoteHealth) == StaleAlarmsSoFar(args, polls, i)
  {
    hide Step, Continues;
    if i > 0 {
      StaleIncidentsExactly(args, polls, i - 1);
    }
    ContinuesWithinCycle(args, polls, i);
    var before, after := StateAfter(args, polls, i), StateAfter(args, polls, i + 1);
    var same := CycleStart(polls, i) < i;
    var run := if same then StaleRun(args, polls, i - 1) else 0;
    var raised := if same then StaleAlarmsSoFar(args, polls, i - 1) else 0;
    StaleStep(args, before, polls[i], after, same, run, raised);
  }

  lemma StaleStep(args: Args, before: ChainState, p: ChainSnapshot, after: ChainState, same: bool, run: nat, raised: nat)
    requires after == Step(args, before, p) && same == Continues(before, p)
    requires same ==> before.staleQuotePolls == run % 3 && Count(before.current.value.incidents, StaleQuoteHealth) == raised
    requires !same ==> run == raised == 0
    ensures
      var next := if IsStale(args, p) then run + 1 else 0;
      && after.staleQuotePolls == next % 3
      && Count(after.current.value.incidents, StaleQuoteHealth) == raised + Times(next > 0 && next % 3 == 0)
  {
    hide Step, IsStale;
    StepStale(args, before, p);
    NextThird(run);
  }

  lemma StampedKeepsAlarms(s: ChainState, p: ChainSnapshot, code: Code)
    ensures
      var stamped := Stamped(Entered(s, p), p);
      && LagFlag(stamped, code) == (Continues(s, p) && LagFlag(s, code))
      && stamped.staleQuotePolls == (if Continues(s, p) then s.staleQuotePolls else 0)
      && stamped.current.value.incidents == (if Continues(s, p) then s.current.value.incidents else [])
  {
  }

  lemma ActedAlarms(args: Args, s: ChainState, p: ChainSnapshot, code: Code)
    requires s.current.Some? && IsLagCode(code)
    ensures
      var acted := Acted(args, s, p);
      && LagFlag(acted, code) == (LagFlag(s, code) || OverdueFor(OverdueAt(s.current.value, p), code))
      && acted.staleQuotePolls == (if StaleCount(args, s, p) > 2 then 0 else StaleCount(args, s, p))
      && acted.current.value.incidents == s.current.value.incidents + StampedCodes(args, s, p)
  {
  }

  /** A run of k stale polls of one cycle raises exactly k / 3 stale alarms, counted from where the run began. */
  lemma {:induction false} StaleRunRaisesThirds(args: Args, polls: seq<ChainSnapshot>, i: nat)
    requires i < |polls|
    ensures
      var k := StaleRun(args, polls, i);
      StaleAlarmsSoFar(args, polls, i)
        == k / 3 + if CycleStart(polls, i) + k <= i then StaleAlarmsSoFar(args, polls, i - k) else 0
  {
    hide IsStale;
    var k := StaleRun(args, polls, i);
    if k > 0 && CycleStart(polls, i) < i {
      StaleRunRaisesThirds(args, polls, i - 1);
      assert k == StaleRun(args, polls, i - 1) + 1;
    }
  }
}
