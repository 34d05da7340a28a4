/**
 The staged machine against the bare history of polls. Everything here is read off the polls themselves: where a
 poll's cycle starts, which poll first showed a milestone, which polls were overdue or stale. The lemmas show
 that after every poll the machine's record says exactly that.
 */
module StagedHistory {
  import opened Wrappers
  import opened StagedMonitor

  /** State after the first n polls, and the codes raised by them. */
  function StateAfter(args: Args, polls: seq<ChainSnapshot>, n: nat): ChainState
    requires n <= |polls|
  {
    if n == 0 then INITIAL_STATE else Step(args, StateAfter(args, polls, n - 1), polls[n - 1])
  }

  /** Index of the first poll of the run of equal duel keys that poll i belongs to. */
  function CycleStart(polls: seq<ChainSnapshot>, i: nat): (s: nat)
    requires i < |polls|
    ensures s <= i
  {
    if i > 0 && CurrentDuelKey(polls[i - 1]) == CurrentDuelKey(polls[i]) then CycleStart(polls, i - 1) else i
  }

  /** The bet close time in force at poll i. */
  function BetClose(polls: seq<ChainSnapshot>, i: nat): Option<int>
    requires i < |polls|
  {
    OrElse(polls[i].activeBetCloseTime,
           if CycleStart(polls, i) < i then BetClose(polls, i - 1) else polls[i].statusBetCloseTime)
  }

  datatype Milestone = OpenSeen | QuotesSeen | ResolutionSeen | LockSeen | ProposalSeen | TerminalSeen

  predicate Shows(polls: seq<ChainSnapshot>, i: nat, m: Milestone)
    requires i < |polls|
  {
    match m
    case OpenSeen => IsOpen(polls[i])
    case QuotesSeen => IsQuoted(polls[i])
    case ResolutionSeen => CurrentPhase(polls[i]) == "RESOLUTION"
    case LockSeen => BetClose(polls, i).Some? && !IsOpen(polls[i])
    case ProposalSeen => ProposalLifecycle(Lifecycle(polls[i]))
    case TerminalSeen => TerminalLifecycle(Lifecycle(polls[i]))
  }

  /** The first poll of i's cycle, up to i, that shows the milestone. */
  function FirstShowing(polls: seq<ChainSnapshot>, i: nat, m: Milestone): (first: Option<nat>)
    requires i < |polls|
    ensures first.Some? ==>
      && CycleStart(polls, i) <= first.value <= i
      && CycleStart(polls, first.value) == CycleStart(polls, i)
      && Shows(polls, first.value, m)
      && forall j :: CycleStart(polls, i) <= j < first.value ==> !Shows(polls, j, m)
    ensures first.None? ==> forall j :: CycleStart(polls, i) <= j <= i ==> !Shows(polls, j, m)
  {
    var earlier := if CycleStart(polls, i) < i then FirstShowing(polls, i - 1, m) else None;
    if earlier.Some? then earlier else if Shows(polls, i, m) then Some(i) else None
  }

  function TimeAt(polls: seq<ChainSnapshot>, i: Option<nat>): Option<int>
    requires i.Some? ==> i.value < |polls|
  {
    if i.Some? then Some(polls[i.value].fetchedAtMs) else None
  }

  function FirstTime(polls: seq<ChainSnapshot>, i: nat, m: Milestone): Option<int>
    requires i < |polls|
  {
    TimeAt(polls, FirstShowing(polls, i, m))
  }

  function MilestoneOf(c: Cycle, m: Milestone): Option<int> {
    match m
    case OpenSeen => c.openAtMs
    case QuotesSeen => c.quotesAtMs
    case ResolutionSeen => c.resolutionAtMs
    case LockSeen => c.lockAtMs
    case ProposalSeen => c.proposalAtMs
    case TerminalSeen => c.terminalAtMs
  }

  /** The running record describes the polls of the cycle that ends at poll i. */
  predicate Records(s: ChainState, polls: seq<ChainSnapshot>, i: nat)
    requires i < |polls|
  {
    && s.current.Some?
    && s.current.value.duelKey == CurrentDuelKey(polls[i])
    && s.current.value.duelId == polls[CycleStart(polls, i)].activeDuelId
    && s.current.value.startedAtMs == polls[CycleStart(polls, i)].fetchedAtMs
    && s.current.value.betCloseTimeMs == BetClose(polls, i)
    && s.lastPhase == CurrentPhase(polls[i])
    && (forall m: Milestone :: MilestoneOf(s.current.value, m) == FirstTime(polls, i, m))
  }

  /** The cycle record as stamped at poll i, before alarms and trades. */
  function StampedAt(args: Args, polls: seq<ChainSnapshot>, i: nat): (r: ChainState)
    requires i < |polls|
    ensures r.current.Some?
  {
    Stamped(Entered(StateAfter(args, polls, i), polls[i]), polls[i])
  }

  /** What entering poll i leaves of the record: the earlier stamps of the same cycle, or none. */
  lemma EnteredCarriesHistory(args: Args, polls: seq<ChainSnapshot>, i: nat, m: Milestone)
    requires i < |polls|
    requires i > 0 ==> Records(StateAfter(args, polls, i), polls, i - 1)
    ensures
      var before := StateAfter(args, polls, i);
      var entered := Entered(before, polls[i]);
      var c := entered.current.value;
      && (Continues(before, polls[i]) <==> CycleStart(polls, i) < i)
      && c.duelKey == CurrentDuelKey(polls[i])
      && c.duelId == polls[CycleStart(polls, i)].activeDuelId
      && c.startedAtMs == polls[CycleStart(polls, i)].fetchedAtMs
      && c.betCloseTimeMs == BetClose(polls, i)
      && entered.lastPhase == (if CycleStart(polls, i) < i then CurrentPhase(polls[i - 1]) else "")
      && MilestoneOf(c, m) == (if CycleStart(polls, i) < i then FirstTime(polls, i - 1, m) else None)
  {
    var before := StateAfter(args, polls, i);
    assert Continues(before, polls[i]) <==> CycleStart(polls, i) < i;
    if CycleStart(polls, i) < i {
      assert MilestoneOf(before.current.value, m) == FirstTime(polls, i - 1, m);
    }
  }

  /** Whether the machine takes the poll to show the milestone: the resolution phase counts only on a change. */
  predicate StampsNow(s: ChainState, p: ChainSnapshot, m: Milestone)
    requires s.current.Some?
  {
    match m
    case OpenSeen => IsOpen(p)
    case QuotesSeen => IsQuoted(p)
    case ResolutionSeen => CurrentPhase(p) != s.lastPhase && CurrentPhase(p) == "RESOLUTION"
    case LockSeen => s.current.value.betCloseTimeMs.Some? && !IsOpen(p)
    case ProposalSeen => ProposalLifecycle(Lifecycle(p))
    case TerminalSeen => TerminalLifecycle(Lifecycle(p))
  }

  lemma StampedMilestone(s: ChainState, p: ChainSnapshot, m: Milestone)
    requires s.current.Some?
    ensures MilestoneOf(Stamped(s, p).current.value, m)
         == Stamp(MilestoneOf(s.current.value, m), StampsNow(s, p, m), p.fetchedAtMs)
  {
  }

  lemma FirstTimeUnfolds(polls: seq<ChainSnapshot>, i: nat, m: Milestone)
    requires i < |polls|
    ensures FirstTime(polls, i, m)
         == Stamp(if CycleStart(polls, i) < i then FirstTime(polls, i - 1, m) else None, Shows(polls, i, m), polls[i].fetchedAtMs)
  {
  }

  lemma StampIsFirst(args: Args, polls: seq<ChainSnapshot>, i: nat, m: Milestone)
    requires i < |polls|
    requires i > 0 ==> Records(StateAfter(args, polls, i), polls, i - 1)
    ensures MilestoneOf(StampedAt(args, polls, i).current.value, m) == FirstTime(polls, i, m)
  {
    var entered := Entered(StateAfter(args, polls, i), polls[i]);
    EnteredCarriesHistory(args, polls, i, m);
    StampedMilestone(entered, polls[i], m);
    FirstTimeUnfolds(polls, i, m);
    if StampsNow(entered, polls[i], m) != Shows(polls, i, m) {
      assert m.ResolutionSeen? && Shows(polls, i, m);
      assert CycleStart(polls, i) < i && Shows(polls, i - 1, m);
    }
  }

  /** After every poll, the running record says which duel its cycle shows, when it started, when bets close, and when each milestone
      was first shown in it. */
  lemma {:induction false} RecordFollowsHistory(args: Args, polls: seq<ChainSnapshot>, i: nat)
    requires i < |polls|
    ensures Records(StateAfter(args, polls, i + 1), polls, i)
    ensures Records(StampedAt(args, polls, i), polls, i)
  {
    hide Acted, BetClose, FirstTime;
    if i > 0 {
      RecordFollowsHistory(args, polls, i - 1);
    }
    var stamped := StampedAt(args, polls, i);
    EnteredCarriesHistory(args, polls, i, OpenSeen);
    forall m: Milestone
      ensures MilestoneOf(stamped.current.value, m) == FirstTime(polls, i, m)
    {
      StampIsFirst(args, polls, i, m);
    }
    ActingKeepsRecord(args, stamped, polls, i);
  }

  lemma ActingKeepsRecord(args: Args, s: ChainState, polls: seq<ChainSnapshot>, i: nat)
    requires i < |polls| && Records(s, polls, i)
    ensures Records(Acted(args, s, polls[i]), polls, i)
  {
    hide FirstTime, BetClose, CurrentPhase, CurrentDuelKey, StampedCodes, StaleCount;
    forall m: Milestone
      ensures MilestoneOf(Acted(args, s, polls[i]).current.value, m) == MilestoneOf(s.current.value, m)
    {
    }
  }
}
