/**
 The whole staged soak: every poll asks every chain, each answer goes to that chain's machine or counts as an
 incident, and at the end the cycle records fold into one verdict. `VerdictExactly` says what a pass means in
 terms of the answers alone; `PassIsSound` draws the lag guarantees from it.
 */
module StagedVerdict {
  import opened Wrappers
  import opened StagedMonitor
  import opened StagedHistory
  import opened StagedIncidents
  import opened StagedTrades

  const DEFAULT_STAGED_DURATION_MIN := 120

  /** One chain's answer to one poll; no snapshot when the fetch was rejected. */
  datatype Reply = Reply(chain: string, result: Option<ChainSnapshot>)

  /** The snapshots that one chain's machine saw, in order. */
  function PollsOf(replies: seq<Reply>, chain: string): seq<ChainSnapshot> {
    if replies == [] then []
    else
      var last := replies[|replies| - 1];
      PollsOf(replies[..|replies| - 1], chain)
      + if last.chain == chain && last.result.Some? then [last.result.value] else []
  }

  function FinalState(args: Args, polls: seq<ChainSnapshot>): ChainState {
    StateAfter(args, polls, |polls|)
  }

  function ReplyIncidents(args: Args, earlier: seq<Reply>, reply: Reply): seq<Incident> {
    if reply.result.None? then [Incident(reply.chain, SnapshotFailed)]
    else Logged(reply.chain, Raised(args, FinalState(args, PollsOf(earlier, reply.chain)), reply.result.value))
  }

  function IncidentLog(args: Args, replies: seq<Reply>): seq<Incident> {
    if replies == [] then []
    else
      var earlier := replies[..|replies| - 1];
      IncidentLog(args, earlier) + ReplyIncidents(args, earlier, replies[|replies| - 1])
  }

  // ---------------------------------------------------------------------------------------------
  // The verdict

  predicate LagsWithin(c: Cycle) {
    && (c.openAtMs.Some? ==> c.openAtMs.value - c.startedAtMs <= OPEN_LAG_BUDGET_MS)
    && (c.quotesAtMs.Some? && c.openAtMs.Some? ==> c.quotesAtMs.value - c.openAtMs.value <= QUOTE_LAG_BUDGET_MS)
    && (c.lockAtMs.Some? && c.betCloseTimeMs.Some? ==> c.lockAtMs.value - c.betCloseTimeMs.value <= LOCK_LAG_BUDGET_MS)
    && (c.proposalAtMs.Some? && c.resolutionAtMs.Some? ==>
          c.proposalAtMs.value - c.resolutionAtMs.value <= PROPOSAL_LAG_BUDGET_MS)
  }

  predicate IsCleared(c: Cycle) { c.trade.Some? && c.trade.value.clearedAtMs.Some? }

  function ClaimClears(cycles: seq<Cycle>): nat {
    if cycles == [] then 0 else ClaimClears(cycles[..|cycles| - 1]) + Times(IsCleared(cycles[|cycles| - 1]))
  }

  function RequiredClaims(args: Args): int {
    if args.durationMin >= DEFAULT_STAGED_DURATION_MIN then 3 else 0
  }

  /** A chain listed twice is summarised twice, so its claims count twice. */
  function Listed(chains: seq<string>, chain: string): nat {
    if chains == [] then 0 else Listed(chains[..|chains| - 1], chain) + Times(chains[|chains| - 1] == chain)
  }

  predicate Passes(args: Args, chains: seq<string>, replies: seq<Reply>) {
    && IncidentLog(args, replies) == []
    && forall chain :: chain in chains ==>
         var cycles := Closed(FinalState(args, PollsOf(replies, chain)));
         && (forall k :: 0 <= k < |cycles| ==> LagsWithin(cycles[k]))
         && Listed(chains, chain) * ClaimClears(cycles) >= RequiredClaims(args)
  }

  // ---------------------------------------------------------------------------------------------
  // The verdict in terms of the polls

  /** The last poll of a cycle. */
  predicate EndsCycle(polls: seq<ChainSnapshot>, i: nat)
    requires i < |polls|
  {
    i + 1 == |polls| || CycleStart(polls, i + 1) == i + 1
  }

  /** The milestones first shown up to poll i lie within their budgets. */
  predicate MilestonesWithin(polls: seq<ChainSnapshot>, i: nat)
    requires i < |polls|
  {
    var start := polls[CycleStart(polls, i)].fetchedAtMs;
    var open, quotes, lock := FirstTime(polls, i, OpenSeen), FirstTime(polls, i, QuotesSeen), FirstTime(polls, i, LockSeen);
    var resolution, proposal := FirstTime(polls, i, ResolutionSeen), FirstTime(polls, i, ProposalSeen);
    && (open.Some? ==> open.value - start <= OPEN_LAG_BUDGET_MS)
    && (quotes.Some? && open.Some? ==> quotes.value - open.value <= QUOTE_LAG_BUDGET_MS)
    && (lock.Some? && BetClose(polls, i).Some? ==> lock.value - BetClose(polls, i).value <= LOCK_LAG_BUDGET_MS)
    && (proposal.Some? && resolution.Some? ==> proposal.value - resolution.value <= PROPOSAL_LAG_BUDGET_MS)
  }

  predicate OverranAny(polls: seq<ChainSnapshot>, i: nat)
    requires i < |polls|
  {
    Overran(polls, i, MarketMissing) || Overran(polls, i, QuotesMissing)
    || Overran(polls, i, OpenAfterClose) || Overran(polls, i, ProposalMissing)
  }

  /** No budget is overrun at the poll, no stale run completes a third, and no trade or claim goes wrong. */
  predicate CleanPoll(args: Args, polls: seq<ChainSnapshot>, i: nat)
    requires i < |polls|
  {
    && !OverranAny(polls, i)
    && !StaleAlarm(args, polls, i)
    && !TradeGoesWrong(args, polls, i)
    && !ClaimGoesWrong(args, polls, i)
  }

  predicate RaisesNothing(args: Args, polls: seq<ChainSnapshot>, i: nat)
    requires i < |polls|
  {
    Raised(args, StateAfter(args, polls, i), polls[i]) == []
  }

  lemma {:induction false} NoneOverranSoFar(polls: seq<ChainSnapshot>, i: nat, code: Code)
    requires i < |polls|
    requires forall j :: 0 <= j <= i ==> !Overran(polls, j, code)
    ensures !OverranSoFar(polls, i, code)
  {
    if CycleStart(polls, i) < i {
      NoneOverranSoFar(polls, i - 1, code);
    }
  }

  lemma FlagsDown(args: Args, polls: seq<ChainSnapshot>, i: nat, code: Code)
    requires i < |polls| && IsLagCode(code)
    requires i > 0 ==> !OverranSoFar(polls, i - 1, code)
    ensures !LagFlag(StampedAt(args, polls, i), code)
  {
    hide Step, Entered, Stamped, OverranSoFar;
    StampedKeepsAlarms(StateAfter(args, polls, i), polls[i], code);
    if i > 0 {
      LagIncidentsExactly(args, polls, i - 1, code);
    }
  }

  lemma StaleCarried(args: Args, polls: seq<ChainSnapshot>, i: nat)
    requires i < |polls|
    ensures StampedAt(args, polls, i).staleQuotePolls
         == if CycleStart(polls, i) < i then StaleRun(args, polls, i - 1) % 3 else 0
  {
    hide Step, Entered, Stamped;
    StampedKeepsAlarms(StateAfter(args, polls, i), polls[i], MarketMissing);
    ContinuesWithinCycle(args, polls, i);
    if i > 0 {
      StaleIncidentsExactly(args, polls, i - 1);
    }
  }

  lemma StaleCountIsRun(args: Args, polls: seq<ChainSnapshot>, i: nat)
    requires i < |polls|
    ensures StaleCount(args, StampedAt(args, polls, i), polls[i]) > 2 <==> StaleAlarm(args, polls, i)
  {
    hide Step, Entered, Stamped;
    StaleCarried(args, polls, i);
    CountThirds(args, StampedAt(args, polls, i), polls, i, if CycleStart(polls, i) < i then StaleRun(args, polls, i - 1) else 0);
  }

  lemma CountThirds(args: Args, s: ChainState, polls: seq<ChainSnapshot>, i: nat, run: nat)
    requires i < |polls| && s.staleQuotePolls == run % 3
    requires run == if CycleStart(polls, i) < i then StaleRun(args, polls, i - 1) else 0
    ensures StaleCount(args, s, polls[i]) > 2 <==> StaleAlarm(args, polls, i)
  {
    NextThird(run);
  }

  lemma CodesEmpty(args: Args, s: ChainState, p: ChainSnapshot)
    requires s.current.Some?
    requires !s.openLagIncident && !s.quoteLagIncident && !s.lockLagIncident && !s.proposalLagIncident
    ensures
      var overdue := OverdueAt(s.current.value, p);
      StampedCodes(args, s, p) == [] <==>
        && !overdue.open && !overdue.quotes && !overdue.lock && !overdue.proposal
        && StaleCount(args, s, p) <= 2
        && ActionCodes(args, s.current.value, p) == []
  {
    var overdue := OverdueAt(s.current.value, p);
    assert |LagCodes(s, overdue)| == Times(overdue.open) + Times(overdue.quotes) + Times(overdue.lock) + Times(overdue.proposal);
  }

  /** With every earlier poll clean, a poll raises nothing exactly when it is clean itself. */
  lemma RaisesNothingExactly(args: Args, polls: seq<ChainSnapshot>, i: nat)
    requires i < |polls|
    requires forall j :: 0 <= j < i ==> CleanPoll(args, polls, j)
    ensures RaisesNothing(args, polls, i) <==> CleanPoll(args, polls, i)
  {
    hide StampedAt, CleanPoll, RaisesNothing, OverdueFor, Overran, OverranSoFar, StaleAlarm;
    forall code | IsLagCode(code)
      ensures !LagFlag(StampedAt(args, polls, i), code)
      ensures OverdueFor(OverdueAt(StampedAt(args, polls, i).current.value, polls[i]), code) == Overran(polls, i, code)
    {
      NoEarlierOverrun(args, polls, i, code);
      if i > 0 {
        NoneOverranSoFar(polls, i - 1, code);
      }
      FlagsDown(args, polls, i, code);
      OverdueIsOverran(args, polls, i, code);
    }
    StaleCountIsRun(args, polls, i);
    RecordFollowsTrade(args, polls, i);
    hide StateAfter, StaleCount, ActionCodes, TradeGoesWrong, ClaimGoesWrong, RecordsTrade;
    CleanIsEmpty(args, StampedAt(args, polls, i), polls, i);
  }

  lemma NoEarlierOverrun(args: Args, polls: seq<ChainSnapshot>, i: nat, code: Code)
    requires i < |polls| && IsLagCode(code)
    requires forall j :: 0 <= j < i ==> CleanPoll(args, polls, j)
    ensures forall j :: 0 <= j < i ==> !Overran(polls, j, code)
  {
    forall j | 0 <= j < i
      ensures !Overran(polls, j, code)
    {
      assert CleanPoll(args, polls, j);
    }
  }

  lemma CleanIsEmpty(args: Args, s: ChainState, polls: seq<ChainSnapshot>, i: nat)
    requires i < |polls| && s == StampedAt(args, polls, i)
    requires forall code :: IsLagCode(code) ==>
      !LagFlag(s, code) && OverdueFor(OverdueAt(s.current.value, polls[i]), code) == Overran(polls, i, code)
    requires StaleCount(args, s, polls[i]) > 2 <==> StaleAlarm(args, polls, i)
    requires ActionCodes(args, s.current.value, polls[i]) == [] <==>
      !TradeGoesWrong(args, polls, i) && !ClaimGoesWrong(args, polls, i)
    ensures RaisesNothing(args, polls, i) <==> CleanPoll(args, polls, i)
  {
    hide TradeGoesWrong, ClaimGoesWrong, Overran, StaleCount, StaleAlarm, ActionCodes, Entered, Stamped;
    assert RaisesNothing(args, polls, i) <==> StampedCodes(args, s, polls[i]) == [];
    hide RaisesNothing, StampedCodes, StampedAt, OverdueAt;
    assert IsLagCode(MarketMissing) && IsLagCode(QuotesMissing) && IsLagCode(OpenAfterClose) && IsLagCode(ProposalMissing);
    CodesEmpty(args, s, polls[i]);
  }

  predicate QuietRun(args: Args, polls: seq<ChainSnapshot>) {
    forall i :: 0 <= i < |polls| ==> RaisesNothing(args, polls, i)
  }

  predicate CleanRun(args: Args, polls: seq<ChainSnapshot>) {
    forall i :: 0 <= i < |polls| ==> CleanPoll(args, polls, i)
  }

  /** Two properties that agree wherever the second held so far hold everywhere together. */
  lemma {:induction false} AgreeUpTo(p: nat -> bool, q: nat -> bool, n: nat)
    requires forall i: nat :: i < n && (forall j: nat :: j < i ==> q(j)) ==> (p(i) <==> q(i))
    ensures (forall i: nat :: i < n ==> p(i)) <==> (forall i: nat :: i < n ==> q(i))
  {
    if n > 0 {
      AgreeUpTo(p, q, n - 1);
      if forall i: nat :: i < n - 1 ==> q(i) {
        assert p(n - 1) <==> q(n - 1);
      }
    }
  }

  lemma QuietIsClean(args: Args, polls: seq<ChainSnapshot>)
    ensures QuietRun(args, polls) <==> CleanRun(args, polls)
  {
    var p := (i: nat) => i < |polls| ==> RaisesNothing(args, polls, i);
    var q := (i: nat) => i < |polls| ==> CleanPoll(args, polls, i);
    forall i: nat | i < |polls| && (forall j: nat :: j < i ==> q(j))
      ensures p(i) <==> q(i)
    {
      forall j | 0 <= j < i
        ensures CleanPoll(args, polls, j)
      {
        assert q(j);
      }
      RaisesNothingExactly(args, polls, i);
    }
    AgreeUpTo(p, q, |polls|);
    if QuietRun(args, polls) {
      assert forall i: nat :: i < |polls| ==> p(i);
      forall i | 0 <= i < |polls|
        ensures CleanPoll(args, polls, i)
      {
        assert q(i);
      }
    }
    if CleanRun(args, polls) {
      assert forall i: nat :: i < |polls| ==> q(i);
      forall i | 0 <= i < |polls|
        ensures RaisesNothing(args, polls, i)
      {
        assert p(i);
      }
    }
  }

  // ---------------------------------------------------------------------------------------------
  // The cycle records

  predicate AllWithin(cycles: seq<Cycle>) { forall k :: 0 <= k < |cycles| ==> LagsWithin(cycles[k]) }

  lemma RecordedLags(s: ChainState, polls: seq<ChainSnapshot>, i: nat)
    requires i < |polls| && Records(s, polls, i)
    ensures LagsWithin(s.current.value) <==> MilestonesWithin(polls, i)
  {
    var c := s.current.value;
    assert MilestoneOf(c, OpenSeen) == FirstTime(polls, i, OpenSeen);
    assert MilestoneOf(c, QuotesSeen) == FirstTime(polls, i, QuotesSeen);
    assert MilestoneOf(c, LockSeen) == FirstTime(polls, i, LockSeen);
    assert MilestoneOf(c, ResolutionSeen) == FirstTime(polls, i, ResolutionSeen);
    assert MilestoneOf(c, ProposalSeen) == FirstTime(polls, i, ProposalSeen);
  }

  predicate EndsBefore(polls: seq<ChainSnapshot>, i: nat, n: nat)
    requires n <= |polls|
  {
    i + 1 < n && CycleStart(polls, i + 1) == i + 1
  }

  ghost predicate EndedWithin(polls: seq<ChainSnapshot>, n: nat)
    requires n <= |polls|
  {
    forall i: nat :: EndsBefore(polls, i, n) ==> MilestonesWithin(polls, i)
  }

  lemma StepCycles(args: Args, s: ChainState, p: ChainSnapshot)
    ensures Step(args, s, p).cycles == if Continues(s, p) then s.cycles else Closed(s)
  {
  }

  lemma AllWithinClosed(s: ChainState)
    ensures AllWithin(Closed(s)) <==> AllWithin(s.cycles) && (s.current.Some? ==> LagsWithin(s.current.value))
  {
    if s.current.Some? {
      assert Closed(s)[|s.cycles|] == s.current.value;
    }
    forall k | 0 <= k < |s.cycles|
      ensures Closed(s)[k] == s.cycles[k]
    {
    }
  }

  lemma NothingEnded(args: Args, polls: seq<ChainSnapshot>)
    ensures AllWithin(StateAfter(args, polls, 0).cycles) && EndedWithin(polls, 0)
  {
  }

  /** The closed records are within budget exactly when every cycle that has ended is. */
  lemma {:induction false} ClosedFollowsEnds(args: Args, polls: seq<ChainSnapshot>, n: nat)
    requires n <= |polls|
    ensures AllWithin(StateAfter(args, polls, n).cycles) <==> EndedWithin(polls, n)
  {
    hide Step, Records, EndedWithin, AllWithin, LagsWithin, MilestonesWithin;
    if n == 0 {
      NothingEnded(args, polls);
    } else {
      ClosedFollowsEnds(args, polls, n - 1);
      ContinuesWithinCycle(args, polls, n - 1);
      StepCycles(args, StateAfter(args, polls, n - 1), polls[n - 1]);
      AllWithinClosed(StateAfter(args, polls, n - 1));
      if n > 1 {
        RecordFollowsHistory(args, polls, n - 2);
        RecordedLags(StateAfter(args, polls, n - 1), polls, n - 2);
      }
      EndedOneMore(polls, n);
    }
  }

  lemma EndedOneMore(polls: seq<ChainSnapshot>, n: nat)
    requires 0 < n <= |polls|
    ensures EndedWithin(polls, n) <==>
      EndedWithin(polls, n - 1) && (n > 1 && CycleStart(polls, n - 1) == n - 1 ==> MilestonesWithin(polls, n - 2))
  {
    forall i: nat | EndsBefore(polls, i, n)
      ensures EndsBefore(polls, i, n - 1) || i == n - 2
    {
    }
    if n > 1 && CycleStart(polls, n - 1) == n - 1 {
      assert EndsBefore(polls, n - 2, n);
    }
    forall i: nat | EndsBefore(polls, i, n - 1)
      ensures EndsBefore(polls, i, n)
    {
    }
  }

  lemma FinalCyclesWithin(args: Args, polls: seq<ChainSnapshot>)
    ensures AllWithin(Closed(FinalState(args, polls)))
      <==> forall i :: 0 <= i < |polls| && EndsCycle(polls, i) ==> MilestonesWithin(polls, i)
  {
    hide Step, Records;
    var n := |polls|;
    ClosedFollowsEnds(args, polls, n);
    AllWithinClosed(FinalState(args, polls));
    if n > 0 {
      RecordFollowsHistory(args, polls, n - 1);
      RecordedLags(FinalState(args, polls), polls, n - 1);
      assert EndsCycle(polls, n - 1);
    }
    forall i | 0 <= i < n
      ensures EndsCycle(polls, i) <==> EndsBefore(polls, i, n) || i == n - 1
    {
    }
  }

  /** How many of the cycles that end among the first n polls have a cleared claim by their last poll. */
  function ClearedCycles(args: Args, polls: seq<ChainSnapshot>, n: nat): nat
    requires n <= |polls|
  {
    if n == 0 then 0
    else ClearedCycles(args, polls, n - 1) + Times(EndsCycle(polls, n - 1) && ClearedBy(args, polls, n - 1))
  }

  lemma ClaimClearsOneMore(cycles: seq<Cycle>, c: Cycle)
    ensures ClaimClears(cycles + [c]) == ClaimClears(cycles) + Times(IsCleared(c))
  {
    assert (cycles + [c])[..|cycles|] == cycles;
  }

  lemma NothingClosed(args: Args, polls: seq<ChainSnapshot>)
    requires |polls| > 0
    ensures StateAfter(args, polls, 1).cycles == []
  {
    StepCycles(args, StateAfter(args, polls, 0), polls[0]);
  }

  /** The cleared claims of the closed records are those of the cycles that have ended. */
  lemma {:induction false} ClosedClearsFollowEnds(args: Args, polls: seq<ChainSnapshot>, n: nat)
    requires 0 < n <= |polls|
    ensures ClaimClears(StateAfter(args, polls, n).cycles) == ClearedCycles(args, polls, n - 1)
  {
    hide Step, ClearedBy, IsCleared;
    if n == 1 {
      NothingClosed(args, polls);
    } else {
      hide ClaimClears, StateAfter, EndsCycle;
      ClosedClearsFollowEnds(args, polls, n - 1);
      ClosedClearsStep(args, polls, n);
      EndsAtNextStart(polls, n - 2);
    }
  }

  lemma EndsAtNextStart(polls: seq<ChainSnapshot>, i: nat)
    requires i + 1 < |polls|
    ensures EndsCycle(polls, i) <==> CycleStart(polls, i + 1) == i + 1
  {
  }

  lemma ClosedClearsStep(args: Args, polls: seq<ChainSnapshot>, n: nat)
    requires 1 < n <= |polls|
    ensures ClaimClears(StateAfter(args, polls, n).cycles)
         == ClaimClears(StateAfter(args, polls, n - 1).cycles)
            + Times(CycleStart(polls, n - 1) == n - 1 && ClearedBy(args, polls, n - 2))
  {
    hide Step, ClearedBy, IsCleared, ClaimClears, CycleStart;
    var before := StateAfter(args, polls, n - 1);
    ContinuesWithinCycle(args, polls, n - 1);
    StepCycles(args, before, polls[n - 1]);
    hide Continues;
    ClaimClearsOneMore(before.cycles, before.current.value);
    ClearedRecord(args, polls, n - 2);
  }

  lemma ClearedRecord(args: Args, polls: seq<ChainSnapshot>, i: nat)
    requires i < |polls|
    ensures IsCleared(StateAfter(args, polls, i + 1).current.value) <==> ClearedBy(args, polls, i)
  {
    ClearedFollowsPolls(args, polls, i);
  }

  lemma FinalClears(args: Args, polls: seq<ChainSnapshot>)
    ensures ClaimClears(Closed(FinalState(args, polls))) == ClearedCycles(args, polls, |polls|)
  {
    hide Step, ClearedBy, IsCleared;
    if polls != [] {
      var final := FinalState(args, polls);
      ClosedClearsFollowEnds(args, polls, |polls|);
      ClaimClearsOneMore(final.cycles, final.current.value);
      ClearedRecord(args, polls, |polls| - 1);
    }
  }

  // ---------------------------------------------------------------------------------------------
  // The incident log

  lemma {:induction false} StateOfPrefix(args: Args, polls: seq<ChainSnapshot>, longer: seq<ChainSnapshot>, n: nat)
    requires n <= |polls| && polls <= longer
    ensures StateAfter(args, polls, n) == StateAfter(args, longer, n)
  {
    hide Step;
    if n > 0 {
      StateOfPrefix(args, polls, longer, n - 1);
    }
  }

  predicate AllArrived(replies: seq<Reply>) { forall k :: 0 <= k < |replies| ==> replies[k].result.Some? }

  ghost predicate AllQuiet(args: Args, replies: seq<Reply>) { forall chain: string :: QuietRun(args, PollsOf(replies, chain)) }

  lemma QuietOneMore(args: Args, polls: seq<ChainSnapshot>, p: ChainSnapshot)
    ensures QuietRun(args, polls + [p]) <==> QuietRun(args, polls) && Raised(args, FinalState(args, polls), p) == []
  {
    var longer := polls + [p];
    forall i | 0 <= i <= |polls|
      ensures i < |polls| ==> (RaisesNothing(args, longer, i) <==> RaisesNothing(args, polls, i))
      ensures i == |polls| ==> (RaisesNothing(args, longer, i) <==> Raised(args, FinalState(args, polls), p) == [])
    {
      StateOfPrefix(args, polls, longer, i);
    }
    assert QuietRun(args, longer) ==> RaisesNothing(args, longer, |polls|);
  }

  lemma NothingToRaise(args: Args)
    ensures AllQuiet(args, [])
  {
    assert forall chain: string :: PollsOf([], chain) == [];
  }

  /** No incident was logged exactly when every reply arrived and no chain's machine raised anything. */
  lemma {:induction false} LogEmptyExactly(args: Args, replies: seq<Reply>)
    ensures IncidentLog(args, replies) == [] <==> AllArrived(replies) && AllQuiet(args, replies)
  {
    hide Step, Raised, RaisesNothing, QuietRun, AllQuiet, FinalState;
    if replies == [] {
      NothingToRaise(args);
    } else {
      var earlier, last := replies[..|replies| - 1], replies[|replies| - 1];
      LogEmptyExactly(args, earlier);
      assert AllArrived(replies) <==> AllArrived(earlier) && last.result.Some?;
      if last.result.Some? {
        QuietOneMore(args, PollsOf(earlier, last.chain), last.result.value);
        QuietAfterReply(args, replies);
      }
    }
  }

  lemma QuietAfterReply(args: Args, replies: seq<Reply>)
    requires replies != [] && replies[|replies| - 1].result.Some?
    ensures
      var earlier, last := replies[..|replies| - 1], replies[|replies| - 1];
      AllQuiet(args, replies) <==>
        AllQuiet(args, earlier) && Raised(args, FinalState(args, PollsOf(earlier, last.chain)), last.result.value) == []
  {
    hide Step, Raised, FinalState;
    var earlier, last := replies[..|replies| - 1], replies[|replies| - 1];
    QuietOneMore(args, PollsOf(earlier, last.chain), last.result.value);
    forall chain: string
      ensures chain != last.chain ==> PollsOf(replies, chain) == PollsOf(earlier, chain)
    {
    }
    assert PollsOf(replies, last.chain) == PollsOf(earlier, last.chain) + [last.result.value];
    if AllQuiet(args, replies) {
      assert QuietRun(args, PollsOf(replies, last.chain));
      forall chain: string
        ensures QuietRun(args, PollsOf(earlier, chain))
      {
        assert QuietRun(args, PollsOf(replies, chain));
      }
    }
    if AllQuiet(args, earlier) && Raised(args, FinalState(args, PollsOf(earlier, last.chain)), last.result.value) == [] {
      forall chain: string
        ensures QuietRun(args, PollsOf(replies, chain))
      {
        assert QuietRun(args, PollsOf(earlier, chain));
      }
    }
  }

  // ---------------------------------------------------------------------------------------------
  // Main results

  predicate OnlyListed(chains: seq<string>, replies: seq<Reply>) {
    forall k :: 0 <= k < |replies| ==> replies[k].chain in chains
  }

  /** What a pass asks of one chain's polls. */
  predicate ChainPasses(args: Args, chains: seq<string>, chain: string, polls: seq<ChainSnapshot>) {
    && CleanRun(args, polls)
    && (forall i :: 0 <= i < |polls| && EndsCycle(polls, i) ==> MilestonesWithin(polls, i))
    && Listed(chains, chain) * ClearedCycles(args, polls, |polls|) >= RequiredClaims(args)
  }

  lemma {:induction false} UnlistedHasNoPolls(chains: seq<string>, replies: seq<Reply>, chain: string)
    requires OnlyListed(chains, replies) && chain !in chains
    ensures PollsOf(replies, chain) == []
  {
    if replies != [] {
      UnlistedHasNoPolls(chains, replies[..|replies| - 1], chain);
      assert replies[|replies| - 1].chain in chains;
    }
  }

  lemma UnlistedIsClean(args: Args, chains: seq<string>, replies: seq<Reply>, chain: string)
    requires OnlyListed(chains, replies) && chain !in chains
    ensures CleanRun(args, PollsOf(replies, chain))
  {
    UnlistedHasNoPolls(chains, replies, chain);
  }

  /** A soak passes exactly when every fetch arrived and, for every chain asked, each poll is clean, each cycle's
      milestones lie within their budgets, and enough cycles ended with a cleared claim. Every part of the right-hand
      side is read off the polls. */
  lemma VerdictExactly(args: Args, chains: seq<string>, replies: seq<Reply>)
    requires OnlyListed(chains, replies)
    ensures Passes(args, chains, replies) <==>
      && AllArrived(replies)
      && forall chain :: chain in chains ==> ChainPasses(args, chains, chain, PollsOf(replies, chain))
  {
    hide FinalState, QuietRun, CleanRun, MilestonesWithin, EndsCycle, Listed, ClaimClears, ClearedCycles, LagsWithin;
    LogEmptyExactly(args, replies);
    forall chain: string
      ensures QuietRun(args, PollsOf(replies, chain)) <==> CleanRun(args, PollsOf(replies, chain))
      ensures chain !in chains ==> CleanRun(args, PollsOf(replies, chain))
      ensures ClaimClears(Closed(FinalState(args, PollsOf(replies, chain))))
           == ClearedCycles(args, PollsOf(replies, chain), |PollsOf(replies, chain)|)
      ensures AllWithin(Closed(FinalState(args, PollsOf(replies, chain)))) <==>
        forall i :: 0 <= i < |PollsOf(replies, chain)| && EndsCycle(PollsOf(replies, chain), i)
          ==> MilestonesWithin(PollsOf(replies, chain), i)
    {
      QuietIsClean(args, PollsOf(replies, chain));
      FinalCyclesWithin(args, PollsOf(replies, chain));
      FinalClears(args, PollsOf(replies, chain));
      if chain !in chains {
        UnlistedIsClean(args, chains, replies, chain);
      }
    }
  }

  /** The guarantees of a pass at one poll: past a lag budget its milestone has been seen within that budget, and
      past the close plus its budget the market is neither open nor quoted. */
  predicate BudgetsMet(polls: seq<ChainSnapshot>, i: nat)
    requires i < |polls|
  {
    var now, start := polls[i].fetchedAtMs, polls[CycleStart(polls, i)].fetchedAtMs;
    var open, quotes := FirstTime(polls, i, OpenSeen), FirstTime(polls, i, QuotesSeen);
    var resolution, proposal := FirstTime(polls, i, ResolutionSeen), FirstTime(polls, i, ProposalSeen);
    && (now - start > OPEN_LAG_BUDGET_MS ==> open.Some? && open.value - start <= OPEN_LAG_BUDGET_MS)
    && (open.Some? && now - open.value > QUOTE_LAG_BUDGET_MS ==>
          quotes.Some? && quotes.value - open.value <= QUOTE_LAG_BUDGET_MS)
    && (resolution.Some? && now - resolution.value > PROPOSAL_LAG_BUDGET_MS ==>
          proposal.Some? && proposal.value - resolution.value <= PROPOSAL_LAG_BUDGET_MS)
    && (BetClose(polls, i).Some? && now > BetClose(polls, i).value + LOCK_LAG_BUDGET_MS ==>
          !IsOpen(polls[i]) && !HasAnyQuote(HealthOf(polls[i])))
  }

  function CycleEnd(polls: seq<ChainSnapshot>, i: nat): (e: nat)
    requires i < |polls|
    ensures i <= e < |polls| && EndsCycle(polls, e) && CycleStart(polls, e) == CycleStart(polls, i)
    decreases |polls| - i
  {
    if EndsCycle(polls, i) then i else CycleEnd(polls, i + 1)
  }

  lemma {:induction false} FirstTimeStays(polls: seq<ChainSnapshot>, i: nat, j: nat, m: Milestone)
    requires i <= j < |polls| && CycleStart(polls, i) == CycleStart(polls, j)
    ensures FirstTime(polls, i, m).Some? ==> FirstTime(polls, j, m) == FirstTime(polls, i, m)
  {
    if i < j {
      assert CycleStart(polls, j) < j;
      FirstTimeStays(polls, i, j - 1, m);
    }
  }

  lemma CleanAndWithinMeetsBudgets(args: Args, polls: seq<ChainSnapshot>, i: nat)
    requires i < |polls| && CleanPoll(args, polls, i) && MilestonesWithin(polls, CycleEnd(polls, i))
    ensures BudgetsMet(polls, i)
  {
    hide BetClose, FirstTime, StaleAlarm, TradeGoesWrong, ClaimGoesWrong, CycleStart;
    var e := CycleEnd(polls, i);
    FirstTimeStays(polls, i, e, OpenSeen);
    FirstTimeStays(polls, i, e, QuotesSeen);
    FirstTimeStays(polls, i, e, ResolutionSeen);
    FirstTimeStays(polls, i, e, ProposalSeen);
    FirstTimeSome(polls, i, OpenSeen);
    FirstTimeSome(polls, i, QuotesSeen);
    FirstTimeSome(polls, i, ResolutionSeen);
    FirstTimeSome(polls, i, ProposalSeen);
  }

  lemma FirstTimeSome(polls: seq<ChainSnapshot>, i: nat, m: Milestone)
    requires i < |polls|
    ensures FirstTime(polls, i, m).None? <==> FirstShowing(polls, i, m).None?
  {
  }

  /** Soundness of the verdict, over the answers alone: if the soak passes, every fetch arrived, and at every poll
      of every chain the open, quote, proposal and lock budgets are met. Fetch times need not be in order. */
  lemma PassIsSound(args: Args, chains: seq<string>, replies: seq<Reply>)
    requires OnlyListed(chains, replies) && Passes(args, chains, replies)
    ensures AllArrived(replies)
    ensures forall chain, i: nat :: chain in chains && i < |PollsOf(replies, chain)| ==> BudgetsMet(PollsOf(replies, chain), i)
  {
    VerdictExactly(args, chains, replies);
    hide BudgetsMet, CleanPoll, MilestonesWithin, Passes, PollsOf, Listed, ClearedCycles, FinalState;
    forall chain, i: nat | chain in chains && i < |PollsOf(replies, chain)|
      ensures BudgetsMet(PollsOf(replies, chain), i)
    {
      var polls := PollsOf(replies, chain);
      assert ChainPasses(args, chains, chain, polls);
      CleanAndWithinMeetsBudgets(args, polls, i);
    }
  }

  // ---------------------------------------------------------------------------------------------
  // The run

  function RowReplies(chains: seq<string>, row: seq<Option<ChainSnapshot>>): (r: seq<Reply>)
    requires |row| == |chains|
    ensures |r| == |chains|
  {
    seq(|chains|, i requires 0 <= i < |chains| => Reply(chains[i], row[i]))
  }

  predicate Complete(chains: seq<string>, polls: seq<seq<Option<ChainSnapshot>>>) {
    forall k :: 0 <= k < |polls| ==> |polls[k]| == |chains|
  }

  /** All replies of a run in the order in which they are processed: poll by poll, chain by chain. */
  function AllReplies(chains: seq<string>, polls: seq<seq<Option<ChainSnapshot>>>): seq<Reply>
    requires Complete(chains, polls)
  {
    if polls == [] then [] else AllReplies(chains, polls[..|polls| - 1]) + RowReplies(chains, polls[|polls| - 1])
  }

  lemma {:induction false} RunsOnlyAskListed(chains: seq<string>, polls: seq<seq<Option<ChainSnapshot>>>)
    requires Complete(chains, polls)
    ensures OnlyListed(chains, AllReplies(chains, polls))
  {
    if polls != [] {
      RunsOnlyAskListed(chains, polls[..|polls| - 1]);
    }
  }

  lemma {:induction false} PollsOfConcat(first: seq<Reply>, second: seq<Reply>, chain: string)
    ensures PollsOf(first + second, chain) == PollsOf(first, chain) + PollsOf(second, chain)
  {
    if second == [] {
      assert first + second == first;
    } else {
      assert (first + second)[..|first + second| - 1] == first + second[..|second| - 1];
      PollsOfConcat(first, second[..|second| - 1], chain);
    }
  }

  lemma {:induction false} RowAnswers(chains: seq<string>, row: seq<Option<ChainSnapshot>>, chain: string)
    requires |row| == |chains| && forall i :: 0 <= i < |row| ==> row[i].Some?
    ensures |PollsOf(RowReplies(chains, row), chain)| == Listed(chains, chain)
  {
    if chains != [] {
      var n := |chains| - 1;
      RowAnswers(chains[..n], row[..n], chain);
      assert RowReplies(chains, row)[..n] == RowReplies(chains[..n], row[..n]);
    }
  }

  lemma ArrivedSplits(first: seq<Reply>, second: seq<Reply>)
    ensures AllArrived(first + second) <==> AllArrived(first) && AllArrived(second)
  {
    forall k | 0 <= k < |first|
      ensures (first + second)[k] == first[k]
    {
    }
    forall k | 0 <= k < |second|
      ensures (first + second)[|first| + k] == second[k]
    {
    }
  }

  /** In a passing run every chain's machine processed every poll, as often as the chain is listed. */
  lemma {:induction false} EveryPollProcessed(chains: seq<string>, polls: seq<seq<Option<ChainSnapshot>>>, chain: string)
    requires Complete(chains, polls) && AllArrived(AllReplies(chains, polls))
    ensures |PollsOf(AllReplies(chains, polls), chain)| == |polls| * Listed(chains, chain)
  {
    hide PollsOf, AllArrived, Listed;
    if polls == [] {
      NoReplies(chain);
    } else {
      var n := |polls| - 1;
      var earlier, row := AllReplies(chains, polls[..n]), RowReplies(chains, polls[n]);
      ArrivedSplits(earlier, row);
      EveryPollProcessed(chains, polls[..n], chain);
      RowArrived(chains, polls[n]);
      RowAnswers(chains, polls[n], chain);
      PollsOfConcat(earlier, row, chain);
      assert |polls| * Listed(chains, chain) == n * Listed(chains, chain) + Listed(chains, chain);
    }
  }

  lemma NoReplies(chain: string)
    ensures PollsOf([], chain) == []
  {
  }

  lemma RowArrived(chains: seq<string>, row: seq<Option<ChainSnapshot>>)
    requires |row| == |chains| && AllArrived(RowReplies(chains, row))
    ensures forall i :: 0 <= i < |row| ==> row[i].Some?
  {
    forall i | 0 <= i < |row|
      ensures row[i].Some?
    {
      assert RowReplies(chains, row)[i].result == row[i];
    }
  }
}
