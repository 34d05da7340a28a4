/**
 What the staged monitor's results say about the fields of the snapshots themselves, in plain comparisons and with
 the budgets as numbers: which polls count as open, quoted, proposed or terminal, and what a pass rules out.
 */
module StagedFields {
  import opened Wrappers
  import opened StagedMonitor
  import opened StagedHistory
  import opened StagedIncidents
  import opened StagedTrades
  import opened StagedVerdict

  // ---------------------------------------------------------------------------------------------
  // One poll

  /** The status chain's lifecycle, when it has one, else the market's. */
  predicate LifecycleIs(p: ChainSnapshot, status: string)
    requires status != "UNKNOWN"
  {
    p.statusLifecycle == Some(status) || (p.statusLifecycle.None? && p.marketLifecycle == Some(status))
  }

  /** The health report that counts: the status chain's, when it has one, else the bot's. */
  predicate Reports(p: ChainSnapshot, h: Health) {
    p.statusHealth == Some(h) || (p.statusHealth.None? && p.botHealth == Some(h))
  }

  predicate QuotesBid(h: Health) { h.bidPrice.Some? && h.bidUnits.Some? && h.bidUnits.value > 0.0 }

  predicate QuotesAsk(h: Health) { h.askPrice.Some? && h.askUnits.Some? && h.askUnits.value > 0.0 }

  predicate QuotesBothSides(h: Health) {
    QuotesBid(h) && QuotesAsk(h) && h.bidPrice.value > 0.0 && h.askPrice.value < 1000.0
  }

  /** A poll that shows the market open with quotes on both sides. */
  ghost predicate ShowsQuotes(p: ChainSnapshot) {
    LifecycleIs(p, "OPEN") && exists h :: Reports(p, h) && QuotesBothSides(h)
  }

  /** A poll of an open market whose quotes are older than two polling intervals. */
  ghost predicate ShowsOldQuotes(args: Args, p: ChainSnapshot) {
    LifecycleIs(p, "OPEN") &&
    exists h :: Reports(p, h) && h.quoteAgeMs.Some? && h.quoteAgeMs.value > 2 * args.pollMs
  }

  lemma LifecycleReads(p: ChainSnapshot, status: string)
    requires status != "UNKNOWN"
    ensures Lifecycle(p) == status <==> LifecycleIs(p, status)
  {
  }

  lemma HealthReads(p: ChainSnapshot, h: Health)
    ensures HealthOf(p) == Some(h) <==> Reports(p, h)
  {
  }

  /** What the monitor takes for an open, quoted, one-sidedly quoted or stale poll, in terms of the fields. */
  lemma PollReads(args: Args, p: ChainSnapshot)
    ensures IsOpen(p) <==> LifecycleIs(p, "OPEN")
    ensures IsQuoted(p) <==> ShowsQuotes(p)
    ensures HasAnyQuote(HealthOf(p)) <==> exists h :: Reports(p, h) && (QuotesBid(h) || QuotesAsk(h))
    ensures IsStale(args, p) <==> ShowsOldQuotes(args, p)
  {
    LifecycleReads(p, "OPEN");
    hide LifecycleIs, Lifecycle;
    forall h
      ensures HealthOf(p) == Some(h) <==> Reports(p, h)
    {
      HealthReads(p, h);
    }
    hide Reports, HealthOf;
    if HealthOf(p).Some? {
      assert Reports(p, HealthOf(p).value);
    }
  }

  /** The proposal and terminal states. */
  lemma OutcomeReads(p: ChainSnapshot)
    ensures ProposalLifecycle(Lifecycle(p)) <==>
      LifecycleIs(p, "PROPOSED") || LifecycleIs(p, "CHALLENGED") || LifecycleIs(p, "RESOLVED") || LifecycleIs(p, "CANCELLED")
    ensures TerminalLifecycle(Lifecycle(p)) <==> LifecycleIs(p, "RESOLVED") || LifecycleIs(p, "CANCELLED")
  {
    LifecycleReads(p, "PROPOSED");
    LifecycleReads(p, "CHALLENGED");
    LifecycleReads(p, "RESOLVED");
    LifecycleReads(p, "CANCELLED");
    hide LifecycleIs, Lifecycle;
  }

  /** A candidate is taken when it is there and not empty and no earlier one is. */
  predicate Takes(candidates: seq<Option<string>>, k: nat)
    requires k < |candidates|
  {
    && candidates[k].Some? && candidates[k].value != ""
    && forall j :: 0 <= j < k ==> candidates[j] == None || candidates[j] == Some("")
  }

  lemma {:induction false} FirstIsTaken(candidates: seq<Option<string>>, fallback: string)
    ensures forall k: nat :: k < |candidates| && Takes(candidates, k) ==>
      FirstNonEmpty(candidates, fallback) == candidates[k].value
    ensures (forall k :: 0 <= k < |candidates| ==> candidates[k] == None || candidates[k] == Some("")) ==>
      FirstNonEmpty(candidates, fallback) == fallback
  {
    if candidates != [] {
      FirstIsTaken(candidates[1..], fallback);
      forall k: nat | k < |candidates| && Takes(candidates, k)
        ensures FirstNonEmpty(candidates, fallback) == candidates[k].value
      {
        if k > 0 {
          assert candidates[0] == None || candidates[0] == Some("");
          assert candidates[1..][k - 1] == candidates[k];
          assert forall j :: 0 <= j < k - 1 ==> candidates[1..][j] == candidates[j + 1];
          assert Takes(candidates[1..], k - 1);
        }
      }
      assert forall k :: 0 <= k < |candidates| - 1 ==> candidates[1..][k] == candidates[k + 1];
    }
  }

  /** The duel key of a poll, in the order of preference, and its phase. */
  lemma KeyAndPhaseRead(p: ChainSnapshot)
    ensures
      var keys := [p.cycleDuelKeyHex, p.cycleDuelKey, p.streamDuelKey, p.activeDuelKey, p.activeDuelId];
      && (forall k: nat :: k < 5 && Takes(keys, k) ==> CurrentDuelKey(p) == keys[k].value)
      && ((forall k :: 0 <= k < 5 ==> keys[k] == None || keys[k] == Some("")) ==> CurrentDuelKey(p) == "unknown")
    ensures
      var phases := [p.cyclePhase, p.streamDuelPhase, p.activePhase];
      && (forall k: nat :: k < 3 && Takes(phases, k) ==> CurrentPhase(p) == phases[k].value)
      && ((forall k :: 0 <= k < 3 ==> phases[k] == None || phases[k] == Some("")) ==> CurrentPhase(p) == "UNKNOWN")
  {
    hide FirstNonEmpty, Takes;
    FirstIsTaken([p.cycleDuelKeyHex, p.cycleDuelKey, p.streamDuelKey, p.activeDuelKey, p.activeDuelId], "unknown");
    FirstIsTaken([p.cyclePhase, p.streamDuelPhase, p.activePhase], "UNKNOWN");
  }

  /** The first four cycles are traded, and every fourth one after them. */
  lemma TradedCycles(n: int)
    requires n >= 1
    ensures ShouldTradeCycle(n) <==> n in {1, 2, 3, 4} || exists k :: k >= 2 && n == 4 * k
  {
    if n % 4 == 0 && n > 4 {
      assert n == 4 * (n / 4);
    }
  }

  // ---------------------------------------------------------------------------------------------
  // The record

  /** Poll j shows milestone m, in terms of the fields; the lock needs a bet close time in force. */
  ghost predicate ShowsOnFields(polls: seq<ChainSnapshot>, j: nat, m: Milestone)
    requires j < |polls|
  {
    var p := polls[j];
    match m
    case OpenSeen => LifecycleIs(p, "OPEN")
    case QuotesSeen => ShowsQuotes(p)
    case ResolutionSeen => CurrentPhase(p) == "RESOLUTION"
    case LockSeen => BetClose(polls, j).Some? && !LifecycleIs(p, "OPEN")
    case ProposalSeen =>
      LifecycleIs(p, "PROPOSED") || LifecycleIs(p, "CHALLENGED") || LifecycleIs(p, "RESOLVED") || LifecycleIs(p, "CANCELLED")
    case TerminalSeen => LifecycleIs(p, "RESOLVED") || LifecycleIs(p, "CANCELLED")
  }

  lemma ShowsReads(polls: seq<ChainSnapshot>, j: nat, m: Milestone)
    requires j < |polls|
    ensures Shows(polls, j, m) <==> ShowsOnFields(polls, j, m)
  {
    hide LifecycleIs, ShowsQuotes, BetClose;
    PollReads(Args(0, 0, false), polls[j]);
    OutcomeReads(polls[j]);
    hide IsOpen, IsQuoted, ProposalLifecycle, TerminalLifecycle;
  }

  /** Poll j is the first of i's cycle to show the milestone. */
  ghost predicate FirstOnFields(polls: seq<ChainSnapshot>, i: nat, m: Milestone, j: nat)
    requires i < |polls|
  {
    && CycleStart(polls, i) <= j <= i && ShowsOnFields(polls, j, m)
    && forall k: nat :: CycleStart(polls, i) <= k < j ==> !ShowsOnFields(polls, k, m)
  }

  /** A recorded milestone is the fetch time of the first poll of the cycle whose fields show it, and none is
      recorded while no poll's fields do. */
  lemma StampsOnFields(args: Args, polls: seq<ChainSnapshot>, i: nat, m: Milestone)
    requires i < |polls|
    ensures
      var stamp := MilestoneOf(StateAfter(args, polls, i + 1).current.value, m);
      && (stamp.Some? ==> exists j: nat :: FirstOnFields(polls, i, m, j) && stamp.value == polls[j].fetchedAtMs)
      && (stamp.None? ==> forall j: nat :: CycleStart(polls, i) <= j <= i ==> !ShowsOnFields(polls, j, m))
  {
    hide Step, ShowsOnFields, Shows;
    RecordFollowsHistory(args, polls, i);
    forall j: nat | j < |polls|
      ensures Shows(polls, j, m) <==> ShowsOnFields(polls, j, m)
    {
      ShowsReads(polls, j, m);
    }
    var first := FirstShowing(polls, i, m);
    assert MilestoneOf(StateAfter(args, polls, i + 1).current.value, m) == FirstTime(polls, i, m);
    if first.Some? {
      assert FirstOnFields(polls, i, m, first.value);
    }
  }

  /** The bet close time in force is the last one that the active duel gave in the cycle, and while it gave none,
      the one that the status chain gave on the cycle's first poll. */
  lemma {:induction false} BetCloseOnFields(polls: seq<ChainSnapshot>, i: nat)
    requires i < |polls|
    ensures forall j: nat ::
      CycleStart(polls, i) <= j <= i && polls[j].activeBetCloseTime.Some?
        && (forall k: nat :: j < k <= i ==> polls[k].activeBetCloseTime.None?) ==>
      BetClose(polls, i) == polls[j].activeBetCloseTime
    ensures (forall k: nat :: CycleStart(polls, i) <= k <= i ==> polls[k].activeBetCloseTime.None?) ==>
      BetClose(polls, i) == polls[CycleStart(polls, i)].statusBetCloseTime
  {
    hide CurrentDuelKey;
    if CycleStart(polls, i) < i {
      BetCloseOnFields(polls, i - 1);
    }
  }

  /** A stale alarm means three polls in a row of one cycle showed old quotes on an open market. */
  lemma StaleAlarmOnFields(args: Args, polls: seq<ChainSnapshot>, i: nat)
    requires i < |polls| && StaleAlarm(args, polls, i)
    ensures CycleStart(polls, i) + 2 <= i
    ensures ShowsOldQuotes(args, polls[i]) && ShowsOldQuotes(args, polls[i - 1]) && ShowsOldQuotes(args, polls[i - 2])
  {
    assert StaleRun(args, polls, i) >= 3;
    assert StaleRun(args, polls, i - 1) >= 2 && StaleRun(args, polls, i - 2) >= 1;
    hide IsStale, ShowsOldQuotes;
    PollReads(args, polls[i]);
    PollReads(args, polls[i - 1]);
    PollReads(args, polls[i - 2]);
  }

  // ---------------------------------------------------------------------------------------------
  // The verdict

  /** Some poll of i's cycle up to i shows the milestone no later than the deadline. */
  ghost predicate ShownBy(polls: seq<ChainSnapshot>, i: nat, m: Milestone, deadline: int)
    requires i < |polls|
  {
    exists j: nat :: CycleStart(polls, i) <= j <= i && ShowsOnFields(polls, j, m) && polls[j].fetchedAtMs <= deadline
  }

  /** No market is open and nothing is quoted on either side. */
  ghost predicate NothingQuoted(p: ChainSnapshot) {
    && !LifecycleIs(p, "OPEN")
    && forall h :: Reports(p, h) ==> !QuotesBid(h) && !QuotesAsk(h)
  }

  ghost predicate GuaranteesAt(polls: seq<ChainSnapshot>, i: nat)
    requires i < |polls|
  {
    var now, start := polls[i].fetchedAtMs, polls[CycleStart(polls, i)].fetchedAtMs;
    && (now > start + 15_000 ==> ShownBy(polls, i, OpenSeen, start + 15_000))
    && (forall j: nat :: FirstOnFields(polls, i, OpenSeen, j) && now > polls[j].fetchedAtMs + 20_000
          ==> ShownBy(polls, i, QuotesSeen, polls[j].fetchedAtMs + 20_000))
    && (forall j: nat :: FirstOnFields(polls, i, ResolutionSeen, j) && now > polls[j].fetchedAtMs + 60_000
          ==> ShownBy(polls, i, ProposalSeen, polls[j].fetchedAtMs + 60_000))
    && (BetClose(polls, i).Some? && now > BetClose(polls, i).value + 10_000 ==> NothingQuoted(polls[i]))
  }

  lemma FirstIsUnique(polls: seq<ChainSnapshot>, i: nat, m: Milestone, j: nat)
    requires i < |polls| && FirstOnFields(polls, i, m, j)
    ensures FirstTime(polls, i, m) == Some(polls[j].fetchedAtMs)
  {
    hide ShowsOnFields, Shows;
    forall k: nat | k < |polls|
      ensures Shows(polls, k, m) <==> ShowsOnFields(polls, k, m)
    {
      ShowsReads(polls, k, m);
    }
    assert Shows(polls, j, m);
  }

  lemma FirstTimeIsShown(polls: seq<ChainSnapshot>, i: nat, m: Milestone, deadline: int)
    requires i < |polls| && FirstTime(polls, i, m).Some? && FirstTime(polls, i, m).value <= deadline
    ensures ShownBy(polls, i, m, deadline)
  {
    hide ShowsOnFields, Shows;
    ShowsReads(polls, FirstShowing(polls, i, m).value, m);
  }

  lemma GuaranteesFollow(polls: seq<ChainSnapshot>, i: nat)
    requires i < |polls| && BudgetsMet(polls, i)
    ensures GuaranteesAt(polls, i)
  {
    hide FirstTime, BetClose, ShowsOnFields, ShownBy, CycleStart;
    var start := polls[CycleStart(polls, i)].fetchedAtMs;
    if polls[i].fetchedAtMs > start + 15_000 {
      FirstTimeIsShown(polls, i, OpenSeen, start + 15_000);
    }
    forall j: nat | FirstOnFields(polls, i, OpenSeen, j) && polls[i].fetchedAtMs > polls[j].fetchedAtMs + 20_000
      ensures ShownBy(polls, i, QuotesSeen, polls[j].fetchedAtMs + 20_000)
    {
      FirstIsUnique(polls, i, OpenSeen, j);
      FirstTimeIsShown(polls, i, QuotesSeen, polls[j].fetchedAtMs + 20_000);
    }
    forall j: nat | FirstOnFields(polls, i, ResolutionSeen, j) && polls[i].fetchedAtMs > polls[j].fetchedAtMs + 60_000
      ensures ShownBy(polls, i, ProposalSeen, polls[j].fetchedAtMs + 60_000)
    {
      FirstIsUnique(polls, i, ResolutionSeen, j);
      FirstTimeIsShown(polls, i, ProposalSeen, polls[j].fetchedAtMs + 60_000);
    }
    PollReads(Args(0, 0, false), polls[i]);
  }

  /** What a pass guarantees of the fields: every fetch arrived; at every poll of every chain the open, quote and
      proposal budgets of 15, 20 and 60 seconds are met, and from ten seconds after the close on the market is
      neither open nor quoted on any side; a run of two hours or more cleared three claims per chain. */
  lemma PassOnFields(args: Args, chains: seq<string>, replies: seq<Reply>)
    requires OnlyListed(chains, replies) && Passes(args, chains, replies)
    ensures AllArrived(replies)
    ensures forall chain, i: nat :: chain in chains && i < |PollsOf(replies, chain)| ==> GuaranteesAt(PollsOf(replies, chain), i)
    ensures args.durationMin >= 120 ==> forall chain :: chain in chains ==>
      Listed(chains, chain) * ClearedCycles(args, PollsOf(replies, chain), |PollsOf(replies, chain)|) >= 3
  {
    PassIsSound(args, chains, replies);
    VerdictExactly(args, chains, replies);
    hide BudgetsMet, GuaranteesAt, Passes, PollsOf, Listed, ClearedCycles, CleanRun, MilestonesWithin;
    forall chain, i: nat | chain in chains && i < |PollsOf(replies, chain)|
      ensures GuaranteesAt(PollsOf(replies, chain), i)
    {
      GuaranteesFollow(PollsOf(replies, chain), i);
    }
    forall chain | chain in chains
      ensures Listed(chains, chain) * ClearedCycles(args, PollsOf(replies, chain), |PollsOf(replies, chain)|)
           >= RequiredClaims(args)
    {
      assert ChainPasses(args, chains, chain, PollsOf(replies, chain));
    }
  }

  /** A market quoted on one side only, twenty seconds after its close: the poll raises the close alarm. */
  lemma OneSidedQuoteIsCaught(args: Args, p: ChainSnapshot)
    requires p.activeBetCloseTime == Some(0) && p.fetchedAtMs == 20_000 && p.statusLifecycle == Some("LOCKED")
    requires p.statusHealth == Some(Health(Some(490.0), None, Some(100.0), None, None))
    ensures OpenAfterClose in Raised(args, INITIAL_STATE, p)
  {
    var s := Stamped(Entered(INITIAL_STATE, p), p);
    assert LockOverdue(s.current.value, p);
    assert OpenAfterClose in When(true, OpenAfterClose);
    assert OpenAfterClose in ClosingCodes(s, OverdueAt(s.current.value, p));
    hide OpeningCodes, ClosingCodes, ActionCodes;
    assert OpenAfterClose in LagCodes(s, OverdueAt(s.current.value, p));
    assert OpenAfterClose in AlarmCodes(args, s, p);
  }
}
