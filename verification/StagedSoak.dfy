/** The staged soak as the monitor runs it: poll every chain, feed each machine, then summarise and judge. */
module StagedSoak {
  import opened Wrappers
  import opened StagedMonitor
  import opened StagedHistory
  import opened StagedIncidents
  import opened StagedVerdict

  datatype Summary = Summary(
    cyclesObserved: int,
    openLagMs: seq<int>,
    quoteLagMs: seq<int>,
    lockLagMs: seq<int>,
    proposalLagMs: seq<int>,
    finalizedCycles: int,
    claimClears: int,
    tradeAttempts: int,
    tradeMatches: int,
    incidents: int)

  const EMPTY_SUMMARY := Summary(0, [], [], [], [], 0, 0, 0, 0, 0)

  predicate AtMost(lags: seq<int>, budget: int) { forall k :: 0 <= k < |lags| ==> lags[k] <= budget }

  predicate SummaryWithin(summary: Summary) {
    && AtMost(summary.openLagMs, OPEN_LAG_BUDGET_MS)
    && AtMost(summary.quoteLagMs, QUOTE_LAG_BUDGET_MS)
    && AtMost(summary.lockLagMs, LOCK_LAG_BUDGET_MS)
    && AtMost(summary.proposalLagMs, PROPOSAL_LAG_BUDGET_MS)
  }

  /** The lag between two stamps, if both exist. */
  function Lag(later: Option<int>, earlier: Option<int>): seq<int> {
    if later.Some? && earlier.Some? then [later.value - earlier.value] else []
  }

  lemma LagAtMost(lags: seq<int>, later: Option<int>, earlier: Option<int>, budget: int)
    ensures AtMost(lags + Lag(later, earlier), budget)
      <==> AtMost(lags, budget) && (later.Some? && earlier.Some? ==> later.value - earlier.value <= budget)
  {
    forall k | 0 <= k < |lags|
      ensures (lags + Lag(later, earlier))[k] == lags[k]
    {
    }
    if later.Some? && earlier.Some? {
      assert (lags + Lag(later, earlier))[|lags|] == later.value - earlier.value;
    }
  }

  method AddCycle(summary: Summary, cycle: Cycle) returns (r: Summary)
    ensures SummaryWithin(r) <==> SummaryWithin(summary) && LagsWithin(cycle)
    ensures r.claimClears == summary.claimClears + Times(IsCleared(cycle))
    ensures r.cyclesObserved == summary.cyclesObserved
    ensures r.finalizedCycles == summary.finalizedCycles + Times(cycle.terminalAtMs.Some?)
    ensures r.tradeAttempts == summary.tradeAttempts + Times(cycle.trade.Some?)
    ensures r.tradeMatches == summary.tradeMatches + Times(cycle.trade.Some? && cycle.trade.value.matched)
    ensures r.incidents == summary.incidents + |cycle.incidents|
  {
    r := summary.(
      openLagMs := summary.openLagMs + Lag(cycle.openAtMs, Some(cycle.startedAtMs)),
      quoteLagMs := summary.quoteLagMs + Lag(cycle.quotesAtMs, cycle.openAtMs),
      lockLagMs := summary.lockLagMs + Lag(cycle.lockAtMs, cycle.betCloseTimeMs),
      proposalLagMs := summary.proposalLagMs + Lag(cycle.proposalAtMs, cycle.resolutionAtMs));
    LagAtMost(summary.openLagMs, cycle.openAtMs, Some(cycle.startedAtMs), OPEN_LAG_BUDGET_MS);
    LagAtMost(summary.quoteLagMs, cycle.quotesAtMs, cycle.openAtMs, QUOTE_LAG_BUDGET_MS);
    LagAtMost(summary.lockLagMs, cycle.lockAtMs, cycle.betCloseTimeMs, LOCK_LAG_BUDGET_MS);
    LagAtMost(summary.proposalLagMs, cycle.proposalAtMs, cycle.resolutionAtMs, PROPOSAL_LAG_BUDGET_MS);
    assert SummaryWithin(r) <==> SummaryWithin(summary) && LagsWithin(cycle);
    if cycle.terminalAtMs.Some? {
      r := r.(finalizedCycles := r.finalizedCycles + 1);
    }
    if cycle.trade.Some? {
      r := r.(tradeAttempts := r.tradeAttempts + 1);
      if cycle.trade.value.matched {
        r := r.(tradeMatches := r.tradeMatches + 1);
      }
      if cycle.trade.value.clearedAtMs.Some? {
        r := r.(claimClears := r.claimClears + 1);
      }
    }
    r := r.(incidents := r.incidents + |cycle.incidents|);
  }

  /** The cycles that reached a terminal state, that were traded, and whose trade matched. */
  function TerminalIndices(cycles: seq<Cycle>): set<int> {
    set k | 0 <= k < |cycles| && cycles[k].terminalAtMs.Some?
  }

  function TradedIndices(cycles: seq<Cycle>): set<int> { set k | 0 <= k < |cycles| && cycles[k].trade.Some? }

  function MatchedIndices(cycles: seq<Cycle>): set<int> {
    set k | 0 <= k < |cycles| && cycles[k].trade.Some? && cycles[k].trade.value.matched
  }

  function IncidentTotal(cycles: seq<Cycle>): nat {
    if cycles == [] then 0 else IncidentTotal(cycles[..|cycles| - 1]) + |cycles[|cycles| - 1].incidents|
  }

  lemma NothingCounted()
    ensures |TerminalIndices([])| == |TradedIndices([])| == |MatchedIndices([])| == 0
  {
  }

  lemma CountedOneMore(cycles: seq<Cycle>, k: nat)
    requires k < |cycles|
    ensures |TerminalIndices(cycles[..k + 1])| == |TerminalIndices(cycles[..k])| + Times(cycles[k].terminalAtMs.Some?)
    ensures |TradedIndices(cycles[..k + 1])| == |TradedIndices(cycles[..k])| + Times(cycles[k].trade.Some?)
    ensures |MatchedIndices(cycles[..k + 1])|
         == |MatchedIndices(cycles[..k])| + Times(cycles[k].trade.Some? && cycles[k].trade.value.matched)
  {
    hide TerminalIndices, TradedIndices, MatchedIndices;
    TerminalOneMore(cycles, k);
    TradedOneMore(cycles, k);
    MatchedOneMore(cycles, k);
  }

  lemma TerminalOneMore(cycles: seq<Cycle>, k: nat)
    requires k < |cycles|
    ensures |TerminalIndices(cycles[..k + 1])| == |TerminalIndices(cycles[..k])| + Times(cycles[k].terminalAtMs.Some?)
  {
    var before, after := TerminalIndices(cycles[..k]), TerminalIndices(cycles[..k + 1]);
    forall j
      ensures j in after <==> j in before || (j == k && cycles[k].terminalAtMs.Some?)
    {
    }
    assert after == if cycles[k].terminalAtMs.Some? then before + {k} else before;
  }

  lemma TradedOneMore(cycles: seq<Cycle>, k: nat)
    requires k < |cycles|
    ensures |TradedIndices(cycles[..k + 1])| == |TradedIndices(cycles[..k])| + Times(cycles[k].trade.Some?)
  {
    var before, after := TradedIndices(cycles[..k]), TradedIndices(cycles[..k + 1]);
    forall j
      ensures j in after <==> j in before || (j == k && cycles[k].trade.Some?)
    {
    }
    assert after == if cycles[k].trade.Some? then before + {k} else before;
  }

  lemma MatchedOneMore(cycles: seq<Cycle>, k: nat)
    requires k < |cycles|
    ensures |MatchedIndices(cycles[..k + 1])| == |MatchedIndices(cycles[..k])| + Times((cycles[k].trade.Some? && cycles[k].trade.value.matched))
  {
    var before, after := MatchedIndices(cycles[..k]), MatchedIndices(cycles[..k + 1]);
    forall j
      ensures j in after <==> j in before || (j == k && (cycles[k].trade.Some? && cycles[k].trade.value.matched))
    {
    }
    assert after == if (cycles[k].trade.Some? && cycles[k].trade.value.matched) then before + {k} else before;
  }

  /** Summarise a chain's cycles on top of what its summary holds already. */
  method AddCycles(summary: Summary, cycles: seq<Cycle>) returns (r: Summary)
    ensures SummaryWithin(r) <==> SummaryWithin(summary) && AllWithin(cycles)
    ensures r.claimClears == summary.claimClears + ClaimClears(cycles)
    ensures r.cyclesObserved == |cycles|
    ensures r.finalizedCycles == summary.finalizedCycles + |TerminalIndices(cycles)|
    ensures r.tradeAttempts == summary.tradeAttempts + |TradedIndices(cycles)|
    ensures r.tradeMatches == summary.tradeMatches + |MatchedIndices(cycles)|
    ensures r.incidents == summary.incidents + IncidentTotal(cycles)
  {
    hide LagsWithin, SummaryWithin, IsCleared, TerminalIndices, TradedIndices, MatchedIndices;
    NothingCounted();
    r := summary.(cyclesObserved := |cycles|);
    SameLags(summary, r);
    for k := 0 to |cycles|
      invariant SummaryWithin(r) <==> SummaryWithin(summary) && AllWithin(cycles[..k])
      invariant r.claimClears == summary.claimClears + ClaimClears(cycles[..k])
      invariant r.cyclesObserved == |cycles|
      invariant r.finalizedCycles == summary.finalizedCycles + |TerminalIndices(cycles[..k])|
      invariant r.tradeAttempts == summary.tradeAttempts + |TradedIndices(cycles[..k])|
      invariant r.tradeMatches == summary.tradeMatches + |MatchedIndices(cycles[..k])|
      invariant r.incidents == summary.incidents + IncidentTotal(cycles[..k])
    {
      r := AddCycle(r, cycles[k]);
      WithinOneMore(cycles, k);
      CountedOneMore(cycles, k);
      assert cycles[..k + 1][..k] == cycles[..k];
    }
    assert cycles[..|cycles|] == cycles;
  }

  lemma SameLags(a: Summary, b: Summary)
    requires b == a.(cyclesObserved := b.cyclesObserved)
    ensures SummaryWithin(a) <==> SummaryWithin(b)
  {
  }

  lemma WithinOneMore(cycles: seq<Cycle>, k: nat)
    requires k < |cycles|
    ensures AllWithin(cycles[..k + 1]) <==> AllWithin(cycles[..k]) && LagsWithin(cycles[k])
  {
    hide LagsWithin;
    forall j | 0 <= j < k
      ensures cycles[..k + 1][j] == cycles[..k][j]
    {
    }
    assert cycles[..k + 1][k] == cycles[k];
  }

  lemma FinalStateSteps(args: Args, polls: seq<ChainSnapshot>, p: ChainSnapshot)
    ensures FinalState(args, polls + [p]) == Step(args, FinalState(args, polls), p)
  {
    hide Step;
    StateOfPrefix(args, polls, polls + [p], |polls|);
  }

  /** Every chain's machine stands where its share of the replies leads. */
  ghost predicate Tracks(args: Args, states: map<string, StagedRuntimeState>, replies: seq<Reply>)
    reads states.Values
  {
    forall chain :: chain in states ==>
      && states[chain].chain == chain
      && states[chain].Value() == FinalState(args, PollsOf(replies, chain))
  }

  lemma ReplyMoves(args: Args, replies: seq<Reply>, reply: Reply, chain: string)
    ensures FinalState(args, PollsOf(replies + [reply], chain))
      == if reply.chain == chain && reply.result.Some?
         then Step(args, FinalState(args, PollsOf(replies, chain)), reply.result.value)
         else FinalState(args, PollsOf(replies, chain))
    ensures IncidentLog(args, replies + [reply]) == IncidentLog(args, replies) + ReplyIncidents(args, replies, reply)
  {
    hide Step, FinalState;
    assert (replies + [reply])[..|replies|] == replies && (replies + [reply])[|replies|] == reply;
    assert PollsOf(replies, chain) + [] == PollsOf(replies, chain);
    if reply.chain == chain && reply.result.Some? {
      FinalStateSteps(args, PollsOf(replies, chain), reply.result.value);
    }
  }

  method ProcessReply(
    args: Args, context: StagedContext, states: map<string, StagedRuntimeState>, reply: Reply, ghost replies: seq<Reply>)
    requires reply.chain in states && Tracks(args, states, replies)
    requires context.incidents == IncidentLog(args, replies)
    modifies states.Values, context
    ensures Tracks(args, states, replies + [reply])
    ensures context.incidents == IncidentLog(args, replies + [reply])
  {
    hide Step, FinalState, Raised, PollsOf, IncidentLog, Logged;
    if reply.result.None? {
      context.incidents := context.incidents + [Incident(reply.chain, SnapshotFailed)];
    } else {
      states[reply.chain].ProcessStagedSnapshot(args, context, reply.result.value);
    }
    forall chain: string
      ensures FinalState(args, PollsOf(replies + [reply], chain))
        == if reply.chain == chain && reply.result.Some?
           then Step(args, FinalState(args, PollsOf(replies, chain)), reply.result.value)
           else FinalState(args, PollsOf(replies, chain))
      ensures IncidentLog(args, replies + [reply]) == IncidentLog(args, replies) + ReplyIncidents(args, replies, reply)
    {
      ReplyMoves(args, replies, reply, chain);
    }
  }

  method OpenMachines(chains: seq<string>) returns (states: map<string, StagedRuntimeState>)
    ensures forall chain :: chain in states <==> chain in chains
    ensures forall chain :: chain in states ==>
      fresh(states[chain]) && states[chain].chain == chain && states[chain].Value() == INITIAL_STATE
  {
    states := map[];
    for k := 0 to |chains|
      invariant forall chain :: chain in states <==> chain in chains[..k]
      invariant forall chain :: chain in states ==>
        fresh(states[chain]) && states[chain].chain == chain && states[chain].Value() == INITIAL_STATE
    {
      var state := new StagedRuntimeState(chains[k]);
      states := states[chains[k] := state];
    }
  }

  method PollChains(
    args: Args, context: StagedContext, states: map<string, StagedRuntimeState>,
    chains: seq<string>, polls: seq<seq<Option<ChainSnapshot>>>)
    requires Complete(chains, polls)
    requires forall chain :: chain in chains ==> chain in states
    requires Tracks(args, states, []) && context.incidents == []
    modifies states.Values, context
    ensures Tracks(args, states, AllReplies(chains, polls))
    ensures context.incidents == IncidentLog(args, AllReplies(chains, polls))
  {
    hide Tracks, IncidentLog;
    assert IncidentLog(args, []) == [] by { NothingLogged(args); }
    for pollIndex := 0 to |polls|
      invariant Tracks(args, states, AllReplies(chains, polls[..pollIndex]))
      invariant context.incidents == IncidentLog(args, AllReplies(chains, polls[..pollIndex]))
    {
      ghost var earlier, row := AllReplies(chains, polls[..pollIndex]), RowReplies(chains, polls[pollIndex]);
      assert earlier + row[..0] == earlier;
      for index := 0 to |chains|
        invariant Tracks(args, states, earlier + row[..index])
        invariant context.incidents == IncidentLog(args, earlier + row[..index])
      {
        ProcessReply(args, context, states, Reply(chains[index], polls[pollIndex][index]), earlier + row[..index]);
        assert earlier + row[..index + 1] == earlier + row[..index] + [row[index]];
      }
      assert polls[..pollIndex + 1][..pollIndex] == polls[..pollIndex];
      assert earlier + row[..|chains|] == AllReplies(chains, polls[..pollIndex + 1]);
    }
    assert polls[..|polls|] == polls;
  }

  lemma NothingLogged(args: Args)
    ensures IncidentLog(args, []) == []
  {
  }

  /** The summary holds the cycles' lags and claims, added `times` times over. */
  predicate HoldsCycles(summary: Summary, cycles: seq<Cycle>, times: nat) {
    && summary.claimClears == times * ClaimClears(cycles)
    && (SummaryWithin(summary) <==> times == 0 || AllWithin(cycles))
  }

  lemma HoldsOnceMore(before: Summary, after: Summary, cycles: seq<Cycle>, times: nat)
    requires HoldsCycles(before, cycles, times)
    requires SummaryWithin(after) <==> SummaryWithin(before) && AllWithin(cycles)
    requires after.claimClears == before.claimClears + ClaimClears(cycles)
    ensures HoldsCycles(after, cycles, times + 1)
  {
    hide SummaryWithin, AllWithin, ClaimClears;
    assert (times + 1) * ClaimClears(cycles) == times * ClaimClears(cycles) + ClaimClears(cycles);
  }

  /** How far summarising has got: every chain as often as it was listed so far; `finals` are the chains' cycles. */
  ghost predicate Summarised(
    states: map<string, StagedRuntimeState>, summaries: map<string, Summary>, finals: map<string, seq<Cycle>>, done: seq<string>)
    reads states.Values
  {
    forall chain :: chain in states ==>
      && chain in summaries && chain in finals
      && states[chain].chain == chain
      && Closed(states[chain].Value()) == finals[chain]
      && HoldsCycles(summaries[chain], finals[chain], Listed(done, chain))
  }

  /** Closes the running record and adds all of the chain's cycles to its summary. */
  method SummariseChain(state: StagedRuntimeState, summary: Summary) returns (r: Summary)
    modifies state
    ensures Closed(state.Value()) == old(Closed(state.Value()))
    ensures SummaryWithin(r) <==> SummaryWithin(summary) && AllWithin(Closed(state.Value()))
    ensures r.claimClears == summary.claimClears + ClaimClears(Closed(state.Value()))
  {
    hide SummaryWithin, AllWithin, ClaimClears;
    if state.current.Some? {
      state.cycles := state.cycles + [state.current.value];
      state.current := None;
    }
    assert state.cycles == Closed(state.Value());
    r := AddCycles(summary, state.cycles);
  }

  method SummariseNext(
    states: map<string, StagedRuntimeState>, summaries: map<string, Summary>, chain: string,
    ghost finals: map<string, seq<Cycle>>, ghost done: seq<string>)
    returns (r: map<string, Summary>)
    requires chain in states && Summarised(states, summaries, finals, done)
    modifies states[chain]
    ensures Summarised(states, r, finals, done + [chain])
  {
    hide SummaryWithin, AllWithin, Closed, ClaimClears, Listed, HoldsCycles;
    var summary := SummariseChain(states[chain], summaries[chain]);
    HoldsOnceMore(summaries[chain], summary, finals[chain], Listed(done, chain));
    ListedOneMore(done, chain);
    r := summaries[chain := summary];
  }

  method Summarise(states: map<string, StagedRuntimeState>, chains: seq<string>, ghost finals: map<string, seq<Cycle>>)
    returns (summaries: map<string, Summary>)
    requires forall chain :: chain in chains ==> chain in states
    requires forall chain :: chain in states ==>
      chain in finals && states[chain].chain == chain && Closed(states[chain].Value()) == finals[chain]
    modifies states.Values
    ensures Summarised(states, summaries, finals, chains)
  {
    hide SummaryWithin, AllWithin, Closed, ClaimClears, Listed, HoldsCycles;
    summaries := map chain | chain in states :: EMPTY_SUMMARY;
    NothingSummarised();
    assert Summarised(states, summaries, finals, []);
    hide Summarised;
    for k := 0 to |chains|
      invariant Summarised(states, summaries, finals, chains[..k])
    {
      summaries := SummariseNext(states, summaries, chains[k], finals, chains[..k]);
      assert chains[..k + 1] == chains[..k] + [chains[k]];
    }
    assert chains[..|chains|] == chains;
  }

  lemma NothingSummarised()
    ensures forall chain: string, cycles: seq<Cycle> :: HoldsCycles(EMPTY_SUMMARY, cycles, Listed([], chain))
  {
  }

  lemma ListedOneMore(done: seq<string>, next: string)
    ensures Listed(done + [next], next) == Listed(done, next) + 1
    ensures forall chain: string :: chain != next ==> Listed(done + [next], chain) == Listed(done, chain)
  {
    assert (done + [next])[..|done|] == done;
  }

  lemma {:induction false} ListedMeansIn(chains: seq<string>, chain: string)
    ensures Listed(chains, chain) > 0 <==> chain in chains
  {
    if chains != [] {
      var n := |chains| - 1;
      ListedMeansIn(chains[..n], chain);
      assert chain in chains <==> chain in chains[..n] || chain == chains[n];
    }
  }

  /** The staged soak: its verdict and its incident list are those of the replies, whatever they are. */
  method RunStagedSoak(args: Args, chains: seq<string>, polls: seq<seq<Option<ChainSnapshot>>>)
    returns (pass: bool, incidents: seq<Incident>)
    requires Complete(chains, polls)
    ensures incidents == IncidentLog(args, AllReplies(chains, polls))
    ensures pass <==> Passes(args, chains, AllReplies(chains, polls))
  {
    hide IncidentLog, FinalState, SummaryWithin, Closed, HoldsCycles, LagsWithin, ClaimClears, Listed;
    var context := new StagedContext();
    var states := OpenMachines(chains);
    ghost var replies := AllReplies(chains, polls);
    assert Tracks(args, states, []) by { MachinesStart(args); }
    PollChains(args, context, states, chains, polls);
    incidents := context.incidents;
    ghost var finals := map chain | chain in states :: Closed(FinalState(args, PollsOf(replies, chain)));
    var summaries := Summarise(states, chains, finals);
    var required := RequiredClaims(args);
    pass := incidents == [] &&
            forall chain :: chain in chains ==> SummaryWithin(summaries[chain]) && summaries[chain].claimClears >= required;
    forall chain | chain in chains
      ensures SummaryWithin(summaries[chain]) && summaries[chain].claimClears >= required <==>
        && AllWithin(finals[chain])
        && Listed(chains, chain) * ClaimClears(finals[chain]) >= required
    {
      ListedMeansIn(chains, chain);
      JudgeHeld(summaries[chain], finals[chain], Listed(chains, chain), required);
    }
  }

  lemma JudgeHeld(summary: Summary, cycles: seq<Cycle>, times: nat, required: int)
    requires HoldsCycles(summary, cycles, times) && times > 0
    ensures SummaryWithin(summary) && summary.claimClears >= required <==>
      AllWithin(cycles) && times * ClaimClears(cycles) >= required
  {
  }

  lemma MachinesStart(args: Args)
    ensures forall chain: string :: FinalState(args, PollsOf([], chain)) == INITIAL_STATE
  {
  }
}
