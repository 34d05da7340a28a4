/**
 Canary trades and claims against the bare history of polls: which poll of a cycle places its trade, which one
 claims it, and which polls go wrong. The lemmas show that the machine's record and codes say exactly that.
 */
module StagedTrades {
  import opened Wrappers
  import opened StagedMonitor
  import opened StagedHistory
  import opened StagedIncidents

  // ---------------------------------------------------------------------------------------------
  // Trades and claims read off the polls

  /** The ordinal of the cycle that poll i belongs to, from one. */
  function CycleNumber(polls: seq<ChainSnapshot>, i: nat): (n: nat)
    requires i < |polls|
    ensures 1 <= n <= i + 1
  {
    if i == 0 then 1 else CycleNumber(polls, i - 1) + if CycleStart(polls, i) == i then 1 else 0
  }

  /** A poll on which a cycle without a trade tries one. */
  predicate TriesTrade(args: Args, polls: seq<ChainSnapshot>, i: nat)
    requires i < |polls|
  {
    args.canaryTradesEnabled && IsQuoted(polls[i]) && ShouldTradeCycle(CycleNumber(polls, i))
  }

  /** The poll of i's cycle, up to i, that placed its trade: the first to try one whose call returned. */
  function TradePoll(args: Args, polls: seq<ChainSnapshot>, i: nat): (t: Option<nat>)
    requires i < |polls|
    ensures t.Some? ==>
      && CycleStart(polls, i) <= t.value <= i
      && TriesTrade(args, polls, t.value) && TradeResult(polls[t.value]).Traded?
      && forall j :: CycleStart(polls, i) <= j < t.value ==> !(TriesTrade(args, polls, j) && TradeResult(polls[j]).Traded?)
    ensures t.None? ==>
      forall j :: CycleStart(polls, i) <= j <= i ==> !(TriesTrade(args, polls, j) && TradeResult(polls[j]).Traded?)
  {
    var earlier := if CycleStart(polls, i) < i then TradePoll(args, polls, i - 1) else None;
    if earlier.Some? then earlier
    else if TriesTrade(args, polls, i) && TradeResult(polls[i]).Traded? then Some(i)
    else None
  }

  /** A poll on which a cycle without a claim tries one: its trade is placed and matched, and by now the cycle has
      been seen in a terminal state. */
  predicate TriesClaim(args: Args, polls: seq<ChainSnapshot>, i: nat)
    requires i < |polls|
  {
    && TradePoll(args, polls, i).Some?
    && TradeResult(polls[TradePoll(args, polls, i).value]).matched
    && FirstShowing(polls, i, TerminalSeen).Some?
  }

  /** The poll of i's cycle, up to i, that claimed its trade: the first to try whose call returned. */
  function ClaimPoll(args: Args, polls: seq<ChainSnapshot>, i: nat): (c: Option<nat>)
    requires i < |polls|
    ensures c.Some? ==>
      && CycleStart(polls, i) <= c.value <= i
      && TriesClaim(args, polls, c.value) && polls[c.value].claim.Claimed?
      && forall j :: CycleStart(polls, i) <= j < c.value ==> !(TriesClaim(args, polls, j) && polls[j].claim.Claimed?)
    ensures c.None? ==>
      forall j :: CycleStart(polls, i) <= j <= i ==> !(TriesClaim(args, polls, j) && polls[j].claim.Claimed?)
  {
    var earlier := if CycleStart(polls, i) < i then ClaimPoll(args, polls, i - 1) else None;
    if earlier.Some? then earlier
    else if TriesClaim(args, polls, i) && polls[i].claim.Claimed? then Some(i)
    else None
  }

  function EarlierTradePoll(args: Args, polls: seq<ChainSnapshot>, i: nat): Option<nat>
    requires i < |polls|
  {
    if CycleStart(polls, i) < i then TradePoll(args, polls, i - 1) else None
  }

  function EarlierClaimPoll(args: Args, polls: seq<ChainSnapshot>, i: nat): Option<nat>
    requires i < |polls|
  {
    if CycleStart(polls, i) < i then ClaimPoll(args, polls, i - 1) else None
  }

  /** The poll tries the cycle's trade, and the call throws or nothing is matched. */
  predicate TradeGoesWrong(args: Args, polls: seq<ChainSnapshot>, i: nat)
    requires i < |polls|
  {
    && EarlierTradePoll(args, polls, i).None? && TriesTrade(args, polls, i)
    && (TradeResult(polls[i]).TradeThrew? || !TradeResult(polls[i]).matched)
  }

  /** The poll tries the cycle's claim, and the call throws or leaves a residue. */
  predicate ClaimGoesWrong(args: Args, polls: seq<ChainSnapshot>, i: nat)
    requires i < |polls|
  {
    && EarlierClaimPoll(args, polls, i).None? && TriesClaim(args, polls, i)
    && (polls[i].claim.ClaimThrew? || !polls[i].claim.cleared)
  }

  /** The codes that poll i's trade and claim raise, read off the polls: a trade fails when the active duel has no
      key or the call throws, and has no fill when nothing matched; a claim fails when its call throws, and leaves a
      residue when it did not clear. */
  function ExpectedCodes(args: Args, polls: seq<ChainSnapshot>, i: nat): seq<Code>
    requires i < |polls|
  {
    var p := polls[i];
    var keyless := p.activeDuelKey == None || p.activeDuelKey == Some("");
    (if EarlierTradePoll(args, polls, i).Some? || !TriesTrade(args, polls, i) then []
     else if keyless || p.trade.TradeThrew? then [TradeFailed]
     else if !p.trade.matched then [TradeNoFill]
     else [])
    + (if EarlierClaimPoll(args, polls, i).Some? || !TriesClaim(args, polls, i) then []
       else if p.claim.ClaimThrew? then [ClaimFailed]
       else if !p.claim.cleared then [ClaimResidual]
       else [])
  }

  /** By poll i its cycle's trade has been claimed and cleared. */
  predicate ClearedBy(args: Args, polls: seq<ChainSnapshot>, i: nat)
    requires i < |polls|
  {
    ClaimPoll(args, polls, i).Some? && polls[ClaimPoll(args, polls, i).value].claim.cleared
  }

  // ---------------------------------------------------------------------------------------------
  // The record follows them

  function TradeAt(args: Args, polls: seq<ChainSnapshot>, number: int, t: Option<nat>, c: Option<nat>): Option<Trade>
    requires t.Some? ==> t.value < |polls| && TradeResult(polls[t.value]).Traded?
    requires c.Some? ==> c.value < |polls| && polls[c.value].claim.Claimed?
  {
    if t.None? then None
    else
      var result := TradeResult(polls[t.value]);
      Some(Trade(
        if number % 2 == 1 then Yes else No, result.attemptedAtMs, result.matched,
        if c.Some? then Some(polls[c.value].claim.attemptedAtMs) else None,
        if c.Some? && polls[c.value].claim.cleared then Some(polls[c.value].claim.clearedAtMs) else None))
  }

  /** The record numbers the cycle of poll i and holds the trade and claim that its polls show. */
  predicate RecordsTrade(args: Args, s: ChainState, polls: seq<ChainSnapshot>, i: nat)
    requires i < |polls|
  {
    && s.current.Some?
    && s.current.value.cycleIndex == CycleNumber(polls, i) == |s.cycles| + 1
    && s.current.value.trade
         == TradeAt(args, polls, CycleNumber(polls, i), TradePoll(args, polls, i), ClaimPoll(args, polls, i))
  }

  /** What entering and stamping poll i leaves of the record: the earlier trade of the same cycle, or none. */
  predicate CarriesTrade(args: Args, s: ChainState, polls: seq<ChainSnapshot>, i: nat)
    requires i < |polls|
  {
    && s.current.Some?
    && s.current.value.cycleIndex == CycleNumber(polls, i) == |s.cycles| + 1
    && s.current.value.trade
         == TradeAt(args, polls, CycleNumber(polls, i), EarlierTradePoll(args, polls, i), EarlierClaimPoll(args, polls, i))
    && (s.current.value.terminalAtMs.Some? <==> FirstShowing(polls, i, TerminalSeen).Some?)
  }

  lemma NoClaimWithoutTrade(args: Args, polls: seq<ChainSnapshot>, i: nat)
    requires i < |polls| && TradePoll(args, polls, i).None?
    ensures ClaimPoll(args, polls, i).None?
  {
    if ClaimPoll(args, polls, i).Some? {
      TradePollStays(args, polls, ClaimPoll(args, polls, i).value, i);
    }
  }

  lemma {:induction false} TradePollStays(args: Args, polls: seq<ChainSnapshot>, i: nat, j: nat)
    requires i <= j < |polls| && CycleStart(polls, j) <= i
    ensures CycleStart(polls, i) == CycleStart(polls, j)
    ensures TradePoll(args, polls, i).Some? ==> TradePoll(args, polls, j) == TradePoll(args, polls, i)
  {
    if i < j {
      TradePollStays(args, polls, i, j - 1);
    }
  }

  /** One poll's trade and claim, from the carried record to the recorded one, and the codes they raise. */
  lemma ActedRecordsTrade(args: Args, s: ChainState, polls: seq<ChainSnapshot>, i: nat)
    requires i < |polls| && CarriesTrade(args, s, polls, i)
    ensures RecordsTrade(args, Acted(args, s, polls[i]), polls, i)
    ensures ActionCodes(args, s.current.value, polls[i]) == ExpectedCodes(args, polls, i)
  {
    var c, p := s.current.value, polls[i];
    var due, result := TradeDue(args, c, p), TradeResult(p);
    var traded := TradeRecorded(c, due, result);
    if EarlierTradePoll(args, polls, i).None? {
      EarlierClaimNeedsTrade(args, polls, i);
    }
    assert due <==> EarlierTradePoll(args, polls, i).None? && TriesTrade(args, polls, i);
    assert traded.trade == TradeAt(args, polls, CycleNumber(polls, i), TradePoll(args, polls, i), EarlierClaimPoll(args, polls, i));
    assert ClaimDue(traded) <==> EarlierClaimPoll(args, polls, i).None? && TriesClaim(args, polls, i);
    hide TradeDue, TriesTrade, TriesClaim, StampedCodes, StaleCount, ShouldTradeCycle;
  }

  lemma ExpectedNoneExactly(args: Args, polls: seq<ChainSnapshot>, i: nat)
    requires i < |polls|
    ensures ExpectedCodes(args, polls, i) == [] <==> !TradeGoesWrong(args, polls, i) && !ClaimGoesWrong(args, polls, i)
  {
    hide TriesTrade, TriesClaim, EarlierTradePoll, EarlierClaimPoll;
  }

  lemma EarlierClaimNeedsTrade(args: Args, polls: seq<ChainSnapshot>, i: nat)
    requires i < |polls| && EarlierTradePoll(args, polls, i).None?
    ensures EarlierClaimPoll(args, polls, i).None?
  {
    if CycleStart(polls, i) < i {
      NoClaimWithoutTrade(args, polls, i - 1);
    }
  }

  lemma EnteredCarriesTrade(args: Args, polls: seq<ChainSnapshot>, i: nat)
    requires i < |polls|
    requires i > 0 ==> RecordsTrade(args, StateAfter(args, polls, i), polls, i - 1)
    ensures CarriesTrade(args, StampedAt(args, polls, i), polls, i)
  {
    var before := StateAfter(args, polls, i);
    hide Step, Entered, Stamped, Continues, TradePoll, ClaimPoll;
    ContinuesWithinCycle(args, polls, i);
    EnteringKeepsTrade(before, polls[i]);
    StampingKeepsTrade(Entered(before, polls[i]), polls[i]);
    TerminalIsRecorded(args, polls, i);
    hide FirstShowing, IsQuoted, TradeResult;
    if i == 0 {
      assert before == INITIAL_STATE;
    } else {
      assert RecordsTrade(args, before, polls, i - 1);
      assert CycleNumber(polls, i) == CycleNumber(polls, i - 1) + if CycleStart(polls, i) == i then 1 else 0;
      hide CycleStart, CycleNumber, StateAfter;
    }
  }

  lemma TerminalIsRecorded(args: Args, polls: seq<ChainSnapshot>, i: nat)
    requires i < |polls|
    ensures StampedAt(args, polls, i).current.value.terminalAtMs.Some? <==> FirstShowing(polls, i, TerminalSeen).Some?
  {
    hide Step, Entered, Stamped, FirstShowing;
    RecordFollowsHistory(args, polls, i);
    assert MilestoneOf(StampedAt(args, polls, i).current.value, TerminalSeen) == FirstTime(polls, i, TerminalSeen);
  }

  lemma EnteringKeepsTrade(s: ChainState, p: ChainSnapshot)
    ensures
      var entered := Entered(s, p);
      var c := entered.current.value;
      if Continues(s, p) then
        entered.cycles == s.cycles && c.cycleIndex == s.current.value.cycleIndex && c.trade == s.current.value.trade
      else
        entered.cycles == Closed(s) && c.cycleIndex == |Closed(s)| + 1 && c.trade.None?
  {
  }

  lemma StampingKeepsTrade(s: ChainState, p: ChainSnapshot)
    requires s.current.Some?
    ensures
      var stamped := Stamped(s, p);
      && stamped.cycles == s.cycles
      && stamped.current.value.cycleIndex == s.current.value.cycleIndex
      && stamped.current.value.trade == s.current.value.trade
  {
  }

  /** After every poll, the running record has the number of its cycle and the trade and claim of the polls. */
  lemma {:induction false} RecordFollowsTrade(args: Args, polls: seq<ChainSnapshot>, i: nat)
    requires i < |polls|
    ensures RecordsTrade(args, StateAfter(args, polls, i + 1), polls, i)
    ensures ActionCodes(args, StampedAt(args, polls, i).current.value, polls[i]) == ExpectedCodes(args, polls, i)
    ensures ActionCodes(args, StampedAt(args, polls, i).current.value, polls[i]) == [] <==>
      !TradeGoesWrong(args, polls, i) && !ClaimGoesWrong(args, polls, i)
  {
    hide RecordsTrade, CarriesTrade, Acted, ActionCodes, ExpectedCodes, TradeGoesWrong, ClaimGoesWrong;
    if i > 0 {
      RecordFollowsTrade(args, polls, i - 1);
    }
    EnteredCarriesTrade(args, polls, i);
    ActedRecordsTrade(args, StampedAt(args, polls, i), polls, i);
    ExpectedNoneExactly(args, polls, i);
  }

  /** The record counts as cleared exactly when the polls of its cycle show a cleared claim. */
  lemma ClearedFollowsPolls(args: Args, polls: seq<ChainSnapshot>, i: nat)
    requires i < |polls|
    ensures
      var trade := StateAfter(args, polls, i + 1).current.value.trade;
      (trade.Some? && trade.value.clearedAtMs.Some?) <==> ClearedBy(args, polls, i)
  {
    hide Step, TradePoll, ClaimPoll;
    RecordFollowsTrade(args, polls, i);
    if TradePoll(args, polls, i).None? {
      NoClaimWithoutTrade(args, polls, i);
    }
  }
}
