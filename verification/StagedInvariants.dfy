/** What every run of the staged machine keeps, whatever the polls, trades and claims bring. */
module StagedInvariants {
  import opened Wrappers
  import opened StagedMonitor
  import opened StagedHistory

  predicate NotAfter(first: Option<int>, second: Option<int>) {
    second.Some? ==> first.Some? && first.value <= second.value
  }

  predicate By(at: Option<int>, clock: int) { at.Some? ==> at.value <= clock }

  /** Quotes are only recorded after the opening, a terminal state only after a proposal, a trade only with
      quotes and only in a cycle picked for trading, a claim only for a matched trade in a terminal state. */
  predicate SoundCycle(args: Args, c: Cycle, clock: int) {
    && By(c.openAtMs, clock) && By(c.proposalAtMs, clock)
    && NotAfter(c.openAtMs, c.quotesAtMs)
    && NotAfter(c.proposalAtMs, c.terminalAtMs)
    && (c.trade.Some? ==>
          && args.canaryTradesEnabled && ShouldTradeCycle(c.cycleIndex)
          && c.quotesAtMs.Some?
          && (c.trade.value.intent == Yes <==> c.cycleIndex % 2 == 1)
          && (c.trade.value.claimAttemptedAtMs.Some? ==> c.trade.value.matched && c.terminalAtMs.Some?)
          && (c.trade.value.clearedAtMs.Some? ==> c.trade.value.claimAttemptedAtMs.Some?))
  }

  predicate SoundState(args: Args, s: ChainState, clock: int) {
    var all := Closed(s);
    && (s.current.None? ==> s.cycles == [])
    && (forall k :: 0 <= k < |all| ==> all[k].cycleIndex == k + 1)
    && (forall k :: 0 < k < |all| ==> all[k - 1].duelKey != all[k].duelKey)
    && (forall k :: 0 <= k < |all| ==> SoundCycle(args, all[k], clock))
  }

  predicate InOrder(polls: seq<ChainSnapshot>) {
    forall i :: 0 < i < |polls| ==> polls[i - 1].fetchedAtMs <= polls[i].fetchedAtMs
  }

  /** What a later record of the same cycle keeps of an earlier one: everything stamped stays as stamped. */
  predicate Extends(later: Cycle, earlier: Cycle) {
    && later.cycleIndex == earlier.cycleIndex
    && later.duelKey == earlier.duelKey
    && later.startedAtMs == earlier.startedAtMs
    && (forall m: Milestone :: MilestoneOf(earlier, m).Some? ==> MilestoneOf(later, m) == MilestoneOf(earlier, m))
    && (earlier.trade.Some? ==>
          && later.trade.Some? && later.trade.value.matched == earlier.trade.value.matched
          && (earlier.trade.value.claimAttemptedAtMs.Some? ==> later.trade == earlier.trade))
    && earlier.incidents <= later.incidents
  }

  lemma ClockAdvances(args: Args, s: ChainState, earlier: int, later: int)
    requires SoundState(args, s, earlier) && earlier <= later
    ensures SoundState(args, s, later)
  {
    forall k | 0 <= k < |Closed(s)|
      ensures SoundCycle(args, Closed(s)[k], later)
    {
      assert SoundCycle(args, Closed(s)[k], earlier);
    }
  }

  lemma SoundReplacement(args: Args, s: ChainState, c: Cycle, r: ChainState, clock: int)
    requires s.current.Some? && SoundState(args, s, clock)
    requires r.cycles == s.cycles && r.current == Some(c)
    requires c.cycleIndex == s.current.value.cycleIndex && c.duelKey == s.current.value.duelKey
    requires SoundCycle(args, c, clock)
    ensures SoundState(args, r, clock)
  {
    forall k | 0 <= k < |Closed(s)| - 1
      ensures Closed(r)[k] == Closed(s)[k]
    {
    }
    assert Closed(s)[|Closed(s)| - 1] == s.current.value;
    assert Closed(r)[|Closed(r)| - 1] == c;
  }

  lemma SoundAppend(args: Args, s: ChainState, c: Cycle, r: ChainState, clock: int)
    requires SoundState(args, s, clock)
    requires r.cycles == Closed(s) && r.current == Some(c)
    requires c.cycleIndex == |Closed(s)| + 1 && (s.current.Some? ==> c.duelKey != s.current.value.duelKey)
    requires SoundCycle(args, c, clock)
    ensures SoundState(args, r, clock)
  {
    if s.current.Some? {
      assert Closed(s)[|Closed(s)| - 1] == s.current.value;
    }
    assert Closed(r)[|Closed(r)| - 1] == c;
    forall k | 0 <= k < |Closed(s)|
      ensures Closed(r)[k] == Closed(s)[k]
    {
    }
  }

  /** Entering a poll's cycle continues the running record or opens the next one. */
  lemma EnteredCycles(args: Args, s: ChainState, p: ChainSnapshot, clock: int)
    requires SoundState(args, s, clock) && clock <= p.fetchedAtMs
    ensures SoundState(args, Entered(s, p), p.fetchedAtMs)
  {
    var entered := Entered(s, p);
    ClockAdvances(args, s, clock, p.fetchedAtMs);
    if Continues(s, p) {
      assert Closed(s)[|Closed(s)| - 1] == s.current.value;
      SoundReplacement(args, s, entered.current.value, entered, p.fetchedAtMs);
    } else {
      SoundAppend(args, s, entered.current.value, entered, p.fetchedAtMs);
    }
  }

  lemma StampedCycle(args: Args, s: ChainState, p: ChainSnapshot)
    requires s.current.Some? && SoundCycle(args, s.current.value, p.fetchedAtMs)
    ensures SoundCycle(args, Stamped(s, p).current.value, p.fetchedAtMs)
  {
  }

  lemma StampedExtends(s: ChainState, p: ChainSnapshot)
    requires s.current.Some?
    ensures Extends(Stamped(s, p).current.value, s.current.value)
  {
    var stamped := Stamped(s, p);
    forall m: Milestone | MilestoneOf(s.current.value, m).Some?
      ensures MilestoneOf(stamped.current.value, m) == MilestoneOf(s.current.value, m)
    {
      StampedMilestone(s, p, m);
    }
  }

  lemma ActedCycleSound(args: Args, s: ChainState, p: ChainSnapshot)
    requires s.current.Some? && SoundCycle(args, s.current.value, p.fetchedAtMs)
    requires IsQuoted(p) ==> s.current.value.quotesAtMs.Some?
    ensures SoundCycle(args, Acted(args, s, p).current.value, p.fetchedAtMs)
  {
  }

  lemma ActedExtends(args: Args, s: ChainState, p: ChainSnapshot)
    requires s.current.Some?
    ensures Extends(Acted(args, s, p).current.value, s.current.value)
  {
    var c, acted := s.current.value, Acted(args, s, p).current.value;
    forall m: Milestone
      ensures MilestoneOf(acted, m) == MilestoneOf(c, m)
    {
    }
  }

  lemma ExtendsIsTransitive(a: Cycle, b: Cycle, c: Cycle)
    requires Extends(a, b) && Extends(b, c)
    ensures Extends(a, c)
  {
    forall m: Milestone | MilestoneOf(c, m).Some?
      ensures MilestoneOf(a, m) == MilestoneOf(c, m)
    {
      assert MilestoneOf(b, m) == MilestoneOf(c, m);
    }
  }

  /** One poll keeps the invariant. */
  lemma StepIsSound(args: Args, s: ChainState, p: ChainSnapshot, clock: int)
    requires SoundState(args, s, clock) && clock <= p.fetchedAtMs
    ensures SoundState(args, Step(args, s, p), p.fetchedAtMs)
  {
    var entered := Entered(s, p);
    var stamped := Stamped(entered, p);
    var after := Acted(args, stamped, p);
    EnteredCycles(args, s, p, clock);
    assert Closed(entered)[|Closed(entered)| - 1] == entered.current.value;
    StampedCycle(args, entered, p);
    StampedMilestone(entered, p, QuotesSeen);
    ActedCycleSound(args, stamped, p);
    SoundReplacement(args, entered, after.current.value, after, p.fetchedAtMs);
  }

  /** Every record that one poll finds is still there after it, and only extended. */
  predicate AllExtend(later: seq<Cycle>, earlier: seq<Cycle>) {
    |earlier| <= |later| && forall k :: 0 <= k < |earlier| ==> Extends(later[k], earlier[k])
  }

  lemma StepExtends(args: Args, s: ChainState, p: ChainSnapshot)
    requires s.current.None? ==> s.cycles == []
    ensures AllExtend(Closed(Step(args, s, p)), Closed(s))
  {
    hide StaleCount, ActedCycle, StampedCodes, AllExtend, Stamp;
    var entered := Entered(s, p);
    var stamped := Stamped(entered, p);
    var after := Acted(args, stamped, p);
    StampedExtends(entered, p);
    ActedExtends(args, stamped, p);
    ExtendsIsTransitive(after.current.value, stamped.current.value, entered.current.value);
    if Continues(s, p) {
      ExtendsIsTransitive(after.current.value, entered.current.value, s.current.value);
    }
    OnlyLastChanges(s, after, Continues(s, p));
  }

  lemma OnlyLastChanges(s: ChainState, after: ChainState, continues: bool)
    requires after.current.Some? && (continues ==> s.current.Some?)
    requires after.cycles == (if continues then s.cycles else Closed(s))
    requires continues ==> Extends(after.current.value, s.current.value)
    ensures AllExtend(Closed(after), Closed(s))
  {
    forall k | 0 <= k < |Closed(s)|
      ensures Extends(Closed(after)[k], Closed(s)[k])
    {
      if continues && k == |Closed(s)| - 1 {
        assert Closed(after)[k] == after.current.value && Closed(s)[k] == s.current.value;
      } else {
        assert Closed(after)[k] == Closed(s)[k];
      }
    }
  }

  function ClockAfter(polls: seq<ChainSnapshot>, n: nat): int
    requires n <= |polls|
  {
    if n > 0 then polls[n - 1].fetchedAtMs else if |polls| > 0 then polls[0].fetchedAtMs else 0
  }

  lemma InitialIsSound(args: Args, clock: int)
    ensures SoundState(args, INITIAL_STATE, clock)
  {
  }

  /** Every run over polls in time order: cycles are numbered 1..n, neighbouring duel keys differ, and every
      cycle record is sound. */
  lemma {:induction false} RunsAreSound(args: Args, polls: seq<ChainSnapshot>, n: nat)
    requires n <= |polls| && InOrder(polls)
    ensures SoundState(args, StateAfter(args, polls, n), ClockAfter(polls, n))
  {
    hide Step, SoundState;
    if n == 0 {
      InitialIsSound(args, ClockAfter(polls, 0));
    } else {
      RunsAreSound(args, polls, n - 1);
      StepIsSound(args, StateAfter(args, polls, n - 1), polls[n - 1], ClockAfter(polls, n - 1));
    }
  }

  lemma AllExtendIsTransitive(a: seq<Cycle>, b: seq<Cycle>, c: seq<Cycle>)
    requires AllExtend(a, b) && AllExtend(b, c)
    ensures AllExtend(a, c)
  {
    forall k | 0 <= k < |c|
      ensures Extends(a[k], c[k])
    {
      ExtendsIsTransitive(a[k], b[k], c[k]);
    }
  }

  lemma AllExtendIsReflexive(a: seq<Cycle>)
    ensures AllExtend(a, a)
  {
  }

  /** Write-once: whatever a record says after m polls, the record of that cycle still says after n. */
  lemma {:induction false} RecordsOnlyGrow(args: Args, polls: seq<ChainSnapshot>, m: nat, n: nat)
    requires m <= n <= |polls|
    ensures AllExtend(Closed(StateAfter(args, polls, n)), Closed(StateAfter(args, polls, m)))
  {
    hide AllExtend, Step;
    if m == n {
      AllExtendIsReflexive(Closed(StateAfter(args, polls, m)));
    } else {
      var earlier, before, later := StateAfter(args, polls, m), StateAfter(args, polls, n - 1), StateAfter(args, polls, n);
      RecordsOnlyGrow(args, polls, m, n - 1);
      StepExtends(args, before, polls[n - 1]);
      AllExtendIsTransitive(Closed(later), Closed(before), Closed(earlier));
    }
  }
}
