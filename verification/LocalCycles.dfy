/** The local soak's cycle bookkeeping: the polls that reach it are cut into cycles wherever the cycle id changes. */
module LocalCycles {
  import opened Numbers
  import opened Wrappers

  /** A phase is never the empty string: the reader falls back to UNKNOWN. */
  type Phase = s: string | s != "" witness "UNKNOWN"

  const UNKNOWN: Phase := "UNKNOWN"

  datatype LocalPoll = LocalPoll(
    cycleId: string, duelKey: string, duelId: Option<string>, phase: Phase, marketCount: nat, fetchedAtMs: int)

  datatype LocalCycle = LocalCycle(
    cycleId: string,
    duelKey: string,
    duelId: Option<string>,
    startedAtMs: int,
    endedAtMs: Option<int>,
    durationMs: Option<int>,
    phases: seq<Phase>,
    marketCountMax: nat)

  // ---------------------------------------------------------------------------------------------
  // What the cycles should be, read off the polls

  predicate StartsCycle(polls: seq<LocalPoll>, i: nat)
    requires i < |polls|
  {
    i == 0 || polls[i - 1].cycleId != polls[i].cycleId
  }

  /** The first poll of the cycle that poll i belongs to. */
  function CycleStart(polls: seq<LocalPoll>, i: nat): (s: nat)
    requires i < |polls|
    ensures s <= i && StartsCycle(polls, s) && polls[s].cycleId == polls[i].cycleId
  {
    if StartsCycle(polls, i) then i else CycleStart(polls, i - 1)
  }

  /** The phases seen from poll s to before poll e, repetitions dropped. */
  function Collapsed(polls: seq<LocalPoll>, s: nat, e: nat): (phases: seq<Phase>)
    requires s <= e <= |polls|
    ensures s < e ==> |phases| > 0 && phases[|phases| - 1] == polls[e - 1].phase && phases[0] == polls[s].phase
    ensures forall k :: 0 < k < |phases| ==> phases[k - 1] != phases[k]
    decreases e
  {
    if s == e then []
    else
      var earlier := Collapsed(polls, s, e - 1);
      if earlier != [] && earlier[|earlier| - 1] == polls[e - 1].phase then earlier else earlier + [polls[e - 1].phase]
  }

  /** An UNKNOWN first phase is left out only when the poll before the cycle was UNKNOWN too. */
  function RecordedPhases(polls: seq<LocalPoll>, s: nat, e: nat): seq<Phase>
    requires s < e <= |polls|
  {
    var phases := Collapsed(polls, s, e);
    if polls[s].phase == UNKNOWN && s > 0 && polls[s - 1].phase == UNKNOWN then phases[1..] else phases
  }

  /** The greatest market count among polls s to before e. */
  predicate IsPeak(polls: seq<LocalPoll>, s: nat, e: nat, count: nat)
    requires s < e <= |polls|
  {
    && (forall i :: s <= i < e ==> polls[i].marketCount <= count)
    && (exists i :: s <= i < e && polls[i].marketCount == count)
  }

  function MaxMarkets(polls: seq<LocalPoll>, s: nat, e: nat): (most: nat)
    requires s < e <= |polls|
    ensures IsPeak(polls, s, e, most)
    decreases e
  {
    if s + 1 == e then polls[s].marketCount else Max(MaxMarkets(polls, s, e - 1), polls[e - 1].marketCount)
  }

  /** The record of the cycle of polls s to before e, still open. */
  function OpenRecord(polls: seq<LocalPoll>, s: nat, e: nat): LocalCycle
    requires s < e <= |polls|
  {
    LocalCycle(polls[s].cycleId, polls[s].duelKey, polls[s].duelId, polls[s].fetchedAtMs, None, None,
               RecordedPhases(polls, s, e), MaxMarkets(polls, s, e))
  }

  /** The record of the cycle that poll n - 1 belongs to. */
  function Running(polls: seq<LocalPoll>, n: nat): LocalCycle
    requires 0 < n <= |polls|
  {
    OpenRecord(polls, CycleStart(polls, n - 1), n)
  }

  function Closed(cycle: LocalCycle, at: int): LocalCycle {
    cycle.(endedAtMs := Some(at), durationMs := Some(at - cycle.startedAtMs))
  }

  /** The cycles closed by the first n polls: each by the poll that starts the next one. */
  function ClosedCycles(polls: seq<LocalPoll>, n: nat): seq<LocalCycle>
    requires n <= |polls|
  {
    if n <= 1 then []
    else if StartsCycle(polls, n - 1) then ClosedCycles(polls, n - 1) + [Closed(Running(polls, n - 1), polls[n - 1].fetchedAtMs)]
    else ClosedCycles(polls, n - 1)
  }

  /** All cycles of a run; the last one is closed when the run finishes. */
  function CyclesOf(polls: seq<LocalPoll>, finishedAtMs: int): seq<LocalCycle> {
    if polls == [] then []
    else ClosedCycles(polls, |polls|) + [Closed(Running(polls, |polls|), finishedAtMs)]
  }

  // ---------------------------------------------------------------------------------------------
  // The loop

  function Observed(cycle: LocalCycle, previousPhase: string, poll: LocalPoll): LocalCycle {
    cycle.(
      marketCountMax := Max(cycle.marketCountMax, poll.marketCount),
      phases := if poll.phase != previousPhase && (cycle.phases == [] || cycle.phases[|cycle.phases| - 1] != poll.phase)
                then cycle.phases + [poll.phase] else cycle.phases)
  }

  /** One poll's bookkeeping on the running cycle. */
  method Observe(cycle: LocalCycle, previousPhase: string, poll: LocalPoll) returns (r: LocalCycle)
    ensures r == Observed(cycle, previousPhase, poll)
  {
    r := cycle.(marketCountMax := Max(cycle.marketCountMax, poll.marketCount));
    if poll.phase != previousPhase {
      if r.phases == [] || r.phases[|r.phases| - 1] != poll.phase {
        r := r.(phases := r.phases + [poll.phase]);
      }
    }
  }

  lemma PhasesGoOn(polls: seq<LocalPoll>, s: nat, i: nat)
    requires s < i < |polls|
    ensures var phases := RecordedPhases(polls, s, i);
      RecordedPhases(polls, s, i + 1)
        == if polls[i].phase != polls[i - 1].phase && (phases == [] || phases[|phases| - 1] != polls[i].phase)
           then phases + [polls[i].phase] else phases
  {
    var all, next := Collapsed(polls, s, i), Collapsed(polls, s, i + 1);
    if next != all {
      assert (all + [polls[i].phase])[1..] == all[1..] + [polls[i].phase];
    }
  }

  lemma PhasesStart(polls: seq<LocalPoll>, i: nat)
    requires i < |polls|
    ensures RecordedPhases(polls, i, i + 1)
      == if polls[i].phase == UNKNOWN && i > 0 && polls[i - 1].phase == UNKNOWN then [] else [polls[i].phase]
  {
    assert Collapsed(polls, i, i + 1) == [polls[i].phase];
  }

  function Fresh(poll: LocalPoll): LocalCycle {
    LocalCycle(poll.cycleId, poll.duelKey, poll.duelId, poll.fetchedAtMs, None, None,
               if poll.phase == UNKNOWN then [] else [poll.phase], poll.marketCount)
  }

  lemma RunningStarts(polls: seq<LocalPoll>, i: nat, previousPhase: string)
    requires i < |polls| && StartsCycle(polls, i)
    requires previousPhase == if i == 0 then "" else polls[i - 1].phase
    ensures Running(polls, i + 1) == Observed(Fresh(polls[i]), previousPhase, polls[i])
  {
    PhasesStart(polls, i);
    hide RecordedPhases;
    assert [] + [polls[i].phase] == [polls[i].phase];
  }

  lemma RunningGoesOn(polls: seq<LocalPoll>, i: nat)
    requires 0 < i < |polls| && !StartsCycle(polls, i)
    ensures Running(polls, i + 1) == Observed(Running(polls, i), polls[i - 1].phase, polls[i])
  {
    PhasesGoOn(polls, CycleStart(polls, i - 1), i);
    hide RecordedPhases;
  }

  method RunLocalCycles(polls: seq<LocalPoll>, finishedAtMs: int) returns (cycles: seq<LocalCycle>)
    ensures cycles == CyclesOf(polls, finishedAtMs)
  {
    hide OpenRecord, Observed;
    cycles := [];
    var currentCycle: Option<LocalCycle> := None;
    var previousPhase := "";
    for i := 0 to |polls|
      invariant cycles == ClosedCycles(polls, i)
      invariant i == 0 ==> currentCycle.None? && previousPhase == ""
      invariant i > 0 ==> currentCycle == Some(Running(polls, i)) && previousPhase == polls[i - 1].phase
    {
      var poll := polls[i];
      if i > 0 {
        RunningIdentity(polls, i);
      }
      if currentCycle.None? || currentCycle.value.cycleId != poll.cycleId {
        RunningStarts(polls, i, previousPhase);
        if currentCycle.Some? {
          cycles := cycles + [Closed(currentCycle.value, poll.fetchedAtMs)];
        }
        currentCycle := Some(Fresh(poll));
      } else {
        RunningGoesOn(polls, i);
      }
      var cycle := Observe(currentCycle.value, previousPhase, poll);
      currentCycle := Some(cycle);
      previousPhase := poll.phase;
    }
    if currentCycle.Some? {
      cycles := cycles + [Closed(currentCycle.value, finishedAtMs)];
    }
  }

  lemma RunningIdentity(polls: seq<LocalPoll>, n: nat)
    requires 0 < n <= |polls|
    ensures Running(polls, n).cycleId == polls[n - 1].cycleId
  {
  }

  // ---------------------------------------------------------------------------------------------
  // The cycles tile the observed time

  function TotalDuration(cycles: seq<LocalCycle>): int {
    if cycles == [] then 0
    else TotalDuration(cycles[..|cycles| - 1]) + cycles[|cycles| - 1].durationMs.GetOr(0)
  }

  /** Cycles that follow each other without gap or overlap from `from` to `to`, the last not sharing `nextId`. */
  predicate Tile(cycles: seq<LocalCycle>, from: int, to: int, nextId: Option<string>) {
    && (cycles == [] ==> from == to)
    && (cycles != [] ==>
          && cycles[0].startedAtMs == from
          && cycles[|cycles| - 1].endedAtMs == Some(to)
          && nextId != Some(cycles[|cycles| - 1].cycleId))
    && (forall k :: 0 < k < |cycles| ==>
          cycles[k - 1].endedAtMs == Some(cycles[k].startedAtMs) && cycles[k - 1].cycleId != cycles[k].cycleId)
    && TotalDuration(cycles) == to - from
  }

  lemma TileNext(cycles: seq<LocalCycle>, from: int, to: int, cycle: LocalCycle, at: int, nextId: Option<string>)
    requires Tile(cycles, from, to, Some(cycle.cycleId))
    requires cycle.startedAtMs == to && nextId != Some(cycle.cycleId)
    ensures Tile(cycles + [Closed(cycle, at)], from, at, nextId)
  {
    var longer := cycles + [Closed(cycle, at)];
    assert longer[..|longer| - 1] == cycles;
  }

  lemma {:induction false} ClosedCyclesTile(polls: seq<LocalPoll>, n: nat)
    requires 0 < n <= |polls|
    ensures Tile(ClosedCycles(polls, n), polls[0].fetchedAtMs, Running(polls, n).startedAtMs, Some(Running(polls, n).cycleId))
  {
    if n > 1 {
      ClosedCyclesTile(polls, n - 1);
      if StartsCycle(polls, n - 1) {
        TileNext(ClosedCycles(polls, n - 1), polls[0].fetchedAtMs, Running(polls, n - 1).startedAtMs,
                 Running(polls, n - 1), polls[n - 1].fetchedAtMs, Some(polls[n - 1].cycleId));
      }
    }
  }

  /** Local cycles tile the observed time: the first begins with the first poll, each ends when the next begins,
      the last ends with the run, neighbours differ in their id, and the durations add up to the whole span. */
  lemma CyclesTileTime(polls: seq<LocalPoll>, finishedAtMs: int)
    requires polls != []
    ensures Tile(CyclesOf(polls, finishedAtMs), polls[0].fetchedAtMs, finishedAtMs, None)
    ensures CyclesOf(polls, finishedAtMs) != []
  {
    ClosedCyclesTile(polls, |polls|);
    TileNext(ClosedCycles(polls, |polls|), polls[0].fetchedAtMs, Running(polls, |polls|).startedAtMs,
             Running(polls, |polls|), finishedAtMs, None);
  }

  /** What one cycle record says about the polls from s to before e that it stands for. */
  predicate Describes(cycle: LocalCycle, polls: seq<LocalPoll>, s: nat, e: nat)
    requires s < e <= |polls|
  {
    && StartsCycle(polls, s) && (e < |polls| ==> StartsCycle(polls, e))
    && ShareId(polls, s, e, cycle.cycleId)
    && cycle.duelKey == polls[s].duelKey && cycle.duelId == polls[s].duelId
    && cycle.startedAtMs == polls[s].fetchedAtMs
    && IsPeak(polls, s, e, cycle.marketCountMax)
    && NoRepeats(cycle.phases)
    && cycle.phases == RecordedPhases(polls, s, e)
  }

  predicate ShareId(polls: seq<LocalPoll>, s: nat, e: nat, id: string)
    requires s < e <= |polls|
  {
    && (forall i :: s < i < e ==> !StartsCycle(polls, i))
    && (forall i :: s <= i < e ==> polls[i].cycleId == id)
  }

  predicate NoRepeats(phases: seq<Phase>) { forall k :: 0 < k < |phases| ==> phases[k - 1] != phases[k] }

  lemma {:induction false} OneIdPerCycle(polls: seq<LocalPoll>, i: nat)
    requires i < |polls|
    ensures ShareId(polls, CycleStart(polls, i), i + 1, polls[i].cycleId)
  {
    if !StartsCycle(polls, i) {
      OneIdPerCycle(polls, i - 1);
    }
  }

  lemma RunningDescribes(polls: seq<LocalPoll>, n: nat, at: int)
    requires 0 < n <= |polls| && (n < |polls| ==> StartsCycle(polls, n))
    ensures Describes(Closed(Running(polls, n), at), polls, CycleStart(polls, n - 1), n)
  {
    hide RecordedPhases, MaxMarkets, StartsCycle, CycleStart, ShareId, IsPeak, NoRepeats;
    OneIdPerCycle(polls, n - 1);
    PhasesDiffer(polls, CycleStart(polls, n - 1), n);
  }

  lemma PhasesDiffer(polls: seq<LocalPoll>, s: nat, e: nat)
    requires s < e <= |polls|
    ensures NoRepeats(RecordedPhases(polls, s, e))
  {
  }

  lemma {:induction false} CollapsedPhases(polls: seq<LocalPoll>, s: nat, e: nat, phase: Phase)
    requires s < e <= |polls|
    ensures phase in Collapsed(polls, s, e) <==> exists i :: s <= i < e && polls[i].phase == phase
    decreases e
  {
    if s + 1 < e {
      CollapsedPhases(polls, s, e - 1, phase);
    }
  }

  /** Which phases a record holds: those of its polls, except that an UNKNOWN first phase after an UNKNOWN poll may
      be left out. */
  lemma RecordedPhasesExactly(polls: seq<LocalPoll>, s: nat, e: nat, phase: Phase)
    requires s < e <= |polls|
    ensures phase in RecordedPhases(polls, s, e) ==> exists j :: s <= j < e && polls[j].phase == phase
    ensures phase != UNKNOWN || s == 0 || polls[s - 1].phase != UNKNOWN ==>
      (phase in RecordedPhases(polls, s, e) <==> exists j :: s <= j < e && polls[j].phase == phase)
  {
    hide Collapsed;
    CollapsedPhases(polls, s, e, phase);
    HeadOrRest(Collapsed(polls, s, e), phase);
  }

  /** A record ends with the phase of its last poll. */
  lemma RecordedPhasesEnd(polls: seq<LocalPoll>, s: nat, e: nat)
    requires s < e <= |polls|
    ensures
      var phases := RecordedPhases(polls, s, e);
      if phases == [] then polls[e - 1].phase == UNKNOWN else phases[|phases| - 1] == polls[e - 1].phase
  {
    hide Collapsed;
    HeadOrRest(Collapsed(polls, s, e), UNKNOWN);
  }

  lemma HeadOrRest(all: seq<Phase>, phase: Phase)
    requires all != []
    ensures phase in all <==> phase == all[0] || phase in all[1..]
    ensures |all| > 1 ==> all[1..][|all| - 2] == all[|all| - 1]
  {
    assert all == [all[0]] + all[1..];
  }

  /** Where the cycles begin among the first n polls. */
  function Cuts(polls: seq<LocalPoll>, n: nat): (cuts: seq<nat>)
    requires n <= |polls|
    ensures cuts != []
  {
    if n <= 1 then [0] else if StartsCycle(polls, n - 1) then Cuts(polls, n - 1) + [n - 1] else Cuts(polls, n - 1)
  }

  /** Cuts that go up from the first poll. */
  predicate Ascending(cuts: seq<nat>) {
    cuts != [] && cuts[0] == 0 && forall k :: 0 < k < |cuts| ==> cuts[k - 1] < cuts[k]
  }

  /** Record k describes the polls between cut k and the next. */
  predicate DescribedBetween(cycles: seq<LocalCycle>, polls: seq<LocalPoll>, cuts: seq<nat>) {
    && |cuts| == |cycles| + 1
    && (forall k: nat :: k < |cycles| ==> DescribedAt(cycles, polls, cuts, k))
  }

  predicate DescribedAt(cycles: seq<LocalCycle>, polls: seq<LocalPoll>, cuts: seq<nat>, k: nat)
    requires k < |cycles| && |cuts| == |cycles| + 1
  {
    cuts[k] < cuts[k + 1] <= |polls| && Describes(cycles[k], polls, cuts[k], cuts[k + 1])
  }

  lemma {:induction false} CutsAscend(polls: seq<LocalPoll>, n: nat)
    requires n <= |polls|
    ensures Ascending(Cuts(polls, n))
    ensures n > 0 ==> Cuts(polls, n)[|Cuts(polls, n)| - 1] == CycleStart(polls, n - 1)
  {
    if n > 1 {
      CutsAscend(polls, n - 1);
    }
  }

  lemma DescribedOneMore(cycles: seq<LocalCycle>, polls: seq<LocalPoll>, cuts: seq<nat>, cycle: LocalCycle, cut: nat)
    requires DescribedBetween(cycles, polls, cuts)
    requires cuts[|cuts| - 1] < cut <= |polls| && Describes(cycle, polls, cuts[|cuts| - 1], cut)
    ensures DescribedBetween(cycles + [cycle], polls, cuts + [cut])
  {
    hide Describes;
    forall k: nat | k < |cycles + [cycle]|
      ensures DescribedAt(cycles + [cycle], polls, cuts + [cut], k)
    {
      if k < |cycles| {
        assert DescribedAt(cycles, polls, cuts, k);
      }
    }
  }

  lemma {:induction false} ClosedCyclesDescribe(polls: seq<LocalPoll>, n: nat)
    requires n <= |polls|
    ensures DescribedBetween(ClosedCycles(polls, n), polls, Cuts(polls, n))
  {
    if n > 1 {
      hide Describes, DescribedBetween, Running;
      ClosedCyclesDescribe(polls, n - 1);
      if StartsCycle(polls, n - 1) {
        CutsAscend(polls, n - 1);
        RunningDescribes(polls, n - 1, polls[n - 1].fetchedAtMs);
        DescribedOneMore(ClosedCycles(polls, n - 1), polls, Cuts(polls, n - 1),
                         Closed(Running(polls, n - 1), polls[n - 1].fetchedAtMs), n - 1);
      }
    }
  }

  /** All cuts of a run, the end included. */
  function AllCuts(polls: seq<LocalPoll>): (cuts: seq<nat>)
    ensures cuts != []
  {
    if polls == [] then [0] else Cuts(polls, |polls|) + [|polls|]
  }

  lemma CutsAndRecordsStart(polls: seq<LocalPoll>)
    ensures polls == [] ==> Cuts(polls, 0) == [0] && ClosedCycles(polls, 0) == []
  {
  }

  /** The records cover the polls in order and without gaps: the cuts go up from the first poll to past the last,
      and record k describes exactly the polls between cut k and the next: a maximal stretch with one cycle id, its
      start, its greatest market count, and its phases without repetition. */
  lemma CyclesDescribePolls(polls: seq<LocalPoll>, finishedAtMs: int)
    ensures Ascending(AllCuts(polls)) && AllCuts(polls)[|AllCuts(polls)| - 1] == |polls|
    ensures DescribedBetween(CyclesOf(polls, finishedAtMs), polls, AllCuts(polls))
  {
    hide Describes, DescribedBetween, Running, Cuts, ClosedCycles;
    CutsAscend(polls, |polls|);
    ClosedCyclesDescribe(polls, |polls|);
    CutsAndRecordsStart(polls);
    hide CycleStart;
    if polls != [] {
      RunningDescribes(polls, |polls|, finishedAtMs);
      DescribedOneMore(ClosedCycles(polls, |polls|), polls, Cuts(polls, |polls|),
                       Closed(Running(polls, |polls|), finishedAtMs), |polls|);
    }
  }
}
