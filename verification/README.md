# Hyperbet market-making and monitoring: a verified model

This project models the parts of the Hyperbet prediction-market repository that decide, count and pay, and proves
what they keep. `dafny verify dfyconfig.toml` checks the whole project.

**The market maker** (`MarketMaker`, `QuoteGate`, `QuoteFairValue`, `QuoteDemand`, `QuoteSizing`, `QuotePricing`,
`QuoteRuns`, `QuoteChurn`, `AmmDecision`, `AmmPrices`). `MarketMaker` holds the decision engine: risk gate, fair
value, quote plan and the decision for one side, branch by branch. `QuoteGate`, `QuoteFairValue` and `QuoteDemand` say
what it decides in snapshot, signal, configuration and time alone: when the breaker is off and what it names, which
tick is quoted, and exactly when a side is quoted with at least a given size; `AmmPrices` does the same for the AMM.
On top of it `QuoteRuns` puts a desk with a position, one quote per side and a plan being worked through. Planning,
acting on one side, partial fills, outside cancels, failed placements and abandoned plans interleave in any order, so
fills and cancels may fall between the moment a plan is made and the moment a side acts on it.

**The staged soak monitor** (`StagedMonitor`, `StagedHistory`, `StagedIncidents`, `StagedTrades`, `StagedInvariants`,
`StagedVerdict`, `StagedFields`, `StagedSoak`). One class per chain updates a cycle record poll by poll; each of its
methods is proved to move the object's value as the machine on values does. The other modules relate that machine to
definitions that read only the polls: where a cycle starts, which poll first showed a milestone, which budgets were
overrun, how long a run of stale polls is, which poll placed a cycle's trade and which claimed it. The main results
say exactly when a soak passes and what a pass guarantees; `StagedFields` spells that guarantee on the fields of the
snapshots, with the budgets as numbers.

**Local cycles** (`LocalCycles`), **the order-book walk** (`BookWalk`), **money** (`QuoteMoney`), **wallet top-ups**
(`TopUp`), **the simulation's generator** (`Prng`) and **the registry's normalisers** (`Normalisers`) are smaller
pieces, each proved against a definition of its own.

Numbers: token amounts, times and basis points are integers, other JavaScript numbers are exact reals.
`Numbers.Round` is `Math.round` (ties go up), big-integer division truncates toward zero, and the generator works on
32-bit vectors with the sign-extending right shift written out.

## What turned out differently from what one would expect

- Both sides of a plan are capped by the same gross headroom on their own, so one tick can overshoot the gross limit.
  When two maximum quotes are below the limit this happens exactly when both sides are quoted and less than two minimum
  quotes are left (`QuoteSizing.PairOvershootsExactly`). The overshoot is then at most one minimum quote, in tighter
  configurations one maximum quote, and the bound is reached at the default one (`QuoteRuns.GrossSlackIsReached`). Runs
  that only plan with more room than that keep the limit itself (`QuoteRuns.GrossLimitKept`).
- Reduce-only mode picks the side that moves net exposure toward zero, but the size may carry it past zero.
  `QuoteSizing.ReduceOnlyFlipsExactly` says when; it never happens from a net exposure of one maximum quote on
  (`QuoteSizing.ReduceOnlyKeepsSign`), and one share at the defaults is a case of it
  (`QuoteSizing.ReduceOnlyCanFlipNetExposure`).
- The minimum refresh interval is measured on the age of the oldest quote of either side, so it bounds a side's churn
  only while that side's quote is the oldest. `QuoteChurn.EarlyRefreshExactly` says for every desk when a younger quote
  is re-placed early, and `QuoteChurn.OlderAskShortensTheStreak` is such a run.
- A higher fair value lowers the bid exactly when the bid's distance grows by more ticks than the fair value and the
  clamp does not hold it (`QuotePricing.BidFallsExactly`). That cannot happen while the quote width grows by at most two
  ticks per tick of fair value, which a target spread of at most 10000 bps with a toxic multiplier of at most two
  guarantees; a ten percent spread with a multiplier of three does it (`QuotePricing.HigherSignalLowersTheBid`).
- The AMM's default threshold of 300 bps never decides a trade: with the default sizes trades start at 1000 bps
  (`AmmDecision.DefaultThresholdIsInert`). The signal's weight is never used there (`AmmDecision.SignalWeightIsIgnored`).
- The match budget of 16 does not bound the account list: one level's orders are walked whole
  (`BookWalk.FirstLevelIsWalkedWhole`). The list holds at most 15 groups more than the longest level has orders
  (`BookWalk.WalkIsBounded`), and for every length some book reaches that (`BookWalk.BoundIsReached`).
- An UNKNOWN first phase of a local cycle is dropped only when the poll before it was UNKNOWN too
  (`LocalCycles.RecordedPhases`).
- The fatal generator state 0xFC001FFF has no predecessor, so of all seeds exactly those with these low 32 bits stop the
  generator (`Prng.OneDeadSeed`).

## Model

| member | source | states |
|---|---|---|
| QuoteGate.BreakerExactly | packages/hyperbet-mm-core/src/index.ts:376-457 | The breaker of a plan is off exactly when the market is open, not about to close, seen on all three feeds within their limits and below its loss and notional limits; otherwise it names the first of the seven causes that applies |
| QuoteGate.BreakerClearsPlan | packages/hyperbet-mm-core/src/index.ts:489-499 | A market that is not fit gets neither price nor size on either side |
| QuoteGate.PermissionsExactly | packages/hyperbet-mm-core/src/index.ts:424-435 | Exactly when a side may be quoted, in exposures, limits and the lopsidedness of the position |
| QuoteGate.FlagsExactly | packages/hyperbet-mm-core/src/index.ts:389-398 | The staleness, closing and drawdown figures reported with a plan |
| QuoteGate.LopsidedReads | packages/hyperbet-mm-core/src/index.ts:381-388 | The imbalance reaches a number of basis points exactly when net exposure is that share of gross, rounded |
| QuoteGate.ToxicityReads | packages/hyperbet-mm-core/src/index.ts:324-333 | Toxicity reaches a number of basis points exactly when the spread is that share of the mid, rounded, or there is no sound book |
| QuoteGate.RefreshWindowExactly | packages/hyperbet-mm-core/src/index.ts:597-598 | Exactly when a plan opens the refresh window |
| QuoteGate.DecisionExactly | packages/hyperbet-mm-core/src/index.ts:603-672 | Exactly when one side keeps, cancels and places; an unchanged quote younger than the maximum age is kept |
| QuoteGate.ReasonExactly | packages/hyperbet-mm-core/src/index.ts:612-670 | Exactly which reason a decision names |
| QuoteFairValue.FairValueExactly | packages/hyperbet-mm-core/src/index.ts:342-374 | Fair value is the band's tick nearest to the price, weighed between book mid and signal, after leaning away from the inventory |
| QuoteFairValue.WeightEndpoints | packages/hyperbet-mm-core/src/index.ts:350-360 | At weight zero the signal beside a book has no say, at weight one the book beside a signal has none |
| QuoteFairValue.PlanPricesExactly | packages/hyperbet-mm-core/src/index.ts:501-589 | Bid and ask are the band's ticks nearest to fair value less and plus half the width, the least covering width times the toxic multiplier |
| QuoteFairValue.CalmWidthIsLeast | packages/hyperbet-mm-core/src/index.ts:501-504 | The width before the multiplier is the least of at least five ticks that covers the target spread |
| QuoteDemand.BaseReachesExactly | packages/hyperbet-mm-core/src/index.ts:509-541 | The base size reaches k exactly when unused inventory, unused gross exposure and remaining drawdown each support k, scaled down on a toxic book |
| QuoteDemand.LeanReaches | packages/hyperbet-mm-core/src/index.ts:543-561 | A side's request reaches k exactly when the base, cut by the share that side is heavier but to no less than a quarter, does |
| QuoteDemand.SizeReachesExactly | packages/hyperbet-mm-core/src/index.ts:509-574 | A side is quoted with at least k units exactly when its limits admit k more and some base size that the headrooms support, leaned back, reaches k |
| QuoteSizing.ClampIsGreatestAdmissible | packages/hyperbet-mm-core/src/index.ts:459-468 | A clamped size is zero exactly when the request or a limit is below the minimum; otherwise it is the request or one of the limits and exceeds none of them |
| QuoteSizing.PlannedUnitsWithinCaps | packages/hyperbet-mm-core/src/index.ts:527-574 | A nonzero size means the side may be quoted, and lies within minimum, base size, maximum and the side's inventory, net and gross headroom |
| QuoteSizing.BaseUnitsFollowGrossHeadroom | packages/hyperbet-mm-core/src/index.ts:515-541 | Above the minimum, the base size is at most half the gross headroom, rounded |
| QuoteSizing.PairWithinGrossSlack | packages/hyperbet-mm-core/src/index.ts:515-574 | Both sides of one plan together overshoot the gross limit by at most the slack |
| QuoteSizing.PairOvershootsExactly | packages/hyperbet-mm-core/src/index.ts:515-574 | With two maximum quotes below the gross limit, both sides overshoot it exactly when both are quoted and less than two minimum quotes are left |
| QuoteSizing.PairKeepsGrossLimit | packages/hyperbet-mm-core/src/index.ts:515-574 | A headroom that can be checked beforehand keeps both sides within the gross limit, for every configuration |
| QuoteSizing.MirrorSymmetry | packages/hyperbet-mm-core/src/index.ts:376-574 | Swapping YES and NO exposure swaps permissions and sizes, negates net exposure and leaves breaker, reduce-only and gross exposure alone |
| QuoteSizing.ReduceOnlyOpensTheLighterSide | packages/hyperbet-mm-core/src/index.ts:402-450 | Exactly when reduce-only mode is on, and that it then opens only the side that moves net exposure toward zero |
| QuoteSizing.ReduceOnlyFlipsExactly | packages/hyperbet-mm-core/src/index.ts:402-574 | A reduce-only quote exceeds the net exposure exactly when one unit more than it, and at least the minimum, fits base size and headrooms of the lighter side |
| QuoteSizing.ReduceOnlyKeepsSign | packages/hyperbet-mm-core/src/index.ts:402-574 | From a net exposure of one maximum quote on, no fill of a reduce-only quote carries it past zero |
| QuoteSizing.ReduceOnlyCanFlipNetExposure | packages/hyperbet-mm-core/src/index.ts:543-574 | A concrete market in which reduce-only quotes 100 units against one share |
| QuotePricing.PricesStraddle | packages/hyperbet-mm-core/src/index.ts:501-589 | The two prices lie in the band around fair value, are apart exactly when the band has two prices, and the repair of crossed prices never changes them |
| QuotePricing.FairValueInBand | packages/hyperbet-mm-core/src/index.ts:342-374 | Fair value lies in the price band for every input |
| QuotePricing.QuotesNeverCross | packages/hyperbet-mm-core/src/index.ts:470-601 | For every snapshot, signal and time: min <= bid <= fair value <= ask <= max, and bid < ask exactly in a band of more than one price |
| QuotePricing.SpreadIsWidthExactly | packages/hyperbet-mm-core/src/index.ts:501-589 | The spread equals the quote width exactly when that is whole and no clamp binds; with no clamp it is less than one tick off |
| QuotePricing.FairValueFollowsSignal | packages/hyperbet-mm-core/src/index.ts:342-374 | A higher signal never lowers fair value, despite rounding and the inventory shift |
| QuotePricing.FairValueOpposesSkew | packages/hyperbet-mm-core/src/index.ts:342-374 | More inventory skew never raises fair value |
| QuotePricing.PricesFollowFairValue | packages/hyperbet-mm-core/src/index.ts:501-585 | A higher fair value never lowers bid or ask, although the width grows with it |
| QuotePricing.PlanFollowsSignal | packages/hyperbet-mm-core/src/index.ts:470-601 | Raising the signal never lowers a plan's fair value, bid or ask, and quotes the same sides |
| QuotePricing.PricesOpposeSkew | packages/hyperbet-mm-core/src/index.ts:342-589 | Raising the inventory skew never raises the prices quoted around the fair value |
| QuotePricing.PlanOpposesInventory | packages/hyperbet-mm-core/src/index.ts:336-601 | Of two plans that differ only in exposure, the one with the heavier skew has no higher fair value, and no higher price on a side that both quote |
| QuotePricing.BidFallsExactly | packages/hyperbet-mm-core/src/index.ts:501-589 | For any configuration, a higher fair value lowers the bid exactly when the bid distance grows by more ticks than it and the clamp does not hold the bid |
| QuotePricing.WidthGrowthDecides | packages/hyperbet-mm-core/src/index.ts:501-589 | Width growth of at most two ticks per tick of fair value keeps the bid from falling; two ticks more make it fall |
| QuotePricing.AskFollowsFairValue | packages/hyperbet-mm-core/src/index.ts:501-589 | The ask never falls as fair value rises, whatever the multiplier |
| QuotePricing.PlanBidFallsExactly | packages/hyperbet-mm-core/src/index.ts:470-601 | Of two plans that differ only in the signal, exactly when the higher signal lowers the bid |
| QuotePricing.HigherSignalLowersTheBid | packages/hyperbet-mm-core/src/index.ts:501-507 | Two plans of one market whose signals 110 and 111 give bids 94 and 93 |
| QuoteRuns.StepKeepsLimits | packages/hyperbet-mm-core/src/index.ts:603-672 | Every single event keeps the limits and stays within the allowance of the plan being worked through |
| QuoteRuns.InventorySafety | packages/hyperbet-mm-core/src/index.ts:376-672 | Over every run of plans, actions, fills, cancels and failed placements, each side's held plus open units stay within the inventory limit and gross exposure within the limit plus the slack |
| QuoteRuns.GrossSlackIsReached | packages/hyperbet-mm-core/src/index.ts:543-574 | At the default configuration one tick from inside the gross limit ends exactly one slack beyond it |
| QuoteRuns.GrossLimitKept | packages/hyperbet-mm-core/src/index.ts:515-672 | Over every run whose plans are made with gross room left, gross exposure stays within the limit itself |
| QuoteRuns.CarryOutcomes | packages/market-maker-bot/src/index.ts:1858-1903 | Acting on a side leaves its quote alone, removes it, or puts the planned size there |
| QuoteRuns.FillsAndCancelsMoveUnits | packages/hyperbet-evm/keeper/src/bot.ts:2358-2371 | A fill moves units from quote to position and touches nothing else; a cancel removes exactly the quoted units |
| QuoteRuns.PlanIsGated | packages/hyperbet-mm-core/src/index.ts:376-457 | The plan made for a desk has its breaker off exactly when the desk is fit to quote, and opens no side without room |
| QuoteRuns.LiveAfterActing | packages/hyperbet-mm-core/src/index.ts:611-672 | A quote live after its side acted is planned for, younger than the maximum age, and is what the plan asks for unless the refresh window was shut |
| QuoteRuns.DecidingAgainKeeps | packages/hyperbet-mm-core/src/index.ts:611-672 | Once a decision is carried out, deciding again at once on the same plan keeps |
| QuoteRuns.EndOfTickSafety | packages/market-maker-bot/src/index.ts:1821-1857 | After one plan has driven bid and ask, a live quote means that at planning time the market was open, not closing, freshly seen, within its loss and notional limits and with room on that side, and that the quote was younger than the maximum age when decided; a market that was not fit leaves both sides empty |
| QuoteRuns.KeeperTickSafety | packages/hyperbet-evm/keeper/src/bot.ts:2610-2664 | After the keeper has planned and acted for the ask and then for the bid of an open market, each live quote was fit, with room on its side and young enough, under its own plan |
| QuoteChurn.ChurnInvariantHolds | packages/hyperbet-mm-core/src/index.ts:597-665 | On every paced run the placement times of a side are spaced by the refresh interval, the last one being its live quote's |
| QuoteChurn.ChurnBound | packages/hyperbet-mm-core/src/index.ts:597-665 | k placements of a side that stays quoted and stays the oldest span at least k - 1 times the shorter of refresh interval and maximum age |
| QuoteChurn.EarlyRefreshExactly | packages/hyperbet-evm/keeper/src/bot.ts:2399-2405 | A quote younger than the interval is re-placed exactly when the plan moves it and the other side's quote has served the refresh interval |
| QuoteChurn.OlderAskShortensTheStreak | packages/hyperbet-evm/keeper/src/bot.ts:2399-2405 | A run at the defaults in which a bid is placed again after a tenth of the refresh interval |
| AmmDecision.TradesExactlyWhen | packages/hyperbet-mm-core/src/index.ts:732-842 | Exactly when an AMM trade is made, and then its direction toward fair value, its bounds, and that it is as large as they allow |
| AmmDecision.RawSizeReaches | packages/hyperbet-mm-core/src/index.ts:819-822 | The deviation from which the proportional size reaches a given size |
| AmmDecision.DefaultThresholdIsInert | packages/hyperbet-mm-core/src/index.ts:732-744 | At the defaults trades start at 1000 bps; from 300 to below 1000 bps the decision is held for its size |
| AmmPrices.GateExactly | packages/hyperbet-mm-core/src/index.ts:752-803 | Exactly when the AMM may trade: open, not closing, freshly seen, below its drawdown and the order book's notional limit |
| AmmPrices.TradesOnPrices | packages/hyperbet-mm-core/src/index.ts:786-842 | A trade of at least a given size is made exactly when the market is fit, there is room, and the gap between pool price and fair value reaches the threshold and a deviation that implies the size; YES below fair value, NO above |
| AmmPrices.HoldReasonsExactly | packages/hyperbet-mm-core/src/index.ts:799-826 | Exactly why nothing is traded |
| AmmPrices.DefaultGap | packages/hyperbet-mm-core/src/index.ts:732-744 | At the defaults trades start at a price gap of 0.09995 with room for 10000 |
| AmmPrices.AmmFairValueExactly | packages/hyperbet-mm-core/src/index.ts:776-784 | Fair value is a thousandth of the tick nearest to the signal's tick, or to 500 without a signal, after leaning away from the position |
| AmmPrices.BalancedFairValue | packages/hyperbet-mm-core/src/index.ts:776-784 | On a balanced position it is the signal's tick itself, a half without a signal |
| StagedMonitor.StagedRuntimeState.RecordIncident | scripts/pm-soak-monitor.ts:1454-1483 | An incident is appended to the cycle's record and to the run's list |
| StagedMonitor.StagedRuntimeState.EnterCycle | scripts/pm-soak-monitor.ts:2608-2647 | A new duel key closes the running cycle, opens the next number and clears every flag and counter; the bet close time follows the active duel |
| StagedMonitor.StagedRuntimeState.StampPhase | scripts/pm-soak-monitor.ts:2649-2670 | Resolution is stamped on the first change to that phase |
| StagedMonitor.StagedRuntimeState.StampMilestones | scripts/pm-soak-monitor.ts:2672-2722 | The other five milestones are stamped once, on the first poll that shows them |
| StagedMonitor.StagedRuntimeState.RaiseLagAlarms | scripts/pm-soak-monitor.ts:2724-2793 | The four lag alarms, in order, each gated by its flag |
| StagedMonitor.StagedRuntimeState.CountStaleQuotes | scripts/pm-soak-monitor.ts:2795-2816 | The stale counter and its alarm on the third stale poll |
| StagedMonitor.StagedRuntimeState.AttemptTrade | scripts/pm-soak-monitor.ts:2818-2850 | What a due canary trade records and raises for every outcome of the call |
| StagedMonitor.StagedRuntimeState.AttemptClaim | scripts/pm-soak-monitor.ts:2852-2894 | What a due claim records and raises for every outcome of the call |
| StagedMonitor.StagedRuntimeState.ProcessStagedSnapshot | scripts/pm-soak-monitor.ts:2581-2895 | One poll moves the object's value and the run's incident list exactly as the machine on values does |
| StagedHistory.RecordFollowsHistory | scripts/pm-soak-monitor.ts:2608-2722 | After every poll the record's milestones are the times of the first polls of the cycle that showed them, with the cycle's start and bet close time |
| StagedIncidents.LagIncidentsExactly | scripts/pm-soak-monitor.ts:2724-2793 | Each lag incident is in the cycle's record once if its budget was overrun in the cycle and never otherwise |
| StagedIncidents.StaleIncidentsExactly | scripts/pm-soak-monitor.ts:2795-2816 | The stale counter is the length of the stale run modulo three, and there is one stale incident per completed third |
| StagedIncidents.StaleRunRaisesThirds | scripts/pm-soak-monitor.ts:2795-2816 | k consecutive stale polls of one cycle raise exactly k / 3 stale incidents |
| StagedTrades.RecordFollowsTrade | scripts/pm-soak-monitor.ts:2818-2894 | After every poll the record holds the number of its cycle, the trade of the first poll that tried one and whose call returned, and the claim likewise; each poll raises exactly the trade and claim codes that its outcome calls for |
| StagedTrades.ClearedFollowsPolls | scripts/pm-soak-monitor.ts:2852-2894 | The record counts as cleared exactly when the polls of its cycle show a cleared claim |
| StagedInvariants.StepIsSound | scripts/pm-soak-monitor.ts:2608-2894 | One poll in time order keeps the invariant of all cycle records |
| StagedInvariants.RunsAreSound | scripts/pm-soak-monitor.ts:2608-2894 | On every run cycles are numbered 1..n, neighbouring duel keys differ, quotes imply an earlier opening, a terminal state an earlier proposal, a trade quotes, a claim a matched trade in a terminal state |
| StagedInvariants.RecordsOnlyGrow | scripts/pm-soak-monitor.ts:2608-2894 | Milestones, trades and claims are written once and incidents only appended, over any two points of a run |
| StagedVerdict.LogEmptyExactly | scripts/pm-soak-monitor.ts:2415-2450 | The run's incident list is empty exactly when every fetch arrived and no chain's machine raised anything |
| StagedVerdict.FinalClears | scripts/pm-soak-monitor.ts:2484-2488 | The claims a summary counts as cleared are the cycles whose polls end with a cleared claim |
| StagedVerdict.VerdictExactly | scripts/pm-soak-monitor.ts:2516-2531 | A soak passes if and only if every fetch arrived and, for every chain, no poll overruns a budget, completes a third of a stale run or fails a trade or claim, every cycle's milestones lie within budget, and enough cycles end with a cleared claim, all read off the polls |
| StagedVerdict.PassIsSound | scripts/pm-soak-monitor.ts:2516-2531 | If a soak passes, then at every poll of every chain a milestone past its budget was recorded within it, and past the close plus its budget the market is neither open nor quoted |
| StagedVerdict.EveryPollProcessed | scripts/pm-soak-monitor.ts:2415-2450 | If every fetch arrived, each chain's machine processed every poll |
| StagedFields.PollReads | scripts/pm-soak-monitor.ts:847-865 | Which fields make a poll open, quoted on both sides, quoted on any side, or stale |
| StagedFields.OutcomeReads | scripts/pm-soak-monitor.ts:826-845 | Which lifecycles count as proposed and as terminal |
| StagedFields.KeyAndPhaseRead | scripts/pm-soak-monitor.ts:716-820 | The duel key and the phase are the first non-empty candidates in order of preference |
| StagedFields.TradedCycles | scripts/pm-soak-monitor.ts:2910-2912 | The first four cycles and every fourth one after them are traded |
| StagedFields.BetCloseOnFields | scripts/pm-soak-monitor.ts:2620-2647 | The bet close time in force is the last one the active duel gave in the cycle, else the status chain's at its start |
| StagedFields.StampsOnFields | scripts/pm-soak-monitor.ts:2649-2722 | A recorded milestone is the fetch time of the first poll of the cycle whose fields show it, and none is recorded while no poll's do |
| StagedFields.StaleAlarmOnFields | scripts/pm-soak-monitor.ts:2795-2816 | A stale alarm means three polls in a row of one cycle with quotes older than two polling intervals on an open market |
| StagedFields.PassOnFields | scripts/pm-soak-monitor.ts:2516-2531 | If a soak passes, the open, quote and proposal budgets of 15, 20 and 60 seconds are met at every poll, ten seconds after the close no side is quoted and the market is not open, and a run of two hours cleared three claims per chain |
| StagedFields.OneSidedQuoteIsCaught | scripts/pm-soak-monitor.ts:2759-2775 | A quote on one side only, twenty seconds after the close, raises the close alarm |
| StagedSoak.AddCycle | scripts/pm-soak-monitor.ts:2475-2490 | Adding a cycle to a summary keeps all lags within budget exactly when the cycle's own are, and counts its terminal state, trade, match, cleared claim and incidents |
| StagedSoak.AddCycles | scripts/pm-soak-monitor.ts:2473-2490 | The same for all of a chain's cycles: the counts are the numbers of cycles that ended, traded, matched and cleared |
| StagedSoak.RunStagedSoak | scripts/pm-soak-monitor.ts:2360-2531 | For every sequence of poll answers the loop's verdict and incident list are those defined on the answers |
| LocalCycles.RunLocalCycles | scripts/pm-soak-monitor.ts:2149-2256 | The loop's cycle list is the one read off the polls by cutting them where the cycle id changes |
| LocalCycles.CyclesTileTime | scripts/pm-soak-monitor.ts:2149-2256 | Each cycle ends when the next begins, neighbours differ in id, and durations add up to the whole span |
| LocalCycles.CyclesDescribePolls | scripts/pm-soak-monitor.ts:2149-2206 | The records cover the polls in order without gaps: record k has the id, start, greatest market count and phases without repetition of the polls between cut k and the next |
| LocalCycles.RecordedPhasesExactly | scripts/pm-soak-monitor.ts:2149-2204 | A record holds exactly the phases of its polls, except an UNKNOWN first phase after an UNKNOWN poll |
| LocalCycles.RecordedPhasesEnd | scripts/pm-soak-monitor.ts:2183-2204 | A record ends with the phase of its last poll |
| BookWalk.WalkOrders | scripts/pm-soak-monitor.ts:3221-3255 | The inner loop appends the groups of the walk along one level's list and ends with that walk's amount and count |
| BookWalk.BuildRemainingAccounts | scripts/pm-soak-monitor.ts:3174-3262 | The account list is the flattening of the walk's groups and the call fails exactly when the walk meets a missing order; on a well-formed book whose best price is its best level it never fails and collects, for either side, only orders inside the limit, none worse than one left behind, the oldest of the best level first, none that the amount does not need, and with fewer than eight groups every one within reach unless the amount is filled |
| BookWalk.BestAreCollected | scripts/pm-soak-monitor.ts:3186-3259 | The same of the walk itself |
| BookWalk.WalkCollects | scripts/pm-soak-monitor.ts:3192-3259 | From any start, each collected order is of its own level with its own maker, and no order passed over is better than a collected one |
| BookWalk.WalkReachesAll | scripts/pm-soak-monitor.ts:3192-3259 | A walk that neither amount nor match budget stops has collected every order up to the first missing level |
| BookWalk.LevelEndsEarly | scripts/pm-soak-monitor.ts:3221-3243 | On any book, a missing order fails the call, and an inactive or exhausted one is listed once and ends its level |
| BookWalk.AccountsReadBack | scripts/pm-soak-monitor.ts:3211-3254 | The flat account list determines its groups, each order preceded by its own level |
| BookWalk.ReadingIsExact | scripts/pm-soak-monitor.ts:3211-3254 | Any list that can be read as groups is the flattening of what it reads as |
| BookWalk.WalkGoesOutwards | scripts/pm-soak-monitor.ts:3192-3259 | On any book, the levels visited exist, lie inside the limit, go outwards only and span at most 16 prices |
| BookWalk.WalkRefinesPriceTime | scripts/pm-soak-monitor.ts:3174-3262 | On a well-formed book the walk visits a prefix of the price-time list, takes exactly what those orders hold up to the amount, and leaves amount untaken only when list or budget is exhausted |
| BookWalk.FirstLevelIsWalkedWhole | scripts/pm-soak-monitor.ts:3221-3255 | An amount that outlasts the first level's list visits all of it, however long |
| BookWalk.WalkIsBounded | scripts/pm-soak-monitor.ts:3192-3259 | On a well-formed book the walk collects at most 15 groups less the matches so far, plus the length of the longest level |
| BookWalk.BoundIsReached | scripts/pm-soak-monitor.ts:3192-3259 | For every length of a level some well-formed book reaches that bound |
| QuoteMoney.DustBound | scripts/pm-soak-monitor.ts:656-659 | Paying an order in n parts at one price costs no more than at once and at most n - 1 atoms less |
| QuoteMoney.DustOfSingleAtoms | scripts/pm-soak-monitor.ts:656-659 | The dust bound is reached for every n up to 1000 |
| QuoteMoney.SidesAddUp | scripts/pm-soak-monitor.ts:656-659 | The two sides of a trade pay the amount between them, one atom less when the split is uneven |
| QuoteMoney.OrderValueCoversFills | scripts/pm-soak-monitor.ts:661-665 | Any split with two separately floored one percent fees per fill stays below the value sent, by the pad at least and four more atoms per fill at most |
| QuoteMoney.KeeperAgreesWithMonitor | packages/hyperbet-evm-keeper-core/index.ts:243-256 | The keeper names a cost exactly when amount and the monitor's cost are positive, and then the same cost |
| QuoteMoney.CostIsShareRoundedDown | scripts/pm-soak-monitor.ts:656-659 | A cost is the exact share of the amount rounded down: the price for a buyer, what it lacks of a thousand for a seller |
| QuoteMoney.FeeIsShareRoundedDown | packages/hyperbet-evm-keeper-core/index.ts:258-261 | A fee is the exact share rounded down, and nothing for no amount or rate |
| TopUp.TopUpChain | scripts/fund-stage-a-evm-wallets.ts:187-260 | The script fails on the first role without an address before paying anything; otherwise, in targets and balances alone, it pays min(available, what all roles lack), no role more than it lacks, every role all of it when that is covered, and no role while one before it in the funding order still lacks something; no role ends above the greater of its balance and its target |
| TopUp.PaymentsFund | scripts/fund-stage-a-evm-wallets.ts:197-256 | The same of the payments |
| TopUp.RolesEndAtTargets | scripts/fund-stage-a-evm-wallets.ts:197-256 | With one target per role, every role ends at the greater of balance and target when everything lacking is covered, and never above |
| TopUp.PriorityIsPosition | scripts/fund-stage-a-evm-wallets.ts:40-48 | The funding order, role by role |
| TopUp.Spend | scripts/fund-stage-a-evm-wallets.ts:239-256 | The spending loop pays the closed-form shares in order and leaves what they leave |
| TopUp.SortIsSortedPermutation | scripts/fund-stage-a-evm-wallets.ts:234-237 | The order is by funding priority and loses or invents no transfer |
| TopUp.SharesSumUp | scripts/fund-stage-a-evm-wallets.ts:239-256 | The first k shares add up to the smaller of the balance and what the first k roles lack |
| TopUp.ShortRoleEndsFunding | scripts/fund-stage-a-evm-wallets.ts:239-256 | After a role that is not fully funded every later role gets nothing |
| TopUp.WaterfallIsBest | scripts/fund-stage-a-evm-wallets.ts:40-48 | No other spending without overshoot gives any leading group of roles more |
| TopUp.PaymentsTotal | scripts/fund-stage-a-evm-wallets.ts:239-256 | The payments sent total the shares |
| Prng.Prng.Next | scripts/pm-agent-simulation.ts:41-46 | The state steps once and the value drawn lies in [0, 1) |
| Prng.Prng.NextInt | scripts/pm-agent-simulation.ts:47-49 | The state steps once and the integer lies between its bounds |
| Prng.Prng.NextBool | scripts/pm-agent-simulation.ts:50 | The state steps once and the answer compares the drawn value with p |
| Prng.SeedsExactly | scripts/pm-agent-simulation.ts:40 | A seed counts by its remainder modulo two to the 32, with one in place of zero |
| Prng.StepIsLinear | scripts/pm-agent-simulation.ts:42-44 | A step is linear over exclusive or |
| Prng.StepIsTwoToOne | scripts/pm-agent-simulation.ts:42-44 | Two states step to the same one exactly when they are equal or differ by 0xFC001FFF |
| Prng.FatalIsNeverReached | scripts/pm-agent-simulation.ts:42-44 | No step produces 0xFC001FFF |
| Prng.StuckExactly | scripts/pm-agent-simulation.ts:41-46 | After n > 0 steps the state is zero exactly when it started as zero or 0xFC001FFF |
| Prng.OneDeadSeed | scripts/pm-agent-simulation.ts:40-46 | A seed ever draws zero exactly when its low 32 bits are 0xFC001FFF, and then it always does |
| Prng.IntInRange | scripts/pm-agent-simulation.ts:47-49 | Every integer drawn lies between its bounds |
| Prng.IntBucket | scripts/pm-agent-simulation.ts:47-49 | Which states draw which integer |
| Prng.EveryValueIsDrawn | scripts/pm-agent-simulation.ts:47-49 | With no more values than states, every value between the bounds is drawn by some state |
| Normalisers.KeeperAgreesWithRegistry | packages/hyperbet-evm-keeper-core/index.ts:119-124 | The keeper's and the registry's duel-key normalisers agree on every input |
| Normalisers.DuelKeyIdempotent | packages/hyperbet-chain-registry/src/index.ts:987-1000 | Normalising a normalised key under either prefix option is normalising the original under the later option |
| Normalisers.KeyReadsExactly | packages/hyperbet-chain-registry/src/index.ts:987-1000 | A value names a key exactly when the key is 64 hexadecimal digits and the trimmed lower-case value is the key or the key after 0x |
| Normalisers.TrimExactly | packages/hyperbet-chain-registry/src/index.ts:992 | Trimming takes white space off both ends and nothing else |
| Normalisers.LowerCharExactly | packages/hyperbet-chain-registry/src/index.ts:992 | Lower case changes the twenty-six capital letters and nothing else |
| Normalisers.BuildAliasMap | packages/hyperbet-chain-registry/src/index.ts:557-565 | The table built by the nested loops maps an alias to the chain of the last deployment that spells it |
| Normalisers.AliasesOfDeployments | packages/hyperbet-chain-registry/src/index.ts:557-565 | For the deployments listed that table is the alias lookup of the normalisers |
| Normalisers.ChainKeyExactly | packages/hyperbet-chain-registry/src/index.ts:893-901 | What every chain name reads as, the fallback included |
| Normalisers.ChainReadersAgree | packages/hyperbet-chain-registry/src/index.ts:917-924 | The record reader and the name reader take the same names |
| Normalisers.ParseChainList | packages/hyperbet-chain-registry/src/index.ts:871-890 | The loop returns the chains the tokens name, each where first named, or the fallback |
| Normalisers.SeparatorsAre | packages/hyperbet-chain-registry/src/index.ts:875-878 | Names are separated by commas and the twenty-five white space characters |
| Normalisers.NamedExactly | packages/hyperbet-chain-registry/src/index.ts:882-889 | A chain is listed exactly when some token names it |
| Normalisers.ChainListIsStable | packages/hyperbet-chain-registry/src/index.ts:871-901 | With a duplicate-free fallback the list is duplicate-free, and reading back its comma-joined names gives it again |
| Normalisers.MetadataIdempotent | packages/hyperbet-chain-registry/src/index.ts:1002-1020 | Normalising normalised metadata changes nothing |
| Normalisers.RecordIdempotent | packages/hyperbet-chain-registry/src/index.ts:1022-1061 | Normalising a normalised record gives what normalising the original with the second prefix option gives |
| Normalisers.RecordReadsBack | packages/hyperbet-chain-registry/src/index.ts:1022-1061 | A clean record, written out field by field, is read as itself |
| Normalisers.RecordsAreClean | packages/hyperbet-chain-registry/src/index.ts:1022-1061 | What is read is always a clean record, and there is none exactly when the value is no object or its chain is unknown |
| Normalisers.MetadataKeepsOthers | packages/hyperbet-chain-registry/src/index.ts:1002-1020 | Metadata keeps every field that is not one of the four reserved ones |
| Normalisers.MetadataCleansReserved | packages/hyperbet-chain-registry/src/index.ts:1009-1019 | Each reserved field that is no text, or no finite number, reads as null, and one that is as itself |

## Left out

- The Solidity and Solana programs (matching engine, oracle, perps, AMM contracts): only the arithmetic and walks of the
  TypeScript side are modelled.
- Fetching, wallets, transactions, receipts, screenshots, artifact files and command lines: snapshots, balances, accounts
  and the outcomes of trade and claim calls are inputs.
- Rounding of 64-bit floating point: JavaScript numbers are exact integers and reals; exposures, times and the integer
  settings of a configuration are integers.
- Infinite and not-a-number inputs: an optional number is absent instead.
- Labels that a market-maker snapshot carries along (chain key, duel key, market reference), and reasons of plans beyond
  the ones decided on.
- AMM settings that the decision never reads (slippage, rebalancing) and the sell actions that it never takes.
- Net exposure over whole runs: cancelling one side moves net exposure the other way, so only the per-decision headroom
  is stated.
- QuoteChurn.ChurnBound: is stated for runs in which the side's quote is the oldest whenever a plan is made, because the
  keepers report the age of the oldest quote; without that the bound is false (QuoteChurn.OlderAskShortensTheStreak), and
  QuoteChurn.EarlyRefreshExactly gives the condition.
- QuoteRuns.KeeperTickSafety: is stated for an open market; on any other the keeper
  (packages/hyperbet-evm/keeper/src/bot.ts:2605-2608) forgets its tracked order without cancelling it, so an order it no
  longer knows of may stay on the book.
- The searches for a chain's market, status and health inside a staged snapshot: the snapshot holds what they find.
- The staged soak's clock: the loop runs over the answers of any number of polls instead of until a deadline.
- Milestone screenshots and context events of the staged monitor, and the CSV rows of its summary.
- The cycle record of the staged monitor is a value inside its state object, so aliasing between the running record and
  the list of cycles is not captured; it is moved, never shared, when a cycle closes.
- The drift, reconcile and failure branches of the local soak: such polls do not reach the cycle bookkeeping.
- Scoring of local cycles and the local verdict.
- Program-derived account addresses of the book walk: accounts are distinct tags, and amounts are unbounded naturals.
- `Array.sort` is a stable insertion on a sequence; gas, and two roles that share an address, are not part of the top-up.
- Big integers of money are unbounded, as in the source; the contracts' widths are not part of this model.
- Unicode case folding: only A to Z change case, which decides no hex key and no chain alias differently.
- Arrays as lifecycle records or metadata: an object is a map from field names to values.
- The remaining normalisers of the registry (base58 and hex addresses, deployment resolution), the UI, the SDK, the
  deployment scripts and `scripts/soak-harness.ts`: configuration, or a second copy of the quote cost.
