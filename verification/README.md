# botDCA: a verified model

botDCA is a long-only DCA trading bot. This project models its hardest parts in Dafny and proves what they are for:

- **Exact algorithms.** The close matcher (a dynamic program with traceback), the tightening of a weighted average
  through a box of price intervals, the hypergeometric tail and the clustering of close fragments, each proved against a
  declarative specification: best ordered matching, set of feasible price vectors, Vandermonde's identity, maximal groups.
- **The replay engine and the DCA ladder.** A replay is a book (strategy, baskets, running totals) moved along price
  segments. Segments compose, upward and downward walks are bounded, totals are conserved over every run, the reported
  drawdown is the definition, and three implementations of the ladder agree.
- **The order protocol against an unreliable exchange.** Placement with retries, recovery of missed fills, the journal
  and its open-basket summary, and the live sync. The exchange is adversarial: it moves between any two calls, a command
  may raise whether or not it took effect, and a request lost on the way may land in any later sync.
- **The shared capital allocator.** Authorisations of any number of symbols against one account, over every interleaving.

Code that changes state is a class or a method with loops, each tied by its contract to a specification function; the
theorems are about those functions. Prices, quantities, fees and timestamps in seconds are exact reals; the program's
explicit tolerances are kept.

## How the modules fit

| module | models |
|---|---|
| `CloseMatching`, `FillBounds`, `Fisher`, `TraderExport` | the offline algorithms |
| `Domain`, `Strategy`, `Ladder` | baskets, the strategy, forecasts |
| `Replay`, `Walks`, `Backtest` | the replay as a function, what it does said of prices alone, the replay engine |
| `Instruments`, `Orders`, `Protection`, `Risk`, `OrderPlan` | rounding, protection check, per-symbol limits, the resting-order plan |
| `Placement`, `Persistence`, `Recovery` | idempotent placement, the journal, recovery of missed fills |
| `LiveBook`, `LiveScript` | the order book a live sync faces with all that may happen to it, and what a sync asks of it |
| `Reconciliation`, `LiveExchange`, `LiveService` | where a sync starts from, the exchange as an object, the service |
| `Portfolio` | authorisation and reservations |
| `Common` | options, results and small facts of real arithmetic |

## Where code and documentation disagree

Each is a promise of the documentation or of the design that the code keeps on some inputs only. The model follows the
code; the theorem named says for which inputs the promise holds.

- **Never two exits at once** (header of `botdca/protection.py`, lines 9-10). The sync (`botdca/live_service.py`, lines
  478-551) places the new take profit before it cancels the old one. Two never rest, in any state of any course of the
  sync, exactly when the resting take profits, the requests under way and the one the sync would create are at most one
  (`LiveScript.SyncKeepsOneTpExactly`). Without requests under way that is: the match was listed, or no take profit rests,
  or the planned identity is taken (`LiveScript.OneTpWithoutRequests`). A stop between the two commands leaves two, and over
  any run from there every sync holds while the position is open (`LiveScript.StopAfterPlacingLeavesTwo`,
  `LiveScript.AmbiguityPersists`).
- **A sync keeps an open position protected.** The identity of a take profit is a digest of basket, planned quantity and
  planned price. A sync that finds no match but whose planned identity is borne by a live order, or by a filled one, is
  answered with that order and creates nothing; it then cancels every take profit listed. Protection is kept in every
  course exactly when the match was listed or that identity was free (`LiveScript.ProtectionKeptExactly`). Every completed
  course ends on exactly the planned take profit exactly when, besides, no take-profit request of an earlier sync is still
  under way (`LiveScript.AlwaysEndsProtectedExactly`): one that lands late rests beside it. A planned order amended by hand
  is the other failing case (`LiveScript.AmendedTpIsStripped`).
- **At most one DCA order.** A DCA request lost on the way can land beside the next one. Two never rest, in any state of
  any course, exactly when there is at most one to begin with, counting requests under way, and none under way has another
  identity when the sync is about to create an order (`LiveScript.SyncKeepsOneDcaExactly`).
- **A repeated sync changes nothing.** In a quiet exchange with a coordinator it issues no command exactly when the first was
  held, or it could leave the planned take profit (the match listed or the identity free) and was not kept from a DCA the
  second may place, by a refusal or because the planned identity was spent on an order that has filled
  (`LiveService.RepeatedSyncMutatesNothing`). Without a coordinator the plan also reads the account, which the placed order's
  own margin lowers. With the planned identities free to be used, the second sync then mutates nothing exactly when a
  partially filled DCA rests, or the ladder or a cap blocks the DCA anyway, or both account readings decide the reserve
  check alike (`LiveService.RepeatedSyncReadsTheReserve`; `LiveService.OwnMarginBreaksTheReserve` is an instance).
- **The drop bounds of the fill-price report contain every true drop.** Over the feasible vectors with a positive price and
  average they do exactly when the least notional of the earlier fills is positive (`FillBounds.EvidenceIsExact`);
  `FillBounds.NegativeAverageBreaksDropBound` is a cycle for which it is not.
- **A replay ends.** The upward loop stops on every segment exactly when the take profit is not zero, or there is a
  re-entry delay, or no re-entry, or a maximum number of baskets (`Replay.ReplaysEndExactly`).
- **Recovery misses no fill.** It misses none with a visibility lag of up to 60.001 s, and can miss any fill with a longer
  one (`Recovery.RecoveryLeavesNoGap`, `Recovery.LongerLagLeavesGap`).
- **The shared caps hold.** A reservation is dropped after 60 s, on a restart, on a release, when its submission raises, and
  when the first part of its order fills; a DCA limit order (`botdca/live_service.py`, lines 616-647) may rest far longer.
  A restart also loses every observed exposure: it is read from the service's own basket (`botdca/live_service.py`, lines
  119-141), which a new process has to restore first, and the services start one by one (`botdca/api.py`, lines 183-195).
  The caps hold over every run in which each order goes out while the coordinator counts at least what is committed
  (`Portfolio.RunStaysWithinCaps`). At any state in which the caps leave room, every authorisation stays within them exactly
  when the reservations left make up for what is in flight and unobserved (`Portfolio.AuthorisationsAreSafeExactly`). Where
  each reservation left is that of an order in flight, this means that every order in flight is remembered and every basket
  observed (`Portfolio.ForgettingIsUnsafeExactly`): none has outlived its reservation (`Portfolio.WaitingIsSafeExactly`);
  after a restart nothing is in flight and every basket has been observed again (`Portfolio.RestartIsSafeExactly`).
  `Portfolio.WaitingCanExceedCap`, `Portfolio.RestartCanExceedCap` and `Portfolio.UnobservedBasketCanExceedCap` are
  instances.

## Model

| member | source | states |
|---|---|---|
| `CloseMatching.TableIsUpperBound` | botdca/historical_validation.py:376-417 | no ordered matching of the first i and j closes within the window beats the table's cell: more pairs, or as many with less total error |
| `CloseMatching.TraceAttains` | botdca/historical_validation.py:419-435 | the pairs read back from the recorded actions are an ordered matching that attains the cell's score |
| `CloseMatching.FillTables` | botdca/historical_validation.py:386-417 | the two tables filled in place hold the recurrence's score and action in every cell |
| `CloseMatching.Traceback` | botdca/historical_validation.py:419-435 | the backward loop collects exactly the traced pairs |
| `CloseMatching.OrderedCloseMatches` | botdca/historical_validation.py:376-435 | the result is an ordered matching inside the window, and no other has more pairs or as many with less total error |
| `CloseMatching.ErrorIsDistance` | botdca/historical_validation.py:399-404 | the error of a pair is the distance of its closes in seconds, and the window bounds it on both sides |
| `CloseMatching.ConcatenationIsOrdered` | botdca/historical_validation.py:339-346 | shifting a regime's matching by the closes before it and appending keeps the whole ordered and one-to-one |
| `CloseMatching.ValidateContinuous` | botdca/historical_validation.py:293-350 | all pairs are the shifted concatenation of one optimal matching per regime, and match all closes together in order |
| `CloseMatching.ComparisonMetrics` | botdca/historical_validation.py:480-503 | matched plus unmatched is the total on both sides, and no unmatched count is negative |
| `CloseMatching.OrderedIsBounded` | botdca/historical_validation.py:480-503 | an ordered matching has no more pairs than either side has closes |
| `FillBounds.FeasibleExactly` | botdca/entry_identification.py:445-467 | price vectors inside the ranges with the exported average exist exactly when the target lies between the extreme totals |
| `FillBounds.NarrowedIsSound` | botdca/entry_identification.py:450-467 | every feasible price vector lies inside every narrowed range |
| `FillBounds.NarrowedIsTight` | botdca/entry_identification.py:450-467 | both ends of every narrowed range are attained by feasible vectors |
| `FillBounds.NarrowedGap` | botdca/entry_identification.py:455-466 | a narrowed range crosses by at most the slack exactly when the target misses the extreme totals by at most the slack times the quantity |
| `FillBounds.Tighten` | botdca/entry_identification.py:450-467 | the loop refuses exactly when the target misses the extreme totals by more than the noise allowance of some fill, else returns the narrowed ranges with crossings up to the noise collapsed |
| `FillBounds.SpannedRangesAreNarrowed` | botdca/entry_identification.py:450-467 | for a target inside the extreme totals nothing collapses |
| `FillBounds.NoiseCollapsesRanges` | botdca/entry_identification.py:461-467 | for a target just outside every range is one point, half the miss beyond the candle's end on that side |
| `FillBounds.PriorIsReached` | botdca/entry_identification.py:469-497 | both ends of the bound on the notional of the fills before a level are attained by feasible vectors |
| `FillBounds.PriorOfNarrowed` | botdca/entry_identification.py:469-497 | computing that bound from the narrowed ranges neither widens nor shrinks it |
| `FillBounds.DropIsBounded` | botdca/entry_identification.py:485-497 | drop bounds formed from a positive lower average bound contain the true drop |
| `FillBounds.DropExceeded` | botdca/entry_identification.py:485-497 | formed from a negative one, the lower drop bound exceeds every true drop |
| `FillBounds.EvidenceIsExact` | botdca/entry_identification.py:468-513 | a level's evidence holds the exact ranges of its fill price and of the average before it over all feasible vectors, and its drop bounds hold of all positive ones exactly when the least prior notional is positive |
| `FillBounds.EvidenceFigures` | botdca/entry_identification.py:485-513 | a level reports its own range, the quotient of two neighbouring quantities, and drop bounds and midpoint of its ranges' ends and middles in percent |
| `FillBounds.NegativeAverageBreaksDropBound` | botdca/entry_identification.py:485-497 | for a cycle of two equal fills the reported lower drop bound is 500% while a feasible vector drops 0% |
| `FillBounds.EvidenceUnlessZero` | botdca/entry_identification.py:485-497 | a level's evidence divides by zero exactly when the least, the greatest or the middle prior notional is zero |
| `FillBounds.DeepCycleBounds` | botdca/entry_identification.py:432-513 | which of a missing candle, an infeasible average and a zero divisor refuses the cycle, each exactly; otherwise every level's evidence is that of the returned ranges, exact for a target inside the extreme totals |
| `FillBounds.AlignmentTestIsFeasibility` | botdca/historical_profile.py:211-221 | the report's range test holds exactly when some price vector inside the widened candles has the exported average |
| `Fisher.CombIsFactorialQuotient` | botdca/entry_identification.py:329-342 | the binomial coefficient used is the quotient of factorials |
| `Fisher.Vandermonde` | botdca/entry_identification.py:329-342 | the numerators summed over all counts are the number of draws (Vandermonde's identity) |
| `Fisher.TailIsCertainAtZero` | botdca/entry_identification.py:329-342 | summed over all feasible counts the tail is exactly one |
| `Fisher.TailIsAProbability` | botdca/entry_identification.py:329-342 | the tail lies in [0, 1] and never grows with the observed count |
| `Fisher.OneSidedFisherProbability` | botdca/entry_identification.py:329-342 | the sum over the feasible selected counts is the tail |
| `Fisher.CountTransitions` | botdca/entry_identification.py:295-308 | the deep and shallow counts of long cooldowns partition the long ones and fit their classes |
| `Fisher.CountsAre` | botdca/entry_identification.py:295-308 | the counts of deep, long and deep long transitions are the sizes of those sets |
| `Fisher.DeepCooldownSummary` | botdca/entry_identification.py:289-326 | the reported figure is the tail for the sizes of the sets of long, deep and deep long transitions, always legal arguments, and a probability |
| `TraderExport.SortIsSorted` | botdca/trader_export.py:349 | sorting by a total order sorts and keeps the elements |
| `TraderExport.Place` | botdca/trader_export.py:351-366 | a row joins the only group it fits, starts one when it fits none, and is refused when it fits two |
| `TraderExport.GreedyGroups` | botdca/trader_export.py:343-367 | the groups are a partition of the rows, pairwise within both tolerances, and no two could be merged |
| `TraderExport.GreedyRefusesExactly` | botdca/trader_export.py:361-362 | the pass refuses exactly when some row fits two groups of the rows before it |
| `TraderExport.CloseComponents` | botdca/trader_export.py:343-367 | the loop over the sorted bucket is the greedy pass, and what it returns groups the bucket |
| `TraderExport.RowsInOrder` | botdca/trader_export.py:349 | the pass sees the rows by close time, then price, then row of the export |
| `TraderExport.BucketByKey` | botdca/trader_export.py:327-329 | buckets have distinct keys, hold the rows of their key and together hold all rows |
| `TraderExport.GroupCloseFragments` | botdca/trader_export.py:321-340 | groups of one key are coherent and unmergeable and partition the rows; refused exactly when the rows of some key are ambiguous |
| `TraderExport.GroupsAreTogether` | botdca/trader_export.py:321-359 | two rows of one group share symbol, side, leverage and average entry and lie within both tolerances |
| `TraderExport.GroupsAreApart` | botdca/trader_export.py:351-366 | any two groups hold two rows that do not |
| `TraderExport.AdjacentSuffices` | botdca/trader_export.py:122-126 | sorted cycles are pairwise disjoint in time exactly when adjacent ones are |
| `TraderExport.CycleSpans` | botdca/trader_export.py:370-378 | a cycle spans from its first opening to its last close |
| `TraderExport.CyclesInOrder` | botdca/trader_export.py:122-126 | cycles are ordered by their close, those closed at once by their opening |
| `TraderExport.ParseCycles` | botdca/trader_export.py:117-130 | after an unambiguous grouping the cycles are accepted exactly when they are pairwise disjoint in time |
| `Strategy.PerformKeepsInvariant` | botdca/strategy.py:77-226 | every operation keeps the strategy well-formed: no basket while idle, positive fills, level within the pinned ladder |
| `Strategy.RunIsWellFormed` | botdca/strategy.py:77-226 | over every run a basket has an average, a take-profit price, and a next trigger and quantity exactly below the ladder's top |
| `Strategy.NextFillExactly` | botdca/strategy.py:156-203 | below the ladder's top the next trigger lies the step's drop below its reference (average, last fill or first fill) and the next order is the step's multiple of the last one |
| `Strategy.RestoreExactly` | botdca/strategy.py:119-151 | a basket is restored exactly from positive figures and a level of the ladder, deep levels only with the weighted-average reference; its next order multiplies the journaled last quantity |
| `Strategy.BeginExactly` | botdca/strategy.py:99-117 | a basket is begun exactly from the idle state with re-entry enabled, at a positive price and size: the given, the configured, or what the configured margin buys |
| `Strategy.DcaStrategy.constructor` | botdca/strategy.py:65-75 | a new strategy is paused without a basket |
| `Strategy.DcaStrategy.Resume` | botdca/strategy.py:77-79 | re-entry is enabled; active with a basket, idle without |
| `Strategy.DcaStrategy.Pause` | botdca/strategy.py:81-85 | re-entry is disabled and the state is paused |
| `Strategy.DcaStrategy.BeginCycle` | botdca/strategy.py:99-117 | opens a basket from the idle state at the configured size, or fails and changes nothing |
| `Strategy.DcaStrategy.RestoreCycle` | botdca/strategy.py:119-151 | rebuilds a basket as one fill with a pinned level and last quantity, or fails and changes nothing |
| `Strategy.DcaStrategy.ApplyDcaFill` | botdca/strategy.py:205-217 | appends the fill and advances the level, or fails and changes nothing |
| `Strategy.DcaStrategy.MarkClosed` | botdca/strategy.py:219-226 | removes the basket; idle when re-entry is enabled, else paused |
| `Ladder.CarriedStep` | botdca/forecast.py:142-161 | one turn of the loop on running totals computes the strategy's own next fill and totals |
| `Ladder.ForecastSymbol` | botdca/forecast.py:88-177 | row k is the basket after k DCA fills at their triggers: price, quantity, average, committed margin; which rows are live or research-only |
| `Ladder.LadderRescales` | botdca/strategy_slots.py:137-173 | with fixed-margin sizing another reference price only rescales every fill of the ladder |
| `Ladder.MarginIsPriceIndependent` | botdca/risk.py:40-45 | so the committed margin at every level is the same at every reference price |
| `Ladder.MarginForecast` | botdca/strategy_slots.py:124-173 | the walk from 100 gives, for the live basket at any market price, the step of every level, the margin of its fill and the margin committed with it |
| `Ladder.NormalizedFullLadder` | botdca/trigger_reference_experiment.py:296-323 | drives the strategy down the ladder; executable exactly when every trigger lies strictly below the fill before it |
| `Ladder.WeightedAverageLadderDescends` | botdca/strategy.py:156-178 | with non-decreasing drops in (0, 100) weighted-average triggers fall strictly and so does the average, at every level |
| `Ladder.InitialEntryLadderDescendsExactly` | botdca/strategy.py:169-178 | under the initial-entry reference the ladder is executable exactly when the drops start above zero and strictly increase |
| `Ladder.PreviousFillLadderDescends` | botdca/strategy.py:169-178 | under the previous-fill reference any drops in (0, 100) descend and prices stay positive |
| `Replay.UpMeasureFalls` | botdca/backtest.py:262-279 | each close and reopening lowers the termination measure of the upward walk by at least one, for positive and negative take profits alike |
| `Replay.UpSplits` | botdca/backtest.py:260-281 | an upward segment and its two halves at any split give the same book |
| `Replay.DownSplits` | botdca/backtest.py:282-294 | so do a downward segment and its halves |
| `Replay.TraverseComposes` | botdca/backtest.py:256-294 | splitting any monotone segment anywhere keeps fills, closes, strategy state, fees and realised totals |
| `Replay.UpClosesBounded` | botdca/backtest.py:260-281 | with a positive take profit an upward segment closes at most 1 + (end - start) / (start * tp / 100) baskets |
| `Replay.NegativeTpClosesOnce` | botdca/backtest.py:260-281 | with a negative one it closes at most one |
| `Replay.DownFillsBounded` | botdca/backtest.py:282-294 | a downward segment closes nothing and fills at most the remaining ladder levels |
| `Replay.ReplaysEndExactly` | botdca/backtest.py:260-281 | the upward loop stops on every segment exactly when the take profit is not zero, or a delay, a missing re-entry or a maximum number of baskets stops it |
| `Walks.DownFillsExactly` | botdca/backtest.py:282-294 | a downward segment fills exactly the triggers on its way: each fill is the next one of the strategy at its own trigger and size, and the next trigger left lies below the end or above the last price reached |
| `Walks.UpClosesExactly` | botdca/backtest.py:260-281 | an upward segment closes at the successive targets, each basket opened where the last was closed; what is left has its target beyond the end or behind the last price, and nothing is left exactly when no other was to be opened; when the replay stops and when the next entry is due |
| `Walks.SegmentExactly` | botdca/backtest.py:256-294 | a segment goes up, down, or changes nothing |
| `Walks.EntersExactly` | botdca/backtest.py:242-254 | a basket is entered at the open exactly when none is open, another may be, and it is time; funding is charged on what was open before |
| `Walks.PointsVisit` | botdca/backtest.py:44-47 | a candle is walked from its open to its close by way of both extremes, the low first or the high first |
| `Walks.StepWalks` | botdca/backtest.py:242-254 | a traversed candle walks from its open to its two extremes, in the order of the path, and on to its close |
| `Walks.StoppedStays` | botdca/backtest.py:172-180 | a stopped replay is not touched by further candles |
| `Walks.EquityIs` | botdca/backtest.py:398-411 | the marked equity is what is realised less funding, plus what the open quantity is worth less its cost, its entry fees and the exit fee |
| `Walks.SegmentIsMarked` | botdca/backtest.py:256-294 | a segment marks every close once, every fill twice, and its end |
| `Walks.CandleIsMarked` | botdca/backtest.py:242-254 | a traversed candle is marked at its open, both extremes and its close, another not at all |
| `Replay.TakeProfitGross` | botdca/backtest.py:325-374 | selling at the take profit earns exactly the take-profit percentage of the notional |
| `Replay.CloseBalances` | botdca/backtest.py:325-374 | a close keeps the totals equal to the sums over the recorded cycles |
| `Replay.OpenBalances` | botdca/backtest.py:296-309 | so does an opening, with current fees and margin those of its fill |
| `Replay.DcaBalances` | botdca/backtest.py:311-323 | so does a DCA fill |
| `Replay.RunBalances` | botdca/backtest.py:172-240 | over every run, totals are sums over recorded cycles, fees and margin of every cycle and of the open basket are recomputed from fills and leverage, and the reported extremes are attained |
| `Replay.RunConservesFees` | botdca/backtest.py:207-239 | entry plus exit fees are closed-basket fees plus open-basket entry fees; net is gross less closed-basket fees |
| `Replay.TrackedIsDrawdown` | botdca/backtest.py:398-411 | the online peak and drawdown are the highest and the largest fall over the whole sequence of marks, zero counting at the start |
| `Replay.CloseKeepsEquity` | botdca/backtest.py:371-386 | closing at a price just marked leaves equity unchanged, so the peak update at a close adds nothing |
| `Backtest.ReplayEngine.MarkEquity` | botdca/backtest.py:398-411 | a mark updates peak and drawdown and nothing else |
| `Backtest.ReplayEngine.OpenBasket` | botdca/backtest.py:296-309 | opens a basket in every total |
| `Backtest.ReplayEngine.DeepenBasket` | botdca/backtest.py:311-323 | adds a DCA fill in every total |
| `Backtest.ReplayEngine.CloseBasket` | botdca/backtest.py:325-374 | records the replay, books it and clears the basket |
| `Backtest.ReplayEngine.ClimbSegment` | botdca/backtest.py:260-281 | the upward loop, terminating by a real-valued measure, is the upward walk on books and on marks |
| `Backtest.ReplayEngine.DescendSegment` | botdca/backtest.py:282-292 | the downward loop is the downward walk on books and on marks |
| `Backtest.ReplayEngine.TraverseSegment` | botdca/backtest.py:256-294 | a segment moves the book and the marks as specified |
| `Backtest.ReplayEngine.ChargeFunding` | botdca/backtest.py:388-396 | funding is charged on the open quantity only, and only when a model is configured |
| `Backtest.ReplayEngine.ProcessCandle` | botdca/backtest.py:242-254 | one candle: funding, entry when allowed, three segments |
| `Backtest.ReplayEngine.Run` | botdca/backtest.py:172-240 | the run's book and reported figures are those of the specification: completed cycles, gross and net result, depth, margin, every kind of fee; the drawdown is the largest fall between any two marks |
| `Instruments.RoundIsShifted` | botdca/instruments.py:18-25 | noise-absorbing rounding is floor(r + 1e-9) and ceil(r - 1e-9) |
| `Instruments.StepsMonotone` | botdca/instruments.py:18-59 | rounding keeps the order of values |
| `Instruments.StepsIdempotent` | botdca/instruments.py:18-59 | rounding a rounded value, either way, changes nothing |
| `Instruments.DriftIsAbsorbed` | botdca/instruments.py:18-59 | n whole steps with drift up to 1e-9 step round to exactly n steps, either way |
| `Instruments.StepsBracket` | botdca/instruments.py:36-59 | rounding stays within one step and never passes the value by more than the noise |
| `Instruments.RoundedExactly` | botdca/instruments.py:18-33 | the rounded value is the one multiple of the step in the half-open interval of one step beside the value, shifted by the noise |
| `Instruments.RulesRound` | botdca/instruments.py:36-59 | which way prices and quantities round, and exactly which quantities are refused |
| `Protection.SoleTakeProfitProtectsExactly` | botdca/protection.py:87-155 | a sole take profit of the planned quantity is judged protective exactly when the plan leaves no more than the tolerance uncovered |
| `Protection.AssessedExactly` | botdca/protection.py:87-155 | an open position is ambiguous exactly with two exits resting, and protected exactly with a single one whose quantity is the expected one and covers the position, each within the tolerances |
| `Risk.AllowedDcaStaysWithinLimits` | botdca/risk.py:48-147 | filling an allowed DCA at its trigger leaves the basket within the level and margin caps, at exactly the projected margin |
| `Risk.BlockedExactly` | botdca/risk.py:48-147 | with an account the DCA is allowed exactly when ladder, level cap and margin cap allow it and what it leaves available is at least the reserve |
| `Risk.DecisionExactly` | botdca/risk.py:48-147 | each reason is reported exactly when it is the first, in the order of the checks, that holds; the margins reported are the cost of the fills, and with the next order, by the leverage |
| `OrderPlan.PlanRespectsLadder` | botdca/order_plan.py:95-128 | the plan flags the maximum exactly at the ladder's top and plans no DCA beyond the ladder, the level cap or the margin cap |
| `OrderPlan.PlannedExactly` | botdca/order_plan.py:85-128 | a plan is made exactly when the take profit can be sent and so can the DCA where one is due; its orders are the rounded figures of the basket, and which reason stands for a missing DCA |
| `OrderPlan.AccountDecidesOnlyTheDca` | botdca/order_plan.py:95-128 | plans of one basket under two account readings differ in the DCA only, and agree exactly when the DCA is blocked anyway or the reserve check decides alike |
| `OrderPlan.PlanPricesAreSafe` | botdca/order_plan.py:89-128 | the planned take profit never sells below, and the planned DCA never buys above, its exact price by more than the noise |
| `OrderPlan.LegalPositionIsProtected` | botdca/order_plan.py:89-93 | a legal position of n steps with drift gets a take profit of exactly n steps, and that one resting alone is judged protected |
| `Placement.DeterministicIsWellFormed` | botdca/order_identity.py:6-13 | the identities in use are short and never look like a retry |
| `Placement.RetryIdsAreDistinct` | botdca/bybit_exchange.py:118-123 | retry identities of different intents or attempts never collide |
| `Placement.RetryLinkIdsAre` | botdca/bybit_exchange.py:118-123 | the ten identities, spelled out |
| `Placement.EvolutionKeepsPrefix` | botdca/bybit_exchange.py:125-155 | one-way status changes and late arrivals keep the retry identities of an intent a prefix, all but the last spent |
| `Placement.SendingKeepsPrefix` | botdca/bybit_exchange.py:133-144 | sending an attempt keeps it once all earlier ones are spent |
| `Placement.RequestKeepsPrefix` | botdca/bybit_exchange.py:141-154 | so does a request with its lost, late or refused outcomes |
| `Placement.AtMostOneActive` | botdca/bybit_exchange.py:125-155 | hence no intent has two orders that are live or filled |
| `Placement.OpenOrdersFirst` | botdca/bybit_exchange.py:100-116 | reading open orders before the history finds every accepted order; the other order misses exactly one that ends in between |
| `Placement.HistoryFirstMisses` | botdca/bybit_exchange.py:100-116 | such a miss exists |
| `Placement.FindOrder` | botdca/bybit_exchange.py:100-116 | asks for the open orders and then, when not found, for the history; an identity not found was not accepted before the lookup; a status found is the order's, up to one-way changes |
| `Placement.Submit` | botdca/bybit_exchange.py:141-154 | one request; its answer is the identity, and after a lost answer one lookup decides: shown live or filled it is the identity, else the call has failed; the prefix is kept |
| `Placement.Attempt` | botdca/bybit_exchange.py:133-154 | one identity: used when shown live or filled, passed over when its order is over, submitted when not found; a failed lookup ends the placement |
| `Placement.PlaceIdempotent` | botdca/bybit_exchange.py:125-155 | the whole conversation with the exchange: identities are asked for in order, all before the last shown over; it fails only after a call of its own failed, is exhausted only after ten identities are spent, and otherwise answers with the identity found usable or requested; no other identity is touched |
| `Placement.PlaceAll` | botdca/bybit_exchange.py:125-155 | over any sequence of placements, failures and crashes, no intent ever has two live or filled orders |
| `Persistence.ArrivalDoesNotMatter` | botdca/persistence.py:37-70 | the journal is a function of the set of fills, whatever their order or duplication |
| `Persistence.SelectionIsUnique` | botdca/persistence.py:284-290 | the ordered query has one answer |
| `Persistence.ScanFindsLastFlat` | botdca/persistence.py:292-302 | the scan's open rows are the buys since the last return to flat, its net quantity buys less sells since then |
| `Persistence.LastFlatIsUnique` | botdca/persistence.py:292-302 | there is one last return to flat |
| `Persistence.OpenMeansPositive` | botdca/persistence.py:292-302 | the net quantity is positive whenever a basket is open, and zero otherwise |
| `Persistence.HistoryBeforeFlatDoesNotMatter` | botdca/persistence.py:292-302 | history before a flat point never matters |
| `Persistence.OrdersAreDistinct` | botdca/persistence.py:308-315 | the order sequence lists each order of the rows once |
| `Persistence.SummaryIgnoresArrival` | botdca/persistence.py:283-332 | the open-basket summary is a function of the set of fills |
| `Persistence.SummaryIgnoresClosedHistory` | botdca/persistence.py:283-332 | and ignores whatever happened before a flat point |
| `Persistence.SummaryMeaning` | botdca/persistence.py:283-332 | the summary covers the buys since the last flat point: positive quantity, level one less than the distinct orders, weighted average, and as last quantity all fills of the order whose first fill comes last; there is none exactly when no buy is open or an open one is not the bot's |
| `Persistence.LastInSequence` | botdca/persistence.py:308-327 | the last order of the sequence is the one whose first fill comes last |
| `Persistence.AverageIsBetween` | botdca/persistence.py:316-327 | the weighted average lies between the lowest and the highest price |
| `Persistence.ValidExactly` | botdca/persistence.py:37-50 | which fills the journal refuses, field by field |
| `Persistence.LatestIsLast` | botdca/persistence.py:471-483 | the checkpoint is that of the last recovery recorded for the symbol, and there is none exactly when none was |
| `Persistence.EventStore.RecordExecution` | botdca/persistence.py:37-70 | a valid new fill is inserted, a known one ignored, an invalid one refused |
| `Persistence.EventStore.SelectExecutions` | botdca/persistence.py:284-290 | the rows of the symbol in ascending time and identity |
| `Persistence.EventStore.OpenCycleExecutionSummary` | botdca/persistence.py:283-332 | the loops compute the summary of the journal |
| `Persistence.EventStore.ExecutionRecoveryCheckpoint` | botdca/persistence.py:471-483 | the end of the latest completed recovery of the symbol |
| `Persistence.ScanLoop` | botdca/persistence.py:292-302 | the loop over open rows and net quantity is the scan |
| `Persistence.GroupByOrder` | botdca/persistence.py:308-315 | the dictionary of orders holds each order's rows, in order of first appearance |
| `Recovery.WindowsOverlapExactly` | botdca/execution_recovery.py:16-24 | the seven-day refusal makes consecutive windows overlap by exactly 60 s |
| `Recovery.ExecutionRecovery.Call` | botdca/execution_recovery.py:15-67 | one recovery, wherever it aborts: what is stored and when the checkpoint moves |
| `Recovery.OutcomeExactly` | botdca/execution_recovery.py:15-67 | told by the answers alone, each outcome exactly: completed when a final page comes before the hundredth request and all before it were answered with valid rows and distinct nonempty cursors; else failed call, invalid row, repeated cursor, a hundred pages, or a refused gap |
| `Recovery.EarlierPagesAreStored` | botdca/execution_recovery.py:28-64 | every row of every page before the end is stored, however the call ends |
| `Recovery.StoreRowsExactly` | botdca/execution_recovery.py:40-48 | of a page, exactly the rows before the first invalid one are recorded |
| `Recovery.ExecutionRecovery.StoreEvents` | botdca/execution_recovery.py:40-48 | rows before an invalid one are stored, the rest are not |
| `Recovery.AttemptHolds` | botdca/execution_recovery.py:25-67 | stored fills of any symbol stay; a completed attempt adds every visible fill of the symbol in its window and moves the checkpoint; no other does |
| `Recovery.RecoveryLeavesNoGap` | botdca/execution_recovery.py:15-67 | over any sequence of completed, refused and aborted recoveries, with the stream journaling fills in between, every fill of the symbol from the first window's start to the checkpoint less the lag is stored |
| `Recovery.LongerLagLeavesGap` | botdca/execution_recovery.py:22-24 | the bound on the lag is exact |
| `Reconciliation.ReconcileStrategy` | botdca/reconciliation.py:21-62 | restores the basket only when position and journal agree within the tolerance |
| `Reconciliation.ReconciledExactly` | botdca/reconciliation.py:21-62 | each outcome exactly: flat, restored from a long position journaled at its size with figures that make a basket, unreconciled, or a restore that raises |
| `Reconciliation.ReconcileForgetsLocalState` | botdca/reconciliation.py:30-62 | the outcome, the basket and the plan built from it do not depend on the local state before |
| `Reconciliation.RestoredBasketIsTheExchanges` | botdca/reconciliation.py:55-61 | a restored basket has the exchange's size and average and the journal's level |
| `LiveBook.Origin` | botdca/bybit_exchange.py:329-383 | an order of the book was there at the start, or realises a placement issued or a request under way since |
| `LiveBook.OneBearer` | botdca/bybit_exchange.py:125-155 | of the orders bearing one identity at most one is new, and none is when one rested already |
| `LiveBook.FilledIsNeverNew` | botdca/bybit_exchange.py:125-155 | an identity whose order has filled never gets another |
| `LiveBook.DelayedMayLand` | botdca/bybit_exchange.py:141-154 | a request that failed on the way may still become an order later |
| `LiveScript.AmbiguousMeansHold` | botdca/live_service.py:425-450 | the sync holds exactly when two or more take profits rest, and then mutates nothing |
| `LiveScript.WherePlacementsAre` | botdca/live_service.py:478-658 | a take profit is placed first of all commands, a DCA last |
| `LiveScript.ScriptExactly` | botdca/live_service.py:478-658 | with at most one take profit and one DCA resting, a sync cancels exactly the orders that differ from the plan in side, type, quantity or price (a partially filled DCA stays), and places exactly what is planned and not listed |
| `LiveScript.OutdatedIsCancelled` | botdca/live_service.py:548-614 | every order listed that differs from the plan in any of these is cancelled by a sync that is not held |
| `LiveScript.EndIsProtectedExactly` | botdca/protection.py:87-155 | whatever the list of the orders left, the check judges the exit left protective exactly when it leaves no more uncovered than the tolerance |
| `LiveScript.TpSurvives` | botdca/live_service.py:548-551 | a take profit the sync did not cancel rests as long as the position is open |
| `LiveScript.CancelledIsGone` | botdca/live_service.py:548-551 | a cancel that returned has removed its order for the rest of the sync |
| `LiveScript.TakenMeansResting` | botdca/live_service.py:478-551 | an identity free at the listing is taken only by a new order, which rests while the position is open |
| `LiveScript.SyncKeepsProtection` | botdca/live_service.py:470-551 | a position protected at the listing is protected in every state of the sync, wherever it stops, when the match was listed or the planned identity was free |
| `LiveScript.ProtectionKeptExactly` | botdca/live_service.py:470-551 | every course of the sync keeps the open position protected exactly when the match was listed or the planned identity was free |
| `LiveScript.SyncEndsProtectedExactly` | botdca/live_service.py:470-551 | with no earlier take-profit request under way, a normal return leaves exactly one take profit, of the planned quantity and price each within 1e-9, exactly when such a one was listed or its identity was free; otherwise none |
| `LiveScript.AlwaysEndsProtectedExactly` | botdca/live_service.py:470-551 | every completed course with the position open ends on exactly one take profit, of the planned quantity and price each within 1e-9, exactly when such a one was listed or its identity free, and no earlier take-profit request is under way |
| `LiveScript.TpsAreAccounted` | botdca/live_service.py:470-551 | what a completed sync leaves is the kept match, the planned order, or an order of a request that was under way |
| `LiveScript.SyncKeepsOneTpExactly` | botdca/live_service.py:470-551 | two take profits never rest in any course of the sync exactly when resting ones, requests under way and the one to be created are at most one |
| `LiveScript.OneTpWithoutRequests` | botdca/live_service.py:470-551 | without requests under way: exactly when the match was listed, or none rests, or the planned identity is taken |
| `LiveScript.SyncKeepsSoleDca` | botdca/live_service.py:557-658 | at most one DCA, counting requests under way, in every state of the sync, when none under way has another identity at a placement |
| `LiveScript.SyncKeepsOneDcaExactly` | botdca/live_service.py:557-658 | two DCA orders never rest in any course of the sync exactly under that condition |
| `LiveScript.RunKeepsOneDca` | botdca/live_service.py:557-658 | over any run of syncs cut short anywhere, with late requests landing at any time, there is at most one DCA when each placement finds no other identity under way |
| `LiveScript.RunStaysProtected` | botdca/live_service.py:425-551 | over any run while the position stays open protection is never lost, when each sync finds its take profit listed or its identity free |
| `LiveScript.AmbiguityPersists` | botdca/live_service.py:425-450 | once two take profits rest, no sync of any run issues a command while the position is open |
| `LiveScript.StopAfterPlacingLeavesTwo` | botdca/live_service.py:478-551 | a stop between placing and cancelling leaves two take profits, and every sync of every run from there holds while the position is open |
| `LiveScript.AmendedTpIsStripped` | botdca/live_service.py:478-551 | an amended order bearing the planned identity is answered for it and then cancelled: without late requests every normal return leaves no take profit, and one is possible |
| `LiveScript.SecondSyncMutatesNothing` | botdca/live_service.py:418-664 | in a quiet exchange a second sync with the same plan issues no command exactly when the first could leave the planned take profit and was not kept from a DCA the second may place |
| `LiveScript.SecondSyncStaysHeld` | botdca/live_service.py:425-450 | one after a held sync issues none |
| `LiveScript.SecondSyncExactly` | botdca/live_service.py:557-658 | with plans that may differ in the DCA the second sync issues nothing exactly when the first could leave the planned take profit, and the DCA left is partially filled or still planned, or none was left and none is placed; a DCA no longer planned is cancelled |
| `LiveExchange.Exchange.GetOpenOrders` | botdca/bybit_exchange.py:273-293 | lists every order of the book once, in any order |
| `LiveExchange.Exchange.CancelOrder` | botdca/bybit_exchange.py:411-419 | the exchange may drift first; a cancel that returns has removed the order |
| `LiveExchange.Exchange.PlaceOrder` | botdca/bybit_exchange.py:125-155 | answered by the order live or filled under the identity, else created, refused, created with the answer lost, or delayed and perhaps landing later |
| `LiveService.EntryWaitsOutTheDelay` | botdca/live_service.py:208-353 | over any run of syncs and restarts an entry goes out only unpaused, within the margin cap, with the coordinator's permission or, without one, with the reserve left, and after every sync of at least the delay saw the symbol flat |
| `LiveService.FlatStepExactly` | botdca/live_service.py:208-353 | exactly when a flat sync is paused, waits, is blocked, submits or fails, and what it then remembers |
| `LiveService.RestartIsTransparent` | botdca/live_service.py:364-424 | what an open sync acts on depends on exchange, journal, configuration and coordinator, not on the local state before |
| `LiveService.ReadingExactly` | botdca/live_service.py:364-424 | an open sync lists orders only for a long position that makes a basket with the journal; it plans an exit of the whole size at the percentage above the average, and a DCA of the step's multiple of the last order at the step's drop below it, all rounded, within ladder and cap; each early end exactly |
| `LiveService.ReportedExactly` | botdca/live_service.py:452-546 | status and protection reported by a completed sync, each exactly |
| `LiveService.LostExactly` | botdca/live_service.py:173-179 | a position without an exit is a fresh entry exactly within the grace time, else it has lost its protection |
| `LiveService.RepeatedSyncMutatesNothing` | botdca/live_service.py:364-678 | with a coordinator, repeating a sync in a quiet exchange, even from a restarted process, issues no command exactly when the first was held, or could leave the planned take profit and was not kept from a DCA the second may place |
| `LiveService.RepeatedSyncReadsTheReserve` | botdca/live_service.py:401-410 | without one, exactly when the first could leave the planned take profit and its DCA is partially filled or still allowed, or it left none and none is allowed; with identities free to be used, exactly when a partially filled DCA rests, or the DCA is blocked anyway, or the reserve check decides alike; a DCA left but blocked is cancelled |
| `LiveService.OwnMarginBreaksTheReserve` | botdca/live_service.py:401-410 | for a basket of 1 at 10, with 30 available and a reserve of 20, the DCA's own margin of 9 turns the check |
| `LiveService.SyncIsSafe` | botdca/live_service.py:418-664 | every state of one sync is safe: one DCA, protection kept, no command on an ambiguous book |
| `LiveService.CompletedSyncIsSettled` | botdca/live_service.py:470-551 | a completed sync leaves the planned take profit when it was listed or its identity free, nothing unaccounted for, and without late requests exactly that one exactly then |
| `LiveService.LegalEndIsProtected` | botdca/live_service.py:470-551 | planned for a legal position of n steps with drift, the exit left alone is judged protective: always when it has the planned quantity, and from a size of 0.0011 on also when it was kept within 1e-9 |
| `LiveService.LiveStrategyService.SyncFlatPosition` | botdca/live_service.py:208-353 | the flat sync moves strategy, clock and entries exactly as specified |
| `LiveService.LiveStrategyService.RestTakeProfit` | botdca/live_service.py:470-551 | issues the take-profit part of the script, or stops at a raise |
| `LiveService.LiveStrategyService.RecheckLost` | botdca/live_service.py:452-468 | the position is read once more exactly when the protection is lost, and the sync goes flat exactly when that reading is flat |
| `LiveService.LiveStrategyService.ReplaceDca` | botdca/live_service.py:557-658 | issues the DCA part of the script, or stops at a raise |
| `LiveService.LiveStrategyService.RestOrders` | botdca/live_service.py:452-678 | after the listing: the whole script on a normal return, a part of it on a raise, the flat sync when the position closed |
| `LiveService.LiveStrategyService.SyncOpenPosition` | botdca/live_service.py:364-678 | the commands issued are a part of the script of what was read, the whole of it on a normal return; early ends issue none |
| `LiveService.LiveStrategyService.Sync` | botdca/live_service.py:201-206 | the whole new state of one sync and the positions it read; what it issued is safe in every state, and a normal return is settled on a take profit of the planned quantity and price |
| `LiveService.LiveStrategyService.SyncAll` | botdca/live_service.py:201-245 | over any sequence of syncs of the object the flat clock runs as specified on the markets it was given, and the entries handed over are that run's |
| `Portfolio.PortfolioCoordinator.PruneReservations` | botdca/portfolio.py:244-260 | drops exactly the reservations expired by the clock or whose order the symbol's exposure shows |
| `Portfolio.PortfolioCoordinator.EvaluateCandidate` | botdca/portfolio.py:284-366 | the first guard that refuses, in the source's order |
| `Portfolio.RefusedExactly` | botdca/portfolio.py:284-366 | on the inputs alone: a candidate is allowed exactly when it satisfies every guard (both caps, a readable account, both reserves after all pending reservations and its own margin, the deep baskets, the floating loss), and each guard is reported exactly when it is the first not satisfied |
| `Portfolio.CostsAre` | botdca/portfolio.py:85-101 | notional and margin of a candidate |
| `Portfolio.DeepExactly` | botdca/portfolio.py:348-360 | the deep guard counts each symbol once, the candidate among them |
| `Portfolio.PortfolioCoordinator.Authorize` | botdca/portfolio.py:370-404 | prune, evaluate, reserve, submit, release on failure: the verdict, the candidate's own reservation figure by figure, and which others are left |
| `Portfolio.InFlightIsReserved` | botdca/portfolio.py:266-275 | when every order in flight is remembered and every basket observed, the coordinator counts at least what is committed |
| `Portfolio.AuthoriseKeepsCaps` | botdca/portfolio.py:370-404 | an authorisation keeps all committed capital within the caps when the coordinator counts at least what is committed, however its submission ends |
| `Portfolio.FillKeepsCaps` | botdca/portfolio.py:244-260 | so does observing a whole or partial fill |
| `Portfolio.ObservingCommitsNothing` | botdca/live_service.py:119-141 | a service's restored basket moves from unobserved to observed and changes nothing committed |
| `Portfolio.RestartCommitsNothing` | botdca/live_service.py:119-141 | a restart makes every basket unobserved and changes nothing committed |
| `Portfolio.RunStaysWithinCaps` | botdca/portfolio.py:244-404 | over every interleaving of authorisations, unanswered submissions, clock ticks past any expiry, whole and partial fills and exits, deaths, releases, restarts and observations the caps hold, as long as each order goes out while the coordinator counts at least what is committed |
| `Portfolio.TickRemembersExactly` | botdca/portfolio.py:244-250 | time keeps the invariant exactly when no order in flight outlives its reservation |
| `Portfolio.RestartKeepsInvariantExactly` | botdca/portfolio.py:240 | a restart keeps the invariant exactly when nothing is in flight and no basket is open |
| `Portfolio.StepKeepsInvariantExactly` | botdca/portfolio.py:244-404 | every step keeps the invariant exactly when it forgets no order in flight and no basket |
| `Portfolio.ForgetlessRunKeepsInvariant` | botdca/portfolio.py:244-404 | over every interleaving that forgets none the whole invariant holds |
| `Portfolio.AuthorisationsAreSafeExactly` | botdca/portfolio.py:266-366 | while there is room, every authorisation stays within the caps exactly when the reservations make up for what is in flight and unobserved, in margin and in notional |
| `Portfolio.ForgettingIsUnsafeExactly` | botdca/portfolio.py:244-366 | where each reservation left is that of an order in flight: exactly when every order in flight is remembered and every basket observed |
| `Portfolio.WaitingIsSafeExactly` | botdca/portfolio.py:244-250 | after any time has passed: exactly when no order in flight has outlived its reservation |
| `Portfolio.RestartIsSafeExactly` | botdca/api.py:183-195 | after a restart, with the baskets of some symbols observed again: exactly when nothing is in flight and every open basket is among them |
| `Portfolio.WaitingCanExceedCap` | botdca/portfolio.py:244-250 | a basket of 1 has a DCA of 6 in flight; a second after its reservation expired an entry of 6 goes out and 13 of 10 are committed |
| `Portfolio.RestartCanExceedCap` | botdca/portfolio.py:240 | with 6 of 10 in flight an entry of 6 keeps the cap before a restart; after it 12 of 10 are committed |
| `Portfolio.UnobservedBasketCanExceedCap` | botdca/live_service.py:119-141 | with a basket of 6 and nothing in flight an entry of 6 goes out after a restart before that basket is observed, and 12 of 10 are committed |

## Left out

- Float rounding and Decimal precision: arithmetic is exact over reals.
- HTTP API, dashboard, CLIs, report dictionaries, CSV, timezone and file handling, encryption, websocket and SQL plumbing.
- Calibration search, quantiles, medians, `split_regimes` (its threshold compares medians), target thresholds and the second-level audit.
- Excursion, underwater-time and duration telemetry of the replay engine; the drawdown and all money totals are modelled.
- `ReplayEngine.run` sorts its candles first; `Run` takes them in time order. The theorems hold for candles in any order.
- Cycle uuids, strategy version ids and symbol upper-casing; SHA-256 digests are abstract strings, and a basket's id is passed in with its summary.
- Execution and order ids are numbers; rows without an order id, which the source groups by execution id, are not modelled apart.
- Alerts and their de-duplication, and the strategy-event journal beyond the recovery checkpoint.
- Order sizing of the initial entry (`botdca/sizing.py`) is a value the flat sync reads; `None` stands for its refusal.
- Live sync: reads that raise are not separate outcomes. A sync cut short anywhere issues a part of its script, which every safety statement covers.
- Live sync: the listing shows all bot orders of the book; the source asks for at most 50.
- Live sync: the coordinator's verdict is a value the sync reads; `Portfolio` models how it is reached.
- Live sync: the exchange is assumed not to drop a take profit of an open position on its own, and nobody else places orders under the bot's identities.
- Live sync: a take profit is also assumed not to fill while the position stays open. It can: a DCA fills, and the take profit for the smaller quantity fills before the next sync replaces it.
- Live sync: orders amended by hand are amended before a listing; during a sync an order fills or disappears but keeps its terms.
- Live sync: identities of minted orders are intents (basket, quantity, price; the level too for a DCA) with an attempt number, taken to be injective; `Placement` models the attempts themselves.
- RunStaysWithinCaps: a fill adds no more exposure than its order committed, a service observes its own basket before it proposes an order or a fill is counted, and a symbol has one order in flight at a time; when a late DCA request can land beside another is the subject of `LiveScript.SyncKeepsOneDcaExactly`.
- Portfolio: the deep-basket guard counts observed exposure only; no statement is made about it over runs.
- PlaceIdempotent: any other terminal status of a partially filled order counts as spent, as in the source, so its retry places the full quantity again.
- LiveService.LegalEndIsProtected: a position below 0.0011 may keep an exit up to 1e-9 short of the plan, more than the check's relative tolerance; when the exit left protects is said exactly by `LiveScript.EndIsProtectedExactly`.
- EvidenceIsExact: for a target outside the extreme totals by no more than the noise no feasible vector exists; `NoiseCollapsesRanges` says what is returned then.
- Replay runs, composition and conservation are stated for the settings under which the upward loop ends (`ReplaysEndExactly`); with the others `Run` need not return.
- RecoveryLeavesNoGap: a ledger starts without a checkpoint; nothing is claimed of fills older than the first completed window.
- Settings validation, activation ranks, accounting buckets and stress scenarios: small tables and folds.
