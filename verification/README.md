# Schurfer: verified models of the research and monitoring algorithms

Schurfer is a market-research system: exchange collectors, offline studies that select and
score trading candidates, and two timer-driven runners that watch a service and publish
report verdicts. Most of it reads and tabulates. This project models the parts where a
small algorithm carries a claim the rest relies on, and proves those claims for every
input, every run and, where a process can be killed, every point at which it can be.

Integers stand for times, exact reals for money, rates and p-values. Randomness, health
reads, report processes, message delivery and identity resolution are inputs: what is
proved holds whatever they are. `sorted` and `list.sort` are one stable sort, defined and
characterised completely in `Sorting.dfy` (sorted, a permutation, stable, and unique with
those properties).

| file | what it models |
|---|---|
| `FlowDecisions.dfy`, `Controls.dfy` | abnormal-flow decisions, control matching as a batch and as a stream |
| `GreedyHolds.dfy`, `Episodes.dfy`, `SpringHolds.dfy` | greedy cooldown and hold selection |
| `Transplant.dfy`, `SpringPower.dfy` | the randomised transplant of event clusters |
| `Canary.dfy`, `CanaryRunner.dfy`, `CanarySafety.dfy`, `CanaryLifecycle.dfy` | the canary runner as a sequence of writes and sends, its class, crash safety, checkpoint life |
| `Research.dfy` | the research checkpoint runner |
| `CarrySignal.dfy`, `CarryTrades.dfy`, `CarryMoney.dfy`, `CarrySimulation.dfy` | carry signal, pricing and the two simulations |
| `Portfolio.dfy` | slot selection and the dollar simulation that repeats it |
| `OrderBook.dfy`, `Identity.dfy`, `RollingRank.dfy`, `StderrCapture.dfy` | indexes and one-pass forms against the simple thing they stand for |
| `Holm.dfy`, `PathTaxonomy.dfy`, `Sizing.dfy`, `FeatureAssembly.dfy` | step-down testing, path diagnosis, four-sided sizing, no lookahead |

Where a promise of the source does not hold as stated, the code is modelled as it is:

- The header of the canary runner says checkpoint data is saved as collected before it is
  sent. The code sends first and writes only at the end of the run: a delivered checkpoint
  is on disk exactly when the run was not killed before its last action
  (`CanaryLifecycle.DeliveredIsRecordedIff`), and otherwise lost exactly when the window
  has passed by the next run and no earlier run had saved the reading
  (`CanaryLifecycle.DeliveredIsLostIff`).
- A restart is archived once unless it is killed between the two writes that the restart of
  an unfinished epoch makes; then it is archived twice
  (`CanarySafety.KilledRestartArchivedOnceIff`).
- The batch replay takes one control where the streams take none when the contract sets no
  number (`Controls.BatchAndStreamAgree`).
- The taxonomy and the outcome reader treat a duplicated minute differently, so the hard
  error for resolved rows is reachable (`PathTaxonomy.ResolvedRowRefusedIff`,
  `PathTaxonomy.DuplicateCopyDisagrees`).
- A report may itself name a failing state, which freezes its cutoff, or the scheduled
  state, which skips the cadence (`Research.NewCohortAfterSuccess`,
  `Research.AttemptableAgainIff`).
- The sizing loop allows twelve tries and has an error for not converging. It never needs
  more than two and never fails that way (`Sizing.SizeQuantity`).
- The `used` test of the transplant is redundant (`Transplant.NeverUsedBefore`).

## Model

| member | source | states |
|---|---|---|
| `StreamingTopK.StreamStep` | apps/analytics/schurfer_analytics/abnormal_flow_formal_runner.py:348-356 | one streamed candidate (append, stable sort, truncate to k) turns the batch answer for the pool so far into the batch answer for the pool with it; a candidate that does not match leaves it alone |
| `StreamingTopK.Stream` | apps/analytics/schurfer_analytics/abnormal_flow_snapshot_pipeline.py:167-195 | for every arrival order and every k, episodes with distinct ids end with exactly the batch selection over the admitted candidates |
| `Controls.SelectControls` | apps/analytics/schurfer_analytics/abnormal_flow_formal_runner.py:292-357 | the streaming selection gives each episode the sequence `match_controls` gives on the whole pool: same band, same self-exclusion, same tie order |
| `Controls.BatchAndStreamAgree` | apps/analytics/schurfer_analytics/abnormal_flow_replay.py:1385-1389 | the batch replay caps at one where the streams cap at none; they agree exactly when the contract sets a positive number or the episode has no match |
| `FlowDecisions.FloorLog10` | apps/analytics/schurfer_analytics/abnormal_flow_replay.py:513-518 | the half-decade band: 10^n <= y < 10^(n+1) for the band n of y |
| `GreedyHolds.GreedyOptimal` | apps/analytics/schurfer_analytics/abnormal_flow_replay.py:500-507 | no selection of the input rows with the required gap per key is larger than the greedy one, for every gap, zero and negative included |
| `GreedyHolds.GreedySeparated` | apps/analytics/schurfer_analytics/abnormal_flow_replay.py:500-507 | the greedy selection itself respects the gap |
| `GreedyHolds.GreedyCovers` | apps/analytics/schurfer_analytics/abnormal_flow_replay.py:503-504 | every row is within the gap after some kept row of its key |
| `GreedyHolds.Walk` | apps/analytics/schurfer_analytics/abnormal_flow_replay.py:498-507 | the loop over a dictionary of last kept times keeps exactly the greedy selection |
| `Episodes.FormEpisodes` | apps/analytics/schurfer_analytics/abnormal_flow_replay.py:489-507 | episodes are the greedy selection of the fires in (venue, asset, time, symbol) order |
| `Episodes.EpisodesOptimal` | apps/analytics/schurfer_analytics/abnormal_flow_replay.py:492-495 | the episodes are a cooldown-respecting choice of the fires and no such choice has more |
| `Episodes.EpisodesSubadditive` | apps/analytics/schurfer_analytics/abnormal_flow_formal_runner.py:500-512 | episodes of two batches together are at most the sum of the batches' episodes |
| `Episodes.GlobalEpisodesAtMostSum` | apps/analytics/schurfer_analytics/abnormal_flow_formal_runner.py:508-512 | the global episode count never exceeds the sum of the per-instrument counts |
| `Episodes.EpisodesMonotone` | apps/analytics/schurfer_analytics/abnormal_flow_replay.py:489-507 | more fires never give fewer episodes |
| `Episodes.AblationsHaveNoFewerEpisodes` | apps/analytics/schurfer_analytics/abnormal_flow_replay.py:456-486 | dropping any one of the three fire conditions never gives fewer episodes, though greedy selection may move them |
| `Episodes.EpisodesHaveDistinctRoutes` | apps/analytics/schurfer_analytics/abnormal_flow_formal_runner.py:293-297 | with a positive cooldown and point-in-time assets no two episodes share a route key, so the control dictionary never mixes two episodes |
| `Episodes.FormalSelection` | apps/analytics/schurfer_analytics/abnormal_flow_formal_runner.py:458-524 | the two passes of a formal run: global episodes, never more than the per-instrument total, and batch-equal controls for each |
| `SpringHolds.WalkHolds` | apps/analytics/schurfer_analytics/bybit_compressed_spring_cond4.py:228-235 | the `free_at` loop is the greedy walk over rows since time 0 |
| `SpringHolds.NonOverlapping` | apps/analytics/schurfer_analytics/bybit_compressed_spring.py:442-450 | the count is the size of the greedy hold selection |
| `SpringHolds.NonOverlappingEvents` | apps/analytics/schurfer_analytics/bybit_compressed_spring_cond4.py:228-235 | the list is the greedy hold selection |
| `SpringHolds.HoldsOptimal` | apps/analytics/schurfer_analytics/bybit_compressed_spring.py:442-450 | holds never overlap per instrument and no non-overlapping choice of hours has more |
| `SpringHolds.EventsWithinUpperBound` | apps/analytics/schurfer_analytics/bybit_compressed_spring.py:442-443 | the condition-4 events, thinned to one hold at a time, never outnumber the count over conditions 1 to 3: it is an upper bound |
| `Transplant.GroupEvents` | apps/analytics/schurfer_analytics/bybit_compressed_spring_power.py:242-244 | keys are the clusters, each once, each with its offsets; the offsets of all keys add up to the events |
| `Transplant.FreeInstruments` | apps/analytics/schurfer_analytics/bybit_compressed_spring_power.py:251-256 | free means offered in the pool, unblocked and unused at every one of the cluster's hours, none past the last decision |
| `Transplant.Choose` | apps/analytics/schurfer_analytics/bybit_compressed_spring_power.py:257-262 | an instrument the symbol holds if one is free, else one nobody holds, else none |
| `Transplant.NeverUsedBefore` | apps/analytics/schurfer_analytics/bybit_compressed_spring_power.py:254-264 | for an instrument the symbol may own, no (instrument, hour) is used yet: the `used` test never decides anything |
| `Transplant.PlaceCluster` | apps/analytics/schurfer_analytics/bybit_compressed_spring_power.py:247-265 | one cluster: lost only when no instrument may take it; a fresh instrument only when no held one may |
| `Transplant.TransplantWeek` | apps/analytics/schurfer_analytics/bybit_compressed_spring_power.py:239-265 | for every legal shift and every choice, the week's draws are one fair draw per cluster |
| `Transplant.TransplantAll` | apps/analytics/schurfer_analytics/bybit_compressed_spring_power.py:224-265 | for every shift and choice: every event is counted, every pick is on offer, no two clusters share an instrument and a day |
| `Transplant.OneOwnerPerWeek` | apps/analytics/schurfer_analytics/bybit_compressed_spring_power.py:234-237 | an instrument belongs to at most one event symbol per week |
| `Transplant.ClustersStayApart` | apps/analytics/schurfer_analytics/bybit_compressed_spring_power.py:234-237 | two source clusters never become one (instrument, day), within a week or across weeks |
| `Transplant.NoHourTwice` | apps/analytics/schurfer_analytics/bybit_compressed_spring_power.py:262-265 | no (instrument, hour) is drawn twice in a run |
| `Transplant.EveryEventAccounted` | apps/analytics/schurfer_analytics/bybit_compressed_spring_power.py:237-238 | cluster counts add up to the week's events, and a picked cluster picks all of its events |
| `Transplant.ClusterMoves` | apps/analytics/schurfer_analytics/bybit_compressed_spring_power.py:231-232 | in a week with another day every picked cluster lands on a different day |
| `SpringPower.BlockedIffNotClear` | apps/analytics/schurfer_analytics/bybit_compressed_spring_power.py:301-310 | the bisect test is the quantified one: some event path of the instrument comes within an hour of [t, t + H] |
| `SpringPower.PickedPathsAreClear` | apps/analytics/schurfer_analytics/bybit_compressed_spring_power.py:352-355 | every picked path stays at least one hour clear of each event path [te, te + 24 h] of its instrument and starts by the last decision |
| `SpringPower.MakePlan` | apps/analytics/schurfer_analytics/bybit_compressed_spring_power.py:185-196 | weeks share no day and hold every event at its day and time of day; the day lookup fails exactly for events outside the range |
| `SpringPower.AddPicks` | apps/analytics/schurfer_analytics/bybit_compressed_spring_power.py:214-216 | a draw's defined values are appended to its cluster's cell in order; the rest are counted incomplete |
| `SpringPower.Collect` | apps/analytics/schurfer_analytics/bybit_compressed_spring_power.py:356-367 | drawn = lost + incomplete + values, and each cell holds exactly its own cluster's values |
| `SpringPower.NetDraws` | apps/analytics/schurfer_analytics/bybit_compressed_spring_power.py:352-367 | over a whole replicate every planned event is lost, without a value, or valued once; its draws are a run of the transplant, kept apart, and every picked path is clear of the event paths |
| `CanarySafety.RunIsSafe` | infra/scripts/momentum_canary_checkpoints.py:569-605 | one run killed after any number of its actions: each interruption, recovery or restart the disk has shown is matched, occurrence for occurrence, by its alert queued on disk or delivered; archived epochs are untouched, no epoch disappears |
| `CanarySafety.HistoryIsSafe` | infra/scripts/momentum_canary_checkpoints.py:679-694 | the same over every history of runs, each killed anywhere or not at all |
| `CanarySafety.HistoryFromNothing` | infra/scripts/momentum_canary_checkpoints.py:663-694 | the same from a missing snapshot on, for every alert and every history |
| `CanarySafety.SendOrQueueKeepsInv` | infra/scripts/momentum_canary_checkpoints.py:589-595 | persist before send: the write that shows a change carries its alert |
| `CanarySafety.FlushKeeps` | infra/scripts/momentum_canary_checkpoints.py:598-605 | retrying the queue: what leaves it is exactly what was delivered, counted |
| `CanarySafety.OpenedSafe` | infra/scripts/momentum_canary_checkpoints.py:742-797 | recovery and restart handling keep every owed alert and every epoch |
| `CanarySafety.FullRunArchives` | infra/scripts/momentum_canary_checkpoints.py:761-797 | a run that is not killed archives the old epoch exactly once on a restart and nothing otherwise; the start it saw is then the active one |
| `CanarySafety.OneEntryPerChange` | infra/scripts/momentum_canary_checkpoints.py:761-797 | over any list of full runs the archive gains one entry per observed change of the service start, in order, with the replaced start and the time |
| `CanarySafety.RestartRaisesNoRecovery` | infra/scripts/momentum_canary_checkpoints.py:736-759 | besides retries a restart sends at most its own restart alert, and only for an unfinished epoch: never a recovery alert |
| `CanarySafety.KilledRestart` | infra/scripts/momentum_canary_checkpoints.py:767-797 | where a kill during any restart leaves the disk: untouched up to the first write, then, for an unfinished epoch, archived but still active until the last action |
| `CanarySafety.KilledRestartArchivedOnceIff` | infra/scripts/momentum_canary_checkpoints.py:767-797 | a restart killed after k actions and then run in full: exactly what is archived, and that it is one entry if and only if the kill fell before the first write or not at all, or the epoch was complete |
| `CanaryLifecycle.RunContinues` | infra/scripts/momentum_canary_checkpoints.py:810-912 | every write of a run continues the epoch it read; no checkpoint moves on disk before the run's last action |
| `CanaryLifecycle.NextCpEvolves` | infra/scripts/momentum_canary_checkpoints.py:839-901 | one visit: pending to collected, notified or missed, collected to notified, saved data kept, readings in [due, due + 2 h], misses after it |
| `CanaryLifecycle.EpochLife` | infra/scripts/momentum_canary_checkpoints.py:810-903 | over all runs that do not see another service start, killed anywhere or not: the epoch stays active, states only move forward, data and message are never rewritten, readings were timely, completion is final |
| `CanaryLifecycle.AttemptKeepsEpoch` | infra/scripts/momentum_canary_checkpoints.py:742-797 | an attempt, killed anywhere, that reads no health or the same start leaves that epoch active |
| `CanaryLifecycle.ReachableValid` | infra/scripts/momentum_canary_checkpoints.py:663-694 | every disk reached from a missing snapshot is valid, so the lifecycle theorems apply to it |
| `CanaryLifecycle.NotifiedIffDelivered` | infra/scripts/momentum_canary_checkpoints.py:842-889 | a checkpoint turns notified in exactly the pass that delivers its message |
| `CanaryLifecycle.OneCatchUpPerRun` | infra/scripts/momentum_canary_checkpoints.py:857-875 | however many windows were missed, a run sends at most one late catch-up |
| `CanaryLifecycle.SampleNowTouchesNothing` | infra/scripts/momentum_canary_checkpoints.py:817-837 | sample-now leaves its own checkpoint exactly as it was and treats the others as a plain run does |
| `CanaryLifecycle.KilledRunMovesNoCheckpoint` | infra/scripts/momentum_canary_checkpoints.py:877-912 | killed before its last action a run leaves every checkpoint on disk as it was |
| `CanaryLifecycle.RunDelivers` | infra/scripts/momentum_canary_checkpoints.py:810-889 | a whole run delivers a checkpoint message exactly when its visit turns that checkpoint notified; nothing before the loop sends one |
| `CanaryLifecycle.DeliveredIsRecordedIff` | infra/scripts/momentum_canary_checkpoints.py:52-54 | for every valid disk, checkpoint and kill point: once the message is delivered, the disk records it if and only if the run was not killed before its last action |
| `CanaryLifecycle.DeliveredIsLostIff` | infra/scripts/momentum_canary_checkpoints.py:877-912 | after such a kill the next full run records the checkpoint as missed if and only if the window is over by then and an earlier run had not saved the reading |
| `CanaryLifecycle.DeliveredCheckpointCanBeLost` | infra/scripts/momentum_canary_checkpoints.py:877-889 | inputs on which a delivered checkpoint is lost, for each of the three offsets |
| `CanaryRunner.Runner.PersistNow` | infra/scripts/momentum_canary_checkpoints.py:679-694 | the snapshot is replaced by the three current variables |
| `CanaryRunner.Runner.QueueAndSend` | infra/scripts/momentum_canary_checkpoints.py:569-595 | queue, write, send, and unqueue only when delivered |
| `CanaryRunner.Runner.Load` | infra/scripts/momentum_canary_checkpoints.py:663-677 | load, normalise a finished epoch, retry the queue |
| `CanaryRunner.Runner.LoseHealth` | infra/scripts/momentum_canary_checkpoints.py:705-732 | the health-lost branch |
| `CanaryRunner.Runner.Check` | infra/scripts/momentum_canary_checkpoints.py:799-912 | baseline, the three visits, completion, final write |
| `CanaryRunner.Runner.RunOnce` | infra/scripts/momentum_canary_checkpoints.py:657-913 | one run performs exactly the actions of the specification and leaves the disk they leave |
| `CarrySignal.DirectIsPrefixDifference` | apps/analytics/schurfer_analytics/bybit_carry_economics_screen.py:242-257 | the difference of two prefix sums is the direct sum over (t - 24 h, t] |
| `CarrySignal.BoundsMean` | apps/analytics/schurfer_analytics/bybit_carry_economics_screen.py:250-256 | the two bisections decide coverage, silence at t, and a gap over 8 h among the covering settlements |
| `CarrySignal.Signal.F24` | apps/analytics/schurfer_analytics/bybit_carry_economics_screen.py:250-257 | None exactly when the day is uncovered, silent at its end or broken by a long gap; otherwise the direct sum in bps |
| `CarryTrades.MaxConcurrent` | apps/analytics/schurfer_analytics/bybit_carry_economics_screen.py:511-520 | the sweep returns the largest number of trades open at any instant |
| `CarryTrades.ExclusivePeak` | apps/analytics/schurfer_analytics/bybit_carry_economics_screen.py:511-520 | trades held one at a time give a sweep of at most one |
| `CarryMoney.LastCommonFill` | apps/analytics/schurfer_analytics/bybit_carry_economics_screen.py:386-388 | the last fill with both closes, None exactly when there is none |
| `CarryMoney.NextFill` | apps/analytics/schurfer_analytics/bybit_carry_economics_screen.py:371-379 | the first fill from the intended one on, in whole bars, with both closes; None only if no such fill exists |
| `CarryMoney.ResolveExit` | apps/analytics/schurfer_analytics/bybit_carry_economics_screen.py:371-379 | the loop returns that fill |
| `CarryMoney.FirstCloseFound` | apps/analytics/schurfer_analytics/bybit_carry_economics_screen.py:364-368 | with a close at the limit the search never fails, whatever the alignment |
| `CarryMoney.FirstCloseIsFirst` | apps/analytics/schurfer_analytics/bybit_carry_economics_screen.py:364-368 | on aligned bars it returns the close of the first boundary that has one |
| `CarryMoney.ScanHighs` | apps/analytics/schurfer_analytics/bybit_carry_economics_screen.py:323-335 | the liquidating bar and the highest high seen up to it |
| `CarryMoney.LiquidationIsFirst` | apps/analytics/schurfer_analytics/bybit_carry_economics_screen.py:325-335 | no earlier bar reaches the liquidation price |
| `CarryMoney.SumFunding` | apps/analytics/schurfer_analytics/bybit_carry_economics_screen.py:337-345 | the bisected slice sums exactly the settlements strictly between the fills |
| `CarryMoney.Money` | apps/analytics/schurfer_analytics/bybit_carry_economics_screen.py:295-361 | one position over any closes: unfilled, unresolved, a failed lookup, a division by zero, or a trade with these times, funding, basis, fee and flags, whose net is its cash: funding plus the four fills less a fee on each |
| `CarryMoney.LookupsNeverFail` | apps/analytics/schurfer_analytics/bybit_carry_economics_screen.py:219-225 | with highs keyed only where closes exist, every mark and close is found, after a liquidation too |
| `CarryMoney.HighWithoutCloseFails` | apps/analytics/schurfer_analytics/bybit_carry_economics_screen.py:334-345 | without that, a liquidated position can lose its funding mark |
| `CarryMoney.DividesByEntryPrice` | apps/analytics/schurfer_analytics/bybit_carry_economics_screen.py:336-361 | a division by zero means a zero entry close of one leg |
| `CarryMoney.TradeTimes` | apps/analytics/schurfer_analytics/bybit_carry_economics_screen.py:315-335 | a trade lasts, and exits no later than any common fill reachable from the intended exit, delayed and liquidated exits included |
| `CarryMoney.UnresolvedIsFinal` | apps/analytics/schurfer_analytics/bybit_carry_economics_screen.py:316-320 | an unresolved exit means no common fill from the intended exit on |
| `CarryMoney.LiquidatedIffRatio` | apps/analytics/schurfer_analytics/bybit_carry_economics_screen.py:323-361 | liquidated exactly when the recorded highest ratio reaches the limit (at most the limit for a negative entry price) |
| `CarrySimulation.ClosingClears` | apps/analytics/schurfer_analytics/bybit_carry_economics_screen.py:402-416 | closing a position leaves all trades out before any later fill, or no later fill exists |
| `CarrySimulation.SimulatePair` | apps/analytics/schurfer_analytics/bybit_carry_economics_screen.py:391-419 | positions open at the first decision that can open one, close at the first that asks, never overlap; an unresolved exit is the last position |
| `CarrySimulation.PickBest` | apps/analytics/schurfer_analytics/bybit_carry_economics_screen.py:476-485 | the loop's pick |
| `CarrySimulation.BestIsBest` | apps/analytics/schurfer_analytics/bybit_carry_economics_screen.py:476-485 | the pick has the highest F24 among eligible pairs, the first symbol among equals |
| `CarrySimulation.SimulateOneSlot` | apps/analytics/schurfer_analytics/bybit_carry_economics_screen.py:453-490 | one position at a time, each the best pair at the first decision with free capital; nothing after an unresolved exit |
| `CarrySimulation.OneSlotConcurrency` | apps/analytics/schurfer_analytics/bybit_carry_economics_screen.py:511-551 | the concurrency figure of one-slot trades is at most one |
| `Research.RunKeepsBudget` | infra/scripts/research_checkpoints.py:373-394 | consecutive errors stay in [0, max], exhausted exactly in state error at max |
| `Research.BudgetAlways` | infra/scripts/research_checkpoints.py:373-394 | the same after every history of runs |
| `ResearchRunner.BudgetFromNothing` | infra/scripts/research_checkpoints.py:555-576 | the same for every history that begins without a snapshot |
| `Research.TerminalForever` | infra/scripts/research_checkpoints.py:577-600 | without a forced key a terminal row is never attempted again and keeps its state |
| `Research.OnlyLiveReportsRun` | infra/scripts/research_checkpoints.py:607-655 | a run starts at most one report process, for the attempted row, with the cutoff that row records, and never for a retired line |
| `Research.RetiredIgnoresReport` | infra/scripts/research_checkpoints.py:618-630 | a retired line ends the same whatever its report or the resources would be, with its registered verdict when attempted |
| `Research.AttemptsSpaced` | infra/scripts/research_checkpoints.py:595-617 | over every history with a clock that never goes back: two attempts of a row with none between, the second not forced, are at least the first one's wait apart (an hour when blocked, the short retry within the budget, else the cadence) unless its report named the scheduled state |
| `Research.FirstIsFirst` | infra/scripts/research_checkpoints.py:595-605 | the chosen row is the first selectable one |
| `Research.CutoffFrozenUntilSuccess` | infra/scripts/research_checkpoints.py:609-617 | through any runs without a success a failing row stays frozen at its cutoff |
| `Research.RetriesKeepTheCohort` | infra/scripts/research_checkpoints.py:609-617 | with a clock that never goes back, attempts between a failure and the next success share one cutoff |
| `Research.NewCohortAfterSuccess` | infra/scripts/research_checkpoints.py:609-614 | after a success the next attempt starts a new cohort unless the report itself named a failing state |
| `Research.AttemptableAgainIff` | infra/scripts/research_checkpoints.py:585-605 | after an attempt the row may be attempted again if and only if its report named the scheduled state, or it is not terminal and the wait is over |
| `Research.DeliveredIsNotResent` | infra/scripts/research_checkpoints.py:291-295 | a delivered identity is not resent while the identity stays |
| `Research.UndeliveredIsRetried` | infra/scripts/research_checkpoints.py:685-694 | an undelivered one is sent again in the next run |
| `ResearchRunner.UpgradeOfCurrentRow` | infra/scripts/research_checkpoints.py:331-370 | upgrading a row of the current version changes nothing |
| `ResearchRunner.UpgradeOfLegacyFailure` | infra/scripts/research_checkpoints.py:342-370 | a first-version failing row, error or blocked: keeps its cohort, counts one error or none, is not delayed, and is announced again exactly if its bare state had not been |
| `ResearchRunner.SavedIsLoaded` | infra/scripts/research_checkpoints.py:563-576 | what a run saves is what the next one loads |
| `ResearchRunner.Runner.RunOnce` | infra/scripts/research_checkpoints.py:555-703 | one run: prepare, select, attempt, announce, save; the report processes started and the messages sent are those specified |
| `ResearchRunner.Runner.Work` | infra/scripts/research_checkpoints.py:607-683 | one attempt; the report process starts only for a live line with the resources for it, with the frozen cutoff while failing |
| `OrderBook.Book.Apply` | apps/analytics/schurfer_analytics/bybit_burst_cost.py:272-289 | one message applied to the book |
| `OrderBook.Book.CaptureAt` | apps/analytics/schurfer_analytics/bybit_burst_cost.py:291-300 | status, age and sorted sides of the current book |
| `OrderBook.SortedSide` | apps/analytics/schurfer_analytics/bybit_burst_cost.py:296-297 | lists every level of a side exactly once, in order |
| `OrderBook.CaptureFile` | apps/analytics/schurfer_analytics/bybit_burst_cost.py:312-329 | each target gets the book replayed from exactly the messages before the first one later than it |
| `OrderBook.SoundIffGapFree` | apps/analytics/schurfer_analytics/bybit_burst_cost.py:276-282 | a book is sound exactly when some snapshot has been followed by gap-free deltas only |
| `OrderBook.LevelsAreLastWritten` | apps/analytics/schurfer_analytics/bybit_burst_cost.py:276-288 | since that snapshot every level is the last one written |
| `OrderBook.OkCaptureIsSound` | apps/analytics/schurfer_analytics/bybit_burst_cost.py:291-300 | status ok implies gap-free ids since the last snapshot, an age within the limit, and last-written levels |
| `Identity.CoversIffLastKnownRun` | apps/analytics/schurfer_analytics/abnormal_flow_identity_export.py:67-83 | an interval covers an instant exactly when it is the last run of the rows known then |
| `Identity.LastKnownIsLatest` | apps/analytics/schurfer_analytics/abnormal_flow_identity_export.py:65-76 | the last known row in capture order is the latest row, the last to arrive among equal times |
| `Identity.BuildIdentityRecords` | apps/analytics/schurfer_analytics/abnormal_flow_identity_export.py:46-98 | the records are exactly the intervals overlapping the window, sorted |
| `Identity.LoadIndex` | apps/analytics/schurfer_analytics/abnormal_flow_scan.py:273-301 | the index holds exactly the loaded spans per route, sorted |
| `Identity.FindSpan` | apps/analytics/schurfer_analytics/abnormal_flow_scan.py:239-248 | a covering span if there is one |
| `Identity.CoveringRecordAnswers` | apps/analytics/schurfer_analytics/abnormal_flow_scan.py:250-270 | a covering record carries the latest row's key and the time it was first stated |
| `Identity.ExportAndResolve` | apps/analytics/schurfer_analytics/abnormal_flow_scan.py:229-270 | export then resolve returns, at every instant of the window, the key of the latest row captured at or before it, or None before the first |
| `RollingRank.Insort` | apps/analytics/schurfer_analytics/bybit_compressed_spring.py:310-311 | insertion keeps the list sorted and adds exactly one copy |
| `RollingRank.Evict` | apps/analytics/schurfer_analytics/bybit_compressed_spring.py:312-315 | eviction keeps the list sorted and removes exactly one copy |
| `RollingRank.RollingRank.Push` | apps/analytics/schurfer_analytics/bybit_compressed_spring.py:308-315 | after any pushes the list is the sorted multiset of defined values among the last 336 |
| `RollingRank.RollingRank.Rank` | apps/analytics/schurfer_analytics/bybit_compressed_spring.py:301-306 | the incremental rank is the one recomputed from scratch, None below 269 defined values |
| `RollingRank.MidRankCounts` | apps/analytics/schurfer_analytics/bybit_compressed_spring_cond4.py:142-146 | a mid-rank counts the values below and not above in the history itself |
| `RollingRank.MidRankMonotone` | apps/analytics/schurfer_analytics/bybit_compressed_spring_cond4.py:142-146 | ranks lie in [0, 1] and do not fall as the value rises |
| `StderrCapture.OccursAcross` | infra/scripts/research_checkpoints.py:423-428 | a marker is in all text exactly when it is in the old text or in the carry plus the new text |
| `StderrCapture.Capture.Append` | infra/scripts/research_checkpoints.py:416-428 | after any chunks: flag, carry and tail in terms of their concatenation |
| `StderrCapture.Drain` | infra/scripts/research_checkpoints.py:434-443 | the flag holds exactly when a marker occurs in the folded concatenation; the tail is its last bytes |
| `Holm.HolmStepDown` | apps/analytics/schurfer_analytics/clustered_inference.py:174-211 | invalid inputs are refused; otherwise one decision per comparison in p-value order, reported by key |
| `Holm.RejectedIffAdjusted` | apps/analytics/schurfer_analytics/clustered_inference.py:197-206 | rejected exactly when the adjusted p-value is at most alpha |
| `Holm.DecisionsMonotone` | apps/analytics/schurfer_analytics/clustered_inference.py:197-206 | adjusted values do not fall with rank and rejections form a prefix |
| `Holm.RejectionMonotoneInP` | apps/analytics/schurfer_analytics/clustered_inference.py:189-200 | whatever has a p-value no larger than a rejected one is rejected, ties included |
| `Holm.FamilyWise` | apps/analytics/schurfer_analytics/clustered_inference.py:195-200 | if a family of positions holds a rejection, one of them has p <= alpha / size |
| `Holm.FamilyWiseByKey` | apps/analytics/schurfer_analytics/clustered_inference.py:195-211 | the same for any set of keys: the deterministic core of family-wise error control |
| `SlotRule.SelectOrdered` | apps/analytics/schurfer_analytics/abnormal_flow_replay.py:768-777 | the pruned list of ends implements the slot rule |
| `SlotRule.NeverOverSlots` | apps/analytics/schurfer_analytics/abnormal_flow_replay.py:754-777 | at no instant are more positions held than slots |
| `SlotRule.SkippedOnlyWhenFull` | apps/analytics/schurfer_analytics/abnormal_flow_replay.py:771-776 | a decision is skipped exactly when all slots are held |
| `Portfolio.SelectPortfolio` | apps/analytics/schurfer_analytics/abnormal_flow_replay.py:754-777 | takes or skips every decision by the slot rule in (entry, route) order |
| `Portfolio.SelectionNeverSkipsAgain` | apps/analytics/schurfer_analytics/abnormal_flow_replay.py:1096-1107 | simulating a selection never skips for capacity again |
| `Portfolio.SimulateCounts` | apps/analytics/schurfer_analytics/abnormal_flow_replay.py:803-820 | every pick is taken or skipped for exactly one cause |
| `Portfolio.DrawdownSnoc` | apps/analytics/schurfer_analytics/abnormal_flow_replay.py:830-831 | the running peak finds the deepest fall between any two capitals |
| `Portfolio.StreakSnoc` | apps/analytics/schurfer_analytics/abnormal_flow_replay.py:832-836 | the running streak finds the longest stretch of losses |
| `Portfolio.PeakSnoc` | apps/analytics/schurfer_analytics/abnormal_flow_replay.py:819-820 | the running maximum finds the most positions held at one instant |
| `Portfolio.SimulatePortfolio` | apps/analytics/schurfer_analytics/abnormal_flow_replay.py:780-845 | the reported figures equal their quadratic definitions over the run |
| `Portfolio.CapitalSkipsMeanExhausted` | apps/analytics/schurfer_analytics/abnormal_flow_replay.py:813-816 | a capital skip means nothing is left to invest, then and afterwards |
| `Portfolio.CapitalNeverNegative` | apps/analytics/schurfer_analytics/abnormal_flow_replay.py:813-828 | returns of at least -100% never take the bank below zero |
| `PathTaxonomy.LoadBars` | apps/analytics/schurfer_analytics/abnormal_flow_replay.py:1694-1703 | a later copy of a minute replaces an earlier one |
| `PathTaxonomy.ReadOutcome` | apps/analytics/schurfer_analytics/abnormal_flow_replay.py:1711-1751 | prices exactly when every checked bar is usable and both legs are priced |
| `PathTaxonomy.EntryExitExtendsEveryMinute` | apps/analytics/schurfer_analytics/abnormal_flow_replay.py:1722-1739 | the two-bar rule gives the same prices wherever the every-minute rule gives any |
| `PathTaxonomy.ScanPath` | apps/analytics/schurfer_analytics/abnormal_flow_unresolved_taxonomy.py:126-137 | the absent and incomplete offsets, in order, and whether a gap was marked |
| `PathTaxonomy.DiagnosePath` | apps/analytics/schurfer_analytics/abnormal_flow_unresolved_taxonomy.py:113-181 | flags, first problem, first gap, counts and reason; an error exactly for a resolved row with a path problem |
| `PathTaxonomy.DiagnosisMatchesReader` | apps/analytics/schurfer_analytics/abnormal_flow_unresolved_taxonomy.py:126-166 | with minutes stored once, no problem exactly when the reader's path is complete |
| `PathTaxonomy.ResolvedRowRefusedIff` | apps/analytics/schurfer_analytics/abnormal_flow_unresolved_taxonomy.py:351-383 | a row the reader resolves is refused exactly when a path minute also has an incomplete copy stored |
| `PathTaxonomy.DuplicateCopyDisagrees` | apps/analytics/schurfer_analytics/abnormal_flow_unresolved_taxonomy.py:358-370 | stored bars, a decision and a horizon for which the reader resolves the row and the taxonomy finds a problem in its path: the hard error at a concrete input |
| `PathTaxonomy.UnexplainedMeansUnpriced` | apps/analytics/schurfer_analytics/abnormal_flow_unresolved_taxonomy.py:165-166 | without a path problem the reader leaves a row unresolved only for want of a price |
| `Sizing.LcmIsLeast` | apps/analytics/schurfer_analytics/bybit_carry_feasibility.py:233-235 | the common step is the least common multiple of the two steps |
| `Sizing.CheckBook` | apps/analytics/schurfer_analytics/bybit_carry_feasibility.py:203-230 | an accepted book is nonempty, positive, sorted, uncrossed and fresh |
| `Sizing.VwapNotional` | apps/analytics/schurfer_analytics/bybit_carry_feasibility.py:238-246 | the walked cost, None when the levels are too thin |
| `Sizing.BuyingCostsMore` | apps/analytics/schurfer_analytics/bybit_carry_feasibility.py:215-226 | buying through a sound book costs strictly more than selling through it |
| `Sizing.WalkConvex` | apps/analytics/schurfer_analytics/bybit_carry_feasibility.py:238-246 | walking rising asks, a smaller quantity never costs more per unit than a larger one |
| `Sizing.OneShrinkFits` | apps/analytics/schurfer_analytics/bybit_carry_feasibility.py:272-288 | the first shrink of a quantity that came to more than the target always finds the depth and fits, on all four sides |
| `Sizing.SizeQuantity` | apps/analytics/schurfer_analytics/bybit_carry_feasibility.py:264-290 | for every pair of sound books the loop is the two-step closed form: the first try if it fits, else its one shrink; refused only for rounding to zero or a first try too deep for the books, so "did not converge" is unreachable |
| `Sizing.QuantityOnBothSteps` | apps/analytics/schurfer_analytics/bybit_carry_feasibility.py:233-235 | whole common steps are whole steps of both venues |
| `Sizing.EvaluatePair` | apps/analytics/schurfer_analytics/bybit_carry_feasibility.py:249-326 | passes exactly when both books are admitted, a quantity is sized and every limit is met, reporting that quantity on both steps with a strictly positive friction; otherwise names the first failure |
| `FeatureAssembly.AssembleDecisions` | apps/analytics/schurfer_analytics/abnormal_flow_replay.py:253-372 | one row per bar with 60 bars before it, decided by its own 61 bars: available exactly when they are contiguous, complete, finalized, traded and observed by the decision, of known identity |
| `FeatureAssembly.NoLookahead` | apps/analytics/schurfer_analytics/abnormal_flow_replay.py:278-288 | two histories that agree on the bars started by t give the same decisions up to bar t |
| `FeatureAssembly.AppendingKeepsDecisions` | apps/analytics/schurfer_analytics/abnormal_flow_replay.py:278-288 | appending later bars leaves all earlier decisions unchanged |

## Left out

- Networks, exchange clients, containers, SQL, Parquet, JSON and hashing: inputs of the model.
- Floating-point and decimal rounding: exact reals throughout.
- Bootstrap sampling, standard errors, report summaries and rendering: statistical or textual content.
- `build_funnel`, `merge_funnels`, eligibility reports: they count decisions per rejection reason and add the counts up; the claims that relate their episode counts are `Episodes.GlobalEpisodesAtMostSum` and `Episodes.AblationsHaveNoFewerEpisodes`.
- `excess_draws` and `controls_for` of the spring study: the transplant they draw from is modelled, their matching repeats the sorted top-k of `Controls`.
- `Universe` construction, tape and kline features of the spring study: inputs of the transplant.
- Message texts of the two runners: an alert is identified by what it reports and when it was raised.
- The lock file that keeps two runs from overlapping: runs are sequential in the model.
- Controls.SelectControls: a negative number of controls is not modelled; a frozen contract demands at least one.
- SpringHolds.HoldsOptimal: hours before the epoch are never kept by the source, so the selections compared are those since the epoch.
- CarrySimulation.SimulatePair: no close is zero; the source raises on a zero entry close (`CarryMoney.DividesByEntryPrice`), which ends the whole simulation.
- CarrySimulation.SimulateOneSlot: no close is zero, for the same reason.
- StderrCapture.Drain: case folding acts per character and is idempotent per character; byte decoding of the tail is not modelled.
- Research.RetriesKeepTheCohort: runs that die before their write are not modelled for this runner; such a run changes nothing on disk.
