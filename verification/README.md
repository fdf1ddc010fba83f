# Verified model of the smart router

The smart router is a gateway in front of several AI relay stations. It checks the stations, routes each
request to one of them with failover, breaks circuits of failing ones, runs quality checks, keeps alerts
and reports by Telegram. This project models its protocols and its transformations in Dafny and proves
what they promise over every input, every run and every interleaving. `dafny verify dfyconfig.toml` checks
all of it. Nothing was executed.

Each statement on PostgreSQL and each Redis script is one atomic, guarded update of a table held as a
value; objects that the program updates in place are classes whose methods are proved equal to these
updates, and the theorems are then about all sequences of them. Times are integers, amounts are reals.

| files | subject |
|---|---|
| `QualityTypes`, `QualityRepository`, `QualityLease`, `QualityTheorems`, `QualityFencing`, `QualityRuns`, `QualityExecutor` | quality runs: claiming, fencing, recovery, summary, what a run asked for is checked for, and the executor that follows the protocol among others |
| `CircuitBreaker`, `CircuitOpening`, `CircuitBuffer`, `CircuitSnapshot` | the circuit breaker, its failure window, its batching writer, and how the router reads it back |
| `RoutingTypes`, `RoutingOrder`, `RoutingStrategies`, `Routing`, `RoutingCriteria`, `RoutingGate`, `RoutingCircuits` | filtering, costs, the five strategies, the decision and its replay; from a failure to the requests that follow |
| `Failover`, `FailoverOutcomes` | probe slots of half-open channels, the failover loop and what it comes to, stream forwarding |
| `ProbeBudget` | the daily budget ledger of paid probes |
| `EpochIsolation` | write-then-publish rounds and the snapshots that read them |
| `AnthropicReader`, `Anthropic` | reading event streams; whole and streamed translation of messages |
| `TelegramTags`, `TelegramSplit`, `TelegramLoop`, `TelegramParts`, `TelegramBounds`, `TelegramLengths`, `TelegramInside`, `TelegramPlain`, `TelegramMessage`, `TelegramRunes`, `TelegramWords`, `Iteration` | splitting messages without breaking their markup |
| `SSE`, `SSEWritten` | incremental parsing of server-sent events, and the round trip |
| `Alerts` | the lifecycle of alerts |
| `Options`, `Strings` | small helpers |

## What turned out differently from what the code says of itself

Where a promise fails, the code is modelled as it is, a lemma shows an input for which it fails, and, where
there is one, another states exactly when it holds.

- The lease of a quality run is fenced by the worker's identifier only. A worker that claims a recovered run again while
  an earlier execution of its own is still going on lets that one pass every guard: it is fenced exactly if it was over by
  then (`FenceHoldsIff`), and a wrong verdict can follow exactly if it could still write results or complete the run
  (`VerdictHoldsIff`). Otherwise the WHERE clauses alone are enough; the heartbeat's abort is not needed, and cannot
  happen, because its error is not the one the worker tests for (`internal/quality/repository.go:295`,
  `internal/quality/worker.go:156`).
- The scan for stale runs is not part of the transaction that recovers them. Two recoverers with one scan break the
  attempt limit (`InterleavedRecoverersBreakTheBound`); `RecoveryKeepsBoundIff` says exactly when it is kept.
- The comment on `Summarize` promises "unknown" for insufficient data; one unknown check makes the verdict failed, and
  the table of critical stages never changes the outcome (`Summarize`).
- A sample that arrives while a circuit is cooling erases its deadline (`LateSampleEndsCooling`,
  `CoolingEndsAfterTwoSamples`). Resetting a circuit keeps its cooling level (`ResetKeepsLevel`), which has
  no effect (`KeptLevelIsIdle`).
- Streaming and whole translation of a message differ when a tool call has no input ("" against "{}") and when a message
  with tool calls stops for another reason than tool_use (`StreamingAgreesIff`). The last event of a stream that ends
  without its empty line is dropped, yet delivered if its last line feed is missing too (`LastEventIsLostIff`).
- Splitting a Telegram message need not end: a message that begins with a bare tag as long as the space for a part is cut
  for ever (`EndlessSplit`). `HaltsIff` says exactly when the loop ends; it does if every cut leaves room (`RoomHalts`), as
  with little markup (`LittleMarkupHalts`).
- Parts of a message with a safe point in every stretch of 256 bytes fit and are balanced (`FrequentSafePointsSuffice`).
  Otherwise making room for closing tags does not guarantee the length of a part (`PartTooLong`); `HeadFitsIff` and
  `FinishedPartsFitIff` say exactly when parts fit.
- The branch marked as unreachable in `cutHTMLChunk` is taken, for instance by a link longer than the search for a safe point
  goes back (`LongTagReaches`); `DeadBranchIff` and `DeadBranchOfMessageIff` say exactly when. The part then ends inside a tag.
  A part with tags to close that ends inside a tag can count as balanced (`BrokenButBalanced`); `PartIsSafeIff` says exactly when.
- A marked-up message is cut by bytes, and the cut goes to the full length of a part wherever no tag is open there, without
  asking whether a rune ends there. So a part can end in the middle of a rune and be no text any more, as the first part of a
  long Chinese message with one bracket is at Telegram's own limit (`BrokenRune`); `PartsAreTextIff` says exactly when.
- Telegram's limit is meant in UTF-16 code units, and counting runes is said to be on the safe side of it. It is not: a plain
  message can take twice the limit (`RunesAreNotUnits`, `UnsplitPlainFitsIff`). Counting bytes is (`UnsplitMarkupFits`).
- Under custom priority the published scores can contradict the published order: exactly when the criterion that decides
  between two candidates is outweighed by those after it (`PriorityScoreContradictsIff`, `PriorityScoresFollowIff`).
- A replay marked deterministic still depends on the present state of the request's group: it fails once that is disabled
  (`ReplayReportsNoChange`).
- The budget ledger forgets spending if a missing counter is seeded with a negative sum, which a recharge during a probe
  can cause, since it is stored as a negative cost (`NegativeSeedBreaksTheLedger`). Every reservation can be settled exactly
  at whatever it comes to, if and only if that never happens (`GrantSettlesIff`, `RunSettlesIff`). A probe that never got
  its lock, or was never started, keeps its reservation (`ChargeOfProbe`).
- A half-open slot is given back under the context of the request, and a failure to do so is ignored. So the slot is lost
  whenever the client has left by then, at whatever point, and also when it leaves after a first byte, where no release is
  tried (`RequestsOwnPart`, `CountersShowTheLost`, `LostSlotsBlockProbes`). A client that leaves a stream before its first byte is
  counted as a failure of the upstream, and the loop goes on; a call that its leaving cancels ends the request
  (`WhenTheClientLeaves`).
- `UpsertActive` escalates an alert without recording when, and no later reconciliation does (`EscalationTimeCanBeLost`).
  An escalation is dated exactly if the first critical sighting of a warning is a reconciliation's (`EscalationIsDatedIff`).
- Two checkers that work at the same time break the isolation of readers (`TwoCheckersBreakIsolation`): exactly when one
  publishes while another round is open (`RunIsolatesIff`). The rounds take no lock across processes.

## Model

| member | source | states |
|---|---|---|
| `QualityTypes.Summarize` | internal/quality/types.go:238-262 | the verdict depends only on which check statuses occur: failed or unknown makes it failed, else attention, else good; no results make it unknown |
| `QualityRepository.Repository.CreateRun` | internal/quality/repository.go:68-90 | a run is queued, as asked for, unless its channel already has an active one, which is then reported; `RunsAreAsAsked` says what the row then keeps |
| `QualityRepository.Repository.ClaimNext` | internal/quality/repository.go:204-241 | the oldest queued run that no other transaction has locked becomes running under the worker with one more attempt; nothing is claimed exactly when every queued run is locked |
| `QualityRepository.Repository.Beat` | internal/quality/repository.go:286-298 | a heartbeat lands exactly for the owner of a running run, not once a cancellation is asked for |
| `QualityRepository.Repository.UpsertResult` | internal/quality/repository.go:245-275 | a result replaces the one of its stage and check, exactly when the worker still owns the run |
| `QualityRepository.Repository.CancelOnRequest` | internal/quality/repository.go:337-347 | a run is cancelled exactly when a cancellation was asked for and the worker owns it |
| `QualityRepository.Repository.CompleteRun` | internal/quality/repository.go:350-365 | completion with a verdict lands exactly for the owner |
| `QualityRepository.Repository.FailRun` | internal/quality/repository.go:367-380 | failure lands exactly for the owner |
| `QualityRepository.Repository.RequestCancelRun` | internal/quality/repository.go:304-333 | a queued run is cancelled at once, a running one is only marked, any other is refused |
| `QualityRepository.Repository.RecoverStale` | internal/quality/repository.go:401-499 | the loop over a finished scan applies the recovery of each entry in turn |
| `QualityTables.UpsertRowContents` | internal/quality/repository.go:252-264 | the upsert keeps stage and check unique and replaces exactly the row of that key |
| `QualityLease.StepKeepsInv` | internal/quality/repository.go:204-499 | every statement, interleaved at will, keeps the invariant of the lease protocol |
| `QualityLease.InvHolds` | internal/quality/worker.go:123-205 | every legal run keeps it |
| `QualityTheorems.CompletedRunsAreSound` | internal/quality/executor.go:184-250 | in every legal run the verdict of a completed run is the summary of its results, which are complete and written by the claim that completed it, except for writes that claim lost |
| `QualityTheorems.TerminalRunsAreFrozen` | internal/quality/repository.go:350-380 | a finished run and its results never change again |
| `QualityRuns.RunsAreAsAsked` | internal/quality/repository.go:68-90 | in every legal run each row goes back to one request, and has its channel and depth and the time it was made |
| `QualityRuns.FullRunsMakeSixChecks` | internal/quality/types.go:74-78 | a run asked for as full is completed only with a result, or a lost write, for each of the six stages, under its own check, all named outright |
| `QualityRuns.BasicRunsMakeThreeChecks` | internal/quality/executor.go:157-162 | one asked for as basic with the first three, and without results of any other |
| `QualityRuns.StagesAreWrittenInOrder` | internal/quality/executor.go:189-243 | whoever holds the lease writes the stages in their order, each when those before it have a result or a lost write |
| `QualityRuns.EarlierAskedIsClaimedFirst` | internal/quality/repository.go:204-241 | of two queued runs that nobody has locked, the one asked for earlier is claimed first |
| `QualityRuns.HeartbeatIsLastSign` | internal/quality/repository.go:286-298 | in every legal run the heartbeat of a held run is the time of its claim or of the last heartbeat that landed |
| `QualityRuns.SignKeepsTheLease` | internal/quality/repository.go:401-409 | no recovery whose limit is not after a claim or such a heartbeat finds the run |
| `QualityRuns.AbandonedRunsAreReleased` | internal/quality/repository.go:401-499 | recovery takes a run from its holder exactly if the last sign of life is old enough: queued again while it has attempts left, else expired, or cancelled if that was asked for |
| `QualityFencing.LostLeaseStep` | internal/quality/repository.go:245-275 | no statement of anyone gives a lost lease back, and no statement of the loser changes the tables |
| `QualityFencing.LostLeaseWritesNothing` | internal/quality/repository.go:350-380 | over whole runs in which no worker claims a run it is still executing: once lost, never regained, nothing written |
| `QualityFencing.FenceHoldsIff` | internal/quality/repository.go:204-275 | after a second claim by the same worker its earlier executions write nothing, whatever follows, exactly if they were all over |
| `QualityFencing.VerdictHoldsIff` | internal/quality/executor.go:184-250 | and the run never completes with a verdict other than the summary of its results, whatever legally follows, exactly if none of them could still write results or complete it |
| `QualityFencing.PhasesHold` | internal/quality/executor.go:179-243 | every legal run keeps every execution within the stages of its run |
| `QualityTheorems.RecoverOneAlone` | internal/quality/repository.go:437-499 | recovery of a run never depends on other runs |
| `QualityTheorems.ConflictBranchIsDead` | internal/quality/repository.go:455-480 | given at most one active run per channel, the branch for a busy channel never acts, even on an old scan |
| `QualityTheorems.RecoveryKeepsBoundIff` | internal/quality/repository.go:401-499 | the attempt limit survives a recovery exactly when no entry of the scan is outdated |
| `QualityTheorems.InterleavedRecoverersBreakTheBound` | internal/quality/repository.go:402-440 | two recoverers on one scan lead to three attempts under a limit of two |
| `QualityTheorems.StepKeepsBudget` | internal/quality/repository.go:204-241 | every statement spends at least one unit of a bounded budget per status change |
| `QualityTheorems.RunsDoBoundedWork` | internal/quality/repository.go:401-499 | with atomic recovery every run has at most three status changes per allowed attempt and stays within the limit |
| `QualityExecutor.Others.Act` | internal/quality/repository.go:204-499 | any statement of somebody else, performed on the repository, is a step of the protocol that leaves the execution alone |
| `QualityExecutor.RunStage` | internal/quality/executor.go:189-243 | one stage: cancellation check, run, fenced write, with any statements of others in between, is a legal run of the protocol |
| `QualityExecutor.Execute` | internal/quality/executor.go:167-252 | the stage loop, summary and completion, whatever fails and whatever others do in between, is a legal run of the protocol and tells how it ended |
| `QualityExecutor.ExecuteTask` | internal/quality/worker.go:123-205 | however an execution ends its lease is over unless the last write fails, cancellation goes before failure, a lost lease ends without a write, and without a fault the run completes unless cancelled or lost; all of it is a legal run of the protocol, so if the run is completed, by whomever, it is soundly so |
| `QualityExecutor.CancelOnError` | internal/quality/worker.go:180-184 | after an execution error an asked-for cancellation is carried out, unless that statement fails |
| `QualityExecutor.FailTask` | internal/quality/worker.go:185-195 | otherwise the run fails, for the owner; if that write fails, nothing changes |
| `CircuitTheorems.RowReflectsEvents` | internal/api/circuit.go:96-157 | counters are the trailing streaks, never both positive; the level counts relapses; half-open is never stored |
| `CircuitTheorems.StateChanges` | internal/api/circuit.go:166-201 | a success never opens; closed is left exactly by a failure with which the window trips; open is left exactly past its stored deadline and by a success; degraded closes exactly at the threshold of straight successes |
| `CircuitTheorems.ClosedHasLevelZero` | internal/api/circuit.go:166-201 | a circuit that was never reset has level 0 whenever it is closed |
| `CircuitOpening.TrippedIff` | internal/api/circuit.go:236-270 | the window trips exactly if among the last minSamples outcomes that count there are too many failures; which count is said by place in the history: own channel, model and bucket, last ten minutes, not cancelled by the client |
| `CircuitOpening.ClosedOpensIff` | internal/api/circuit.go:176-180 | a closed circuit opens exactly by a failure with which the window trips, at level 0, for the initial cooling |
| `CircuitOpening.CooledReopensIff` | internal/api/circuit.go:181-189 | past its deadline it is opened again by any failure, for the table entry of the length of the row of failures, and degraded by a success |
| `CircuitOpening.DegradedRelapsesIff` | internal/api/circuit.go:190-199 | a degraded one relapses exactly by a failure with which the window trips, for the table entry of the number of relapses |
| `CircuitOpening.StoreOpensIff` | internal/api/circuit.go:74-157 | in the store a closed row opens exactly by a failure of its own that makes too many, itself included; samples of others or without effect leave it alone |
| `CircuitOpening.SettingsReplaceOneEach` | internal/api/circuit.go:273-312 | each setting that a group makes replaces just that one; without any, or without a group, the global ones hold |
| `CircuitOpening.ResetClosesTheChannel` | internal/api/admin.go:1600-1620 | a reset closes the rows of the channel, leaves their levels, and touches no others |
| `CircuitTheorems.SelfHealing` | internal/api/circuit.go:166-201 | past the deadline, max(2, threshold) straight successes close the circuit, and it stays closed while they last |
| `CircuitTheorems.CoolingIsBounded` | internal/api/circuit.go:204-240 | every stored deadline is within the larger of initial and maximal cooling |
| `CircuitTheorems.LevelNeverFalls` | internal/api/circuit.go:118-140 | within an episode the level never falls |
| `CircuitTheorems.RelapsesNeverCoolShorter` | internal/api/circuit.go:204-217 | with a non-decreasing table a later relapse never cools for less time |
| `CircuitTheorems.LateSampleEndsCooling` | internal/api/circuit.go:196-201 | any sample during cooling erases the deadline |
| `CircuitTheorems.CoolingEndsAfterTwoSamples` | internal/api/circuit.go:166-201 | a cooling circuit leaves open within two samples exactly when the second succeeds |
| `CircuitTheorems.ResetKeepsLevel` | internal/api/admin.go:1600-1620 | over any history a reset closes the circuit, clears its counters and leaves the level |
| `CircuitTheorems.KeptLevelIsIdle` | internal/api/circuit.go:166-201 | whatever follows a reset, the row goes the way it would have gone with level 0 |
| `CircuitBreaker.EffectiveConfig` | internal/api/circuit.go:273-312 | a group's settings override the global ones only where they are set, and stay usable |
| `CircuitBuffers.FoldConcat` | internal/api/circuit_buffer.go:127-165 | applying samples in batches is applying them one after the other |
| `CircuitBuffers.FoldActsPerRow` | internal/api/circuit.go:74-157 | a row is affected by exactly the samples of its own channel, model and bucket |
| `CircuitBuffers.StoredRowsReflectTheirOutcomes` | internal/api/circuit.go:96-157 | in a store written through the buffer's fold, each row is the account of its own outcomes |
| `CircuitBuffers.CircuitBuffer.FlushSync` | internal/api/circuit_buffer.go:175-197 | one sample in its own transaction is applied, or lost exactly if that fails |
| `CircuitBuffers.CircuitBuffer.Enqueue` | internal/api/circuit_buffer.go:78-85 | a sample joins the queue, or is written at once when the queue is full |
| `CircuitBuffers.CircuitBuffer.TryBatch` | internal/api/circuit_buffer.go:138-160 | a batch is applied in order and as a whole, or not at all |
| `CircuitBuffers.CircuitBuffer.Flush` | internal/api/circuit_buffer.go:127-165 | a batch that fails is replayed one by one; nothing is applied twice |
| `CircuitBuffers.CircuitBuffer.Happen` | internal/api/circuit_buffer.go:93-124 | an arrival is accepted or overtakes a full queue; receipts and ticks do neither |
| `CircuitBuffers.CircuitBuffer.Work` | internal/api/circuit_buffer.go:93-124 | over any run the arrivals are an interleaving of accepted and overtaking samples, and each accepted one is dealt with once, in order, or waiting |
| `CircuitBuffers.CircuitBuffer.Drain` | internal/api/circuit_buffer.go:104-116 | closing empties queue and batch |
| `CircuitBuffers.CircuitBuffer.Run` | internal/api/circuit_buffer.go:93-124 | every arrival ends in the log once, and the store is the one-at-a-time fold of the samples kept, which are all of them if fallbacks work and the queue never overflowed |
| `CircuitSnapshot.AggregateReadsBucket` | internal/router/snapshot.go:519-579 | the running aggregate of a bucket gives the bucket's meaning |
| `CircuitSnapshot.LoadCircuitStates` | internal/router/snapshot.go:500-572 | for any row order every bucket of a known channel with a row reads open exactly if one of its open rows still cools; rows of other channels are passed over |
| `CircuitSnapshot.WorstOfChannels` | internal/router/snapshot.go:548-566 | in any order of the buckets a channel as a whole gets the worst of their states |
| `CircuitSnapshot.GateAgreesWithUpdater` | internal/router/snapshot.go:86-99 | a channel reads open exactly if its effective bucket has a row that still cools; where it reads half-open for open rows, the updater treats each of them so |
| `CircuitSnapshot.RowOrderDoesNotMatter` | internal/router/snapshot.go:519-572 | the reading depends only on the set of rows |
| `RoutingTypes.NothingIsFree` | internal/router/strategy.go:336-384 | a request with input is never estimated at zero: missing and zero prices are replaced |
| `RoutingCriteria.CostIs` | internal/router/strategy.go:336-384 | the estimate is input tokens at the input price plus output tokens at the output price, for each of the four ways to price and the two to count output tokens |
| `RoutingCriteria.NestedIsSet` | internal/router/policy.go:242-281 | a setting of a table is read from its flat key first, then from the table, else it has its default |
| `Rankings.RankingUnique` | internal/router/strategy.go:52-80 | a set of entries has one ranking by a strict total order |
| `Rankings.Sort` | internal/router/strategy.go:52-80 | sorting distinct entries gives that ranking |
| `RoutingStrategies.BeforeIsStrict` | internal/router/strategy.go:52-296 | each of the five comparators is a strict order that decides between channels of different ids |
| `RoutingStrategies.FindMaxima` | internal/router/strategy.go:232-256 | the normalisation loop finds the maxima of the candidate set, never below zero |
| `RoutingStrategies.Sort` | internal/router/strategy.go:40-299 | the candidates come back with their scores, ranked |
| `RoutingStrategies.SortingIsDetermined` | internal/router/strategy.go:40-299 | the result does not depend on the order in which candidates are listed |
| `RoutingCriteria.StrategiesByName` | internal/router/strategy.go:19-34 | which name means which strategy; any other means custom priority |
| `RoutingCriteria.OrderFollowsTheCriteria` | internal/router/strategy.go:40-299 | of two candidates of a decision the earlier one is better in the first criterion of its strategy in which they differ, the criteria being listed |
| `RoutingCriteria.ScoresAre` | internal/router/strategy.go:40-299 | what the published scores are made of, for each strategy, on the maxima among the candidates |
| `RoutingCriteria.RolesAndLatencies` | internal/router/strategy.go:303-328 | roles rank primary, backup, emergency, others; a latency that was never measured counts as 9999 |
| `RoutingCriteria.WeightsAre` | internal/router/strategy.go:225-228 | the default weights of the balanced strategy |
| `BalancedTheorems.DominanceIsRespected` | internal/router/strategy.go:223-299 | for non-negative weights a candidate no worse in all four respects and better in one that counts comes first, whatever others are present |
| `BalancedTheorems.ScoresAreBounded` | internal/router/strategy.go:258-290 | balanced scores lie between 0 and the sum of the weights |
| `BalancedTheorems.ScoresFollowTheOrder` | internal/router/strategy.go:101-299 | scores never rise along the order, except under custom priority |
| `BalancedTheorems.PriorityScoreContradictsIff` | internal/router/strategy.go:40-96 | under custom priority a candidate scores below one it precedes exactly when the criterion that decides (role, priority, reliability) is outweighed by the later ones, or when latency decides and it has none |
| `BalancedTheorems.PriorityScoresFollowIff` | internal/router/strategy.go:40-96 | the scores never rise along the order exactly if that holds of no two candidates |
| `BalancedTheorems.PriorityScoreCanContradictTheOrder` | internal/router/strategy.go:40-96 | for instance a backup channel scores above an otherwise equal primary exactly when its priority is more than 100 higher, yet comes after it |
| `Routing.Partition` | internal/router/router.go:179-204 | in any enumeration order, candidates are exactly the channels without a verdict against them; the others are excluded once with their reason |
| `Routing.CollectScores` | internal/router/router.go:240-245 | order and score map are filled in the order of the ranking |
| `Routing.Route` | internal/router/router.go:106-265 | a decision ranks exactly the candidates under the policy in force; no candidate, a missing or a disabled group are reported as such |
| `RoutingTheorems.DecisionIsDetermined` | internal/router/router.go:163-251 | order, scores and set of exclusions are functions of policy, request and content |
| `RoutingTheorems.RankedOrExcluded` | internal/router/router.go:179-245 | every channel is ranked once or excluded once, never both |
| `RoutingGate.VerdictIsFirstFailure` | internal/router/filter.go:49-131 | the verdict on a channel is the reason for the first of eight checks that it fails, each stated in terms of channel, request and settings |
| `RoutingGate.RankedOrLeftOut` | internal/router/router.go:179-245 | routing ranks exactly the channels that pass all checks and lists each other one with the reason for the first check it fails |
| `RoutingCircuits.OpenIffCooling` | internal/router/filter.go:99-117 | on a snapshot that has read the circuit rows a channel is left out for its circuit exactly if it passes the checks before and a row of its effective bucket still cools; half-open, degraded and closed ones never are |
| `RoutingCircuits.FailingStationIsLeftOut` | internal/router/snapshot.go:500-572 | a failure that makes too many takes the station out of the routing of its group until the initial cooling is over, whatever else the store holds |
| `RoutingCircuits.CooledStationIsProbed` | internal/router/filter.go:106-109 | once every open row of a channel is past its deadline the circuit no longer keeps it out |
| `RoutingTheorems.DecisionIgnoresTime` | internal/router/filter.go:99-117 | the decision does not depend on when it is made, unless a channel reads "cooling" |
| `RoutingTheorems.LoggedReadsTheSame` | internal/router/policy.go:194-281 | a policy that went through JSON, where integers become floats, reads the same |
| `RoutingTheorems.LoggedDecidesTheSame` | internal/replay/replayer.go:236-247 | and so decides the same |
| `Routing.OverrideNamesStrategy` | internal/router/router.go:145-148 | an override changes the strategy and nothing else of the policy |
| `Replay.WithoutArchive` | internal/replay/replayer.go:228-247 | without an archived content or a logged strategy a replay uses the present snapshot or policy |
| `Replay.ReplayOne` | internal/replay/replayer.go:228-296 | a replay routes on archived snapshot and logged policy where they exist and is marked deterministic exactly then |
| `Replay.ReplayAgrees` | internal/router/snapshot.go:584-596 | on content of equal hash and the logged policy, order, scores and exclusions come out as they were |
| `Replay.ReplayHasCandidates` | internal/replay/replayer.go:228-269 | a decision that had a candidate has one in its replay |
| `Replay.ReplayReportsNoChange` | internal/replay/replayer.go:228-296 | such a replay reports no change and is marked deterministic; it fails exactly if the group is disabled by then |
| `ProbeSlots.SlotStore.Reserve` | internal/router/circuit_probe.go:20-28 | a slot is taken exactly when the count stays within the limit |
| `ProbeSlots.SlotStore.Release` | internal/router/circuit_probe.go:30-37 | a slot is given back; a counter that reaches zero disappears, a missing one stays missing |
| `ProbeSlots.StepStaysExact` | internal/router/circuit_probe.go:50-73 | every step of any request keeps the counter equal to the slots out |
| `ProbeSlots.SlotsAreCounted` | internal/router/circuit_probe.go:50-73 | in every interleaving the counter is the number of slots out and within 0 and the limit |
| `ProbeSlots.LostSlotsBlockProbes` | internal/api/proxy.go:402-408 | once as many slots are lost as the limit allows, no probe gets through |
| `Failover.StreamResponse` | internal/api/proxy.go:823-860 | what was committed, whether the stream ended well and whether the client left, in terms of the reads up to the one that stops it |
| `Failover.AttemptTTFBBudget` | internal/api/proxy.go:530-548 | the first-byte and connection time, 5 seconds each if not set, within the remaining budget, and at least a second |
| `Failover.TryCandidate` | internal/api/proxy.go:340-486 | while other requests use the slots, a candidate is tried if present and, when half-open, a slot is free and the store answers; the slot is then given back, unless the client left after a first byte or the release does not get through |
| `Failover.HandleRequest` | internal/api/proxy.go:295-497 | among other requests, exactly the candidates that can be tried are, in order, until attempts or time run out or one of them ends the request, which ends as that candidate's reply says; at most one channel writes to the client; each candidate finds the slots that all before it have left |
| `FailoverOutcomes.FirstToEndDecides` | internal/api/proxy.go:1133-1150 | the first candidate that is tried and whose reply is not one of the passing failures decides the outcome: 429, 408, any status from 500, network errors, and time-outs while the client is there pass; any other status ends the request with that channel's error |
| `FailoverOutcomes.LaterStationAnswers` | internal/api/proxy.go:295-497 | so stations that are overloaded, broken or silent do not fail a request that a later one answers within attempts and time |
| `FailoverOutcomes.AllFailedIff` | internal/api/proxy.go:486-497 | all have failed exactly if there is no such candidate within attempts and time |
| `FailoverOutcomes.RulesForSlots` | internal/api/proxy.go:340-371 | which candidates are tried, for which a slot is taken, and which slots are lost, in terms of count, limit and how the calls went |
| `FailoverOutcomes.SlotsAreItsOwn` | internal/router/circuit_probe.go:50-73 | a request takes slots only on channels of its candidates, for its own model and group |
| `ProbeSlots.Requests.Act` | internal/router/circuit_probe.go:50-73 | a step of another request, performed on the store |
| `Failover.RequestIsARun` | internal/router/circuit_probe.go:50-73 | with whatever the others do, a request is a run of reservations, returns and losses, and holds no slot in the end |
| `Failover.RequestsOwnPart` | internal/api/proxy.go:295-497 | its own part of that run is one reservation for every candidate granted a slot, followed by its loss exactly where it went unnoticed, the client left after a first byte or the release did not get through, and by its return otherwise |
| `Failover.RequestKeepsTheCount` | internal/api/proxy.go:295-497 | so in every interleaving the counters stay exactly the slots held and lost, within their limits |
| `Failover.CountersShowTheLost` | internal/api/proxy.go:577-581 | if nobody else uses them, the counters end as before plus the slots lost, and the same exactly if none was |
| `Failover.AttemptsAreOnTheTried` | internal/api/proxy.go:309-371 | the recorded attempts are, one by one, on the candidates that could be tried |
| `Failover.AttemptsAreBounded` | internal/api/proxy.go:309-371 | at most maxAttempts attempts, start plus first-byte budget at most total + 999 ms, and only the last can have committed, exactly on success or interruption |
| `Failover.AttemptsAreDistinct` | internal/api/proxy.go:309-317 | no channel is tried twice |
| `ProbeBudget.UnitsArePositive` | internal/checker/budget.go:95-101 | a positive amount is at least one unit, and units are within one of the amount |
| `ProbeBudget.ProbeOne` | internal/checker/probe.go:436-540 | the stage, cost and error of a probe for every way its steps can fail |
| `ProbeBudget.ChargeOfProbe` | internal/checker/probe.go:109-123 | a probe is charged nothing exactly when the first balance could not be read, the measured cost exactly when that is positive and recorded, else its estimate; a sent chat is charged at least one unit |
| `ProbeBudget.BudgetTracker.Reserve` | internal/checker/budget.go:38-57 | both counters grow by the amount, from their seeds if missing, exactly when both stay within budget |
| `ProbeBudget.BudgetTracker.Adjust` | internal/checker/budget.go:63-75 | both counters change by the difference, not below zero; nothing happens if one is missing |
| `ProbeBudget.BudgetTracker.RunProbe` | cmd/checker/main.go:601-683 | a scheduled probe that may run reserves its estimate and, on whatever other probers have made of the counters meanwhile, settles it at what it is to be charged; a lost or failed call leaves the reservation and, at settlement, disables further probes; otherwise nothing changes |
| `ProbeBudget.ProbeIsCharged` | cmd/checker/main.go:654-675 | with counters and seeds that are not negative the two steps charge both ledgers exactly what the probe is to be charged |
| `ProbeBudget.ReserveThenSettleIff` | internal/checker/budget.go:38-75 | reserving an estimate and settling is charging the actual amount, whatever that is, exactly if neither counter nor the seed of a missing one is negative |
| `ProbeLedger.ClampNeverFires` | internal/checker/budget.go:69-72 | as long as the ledger is exact, settling never reaches the clamp |
| `ProbeLedger.RunBalances` | internal/checker/budget.go:108-133 | every step of any prober keeps the ledger exact and within budget plus overruns |
| `ProbeLedger.LedgerIsExact` | internal/checker/budget.go:38-75 | in every interleaving without key loss and without a negative seed each counter is its seed plus settled amounts plus outstanding estimates, and exceeds a budget only by overruns |
| `ProbeLedger.GrantSettlesIff` | internal/checker/budget.go:38-75 | in an exact ledger a granted reservation can be settled exactly at whatever it comes to, if and only if the missing counters got seeds that are not negative |
| `ProbeLedger.RunSettlesIff` | internal/checker/budget.go:38-75 | over a whole run every reservation can be, if and only if no missing counter is ever seeded with a negative amount |
| `ProbeLedger.ReserveWithin` | internal/checker/budget.go:51-56 | every granted reservation leaves both counters within their budgets |
| `ProbeLedger.NegativeSeedBreaksTheLedger` | internal/checker/probe.go:304-322 | for instance a negative spending sum as seed lets the budget be exceeded and the ledger forget it |
| `EpochStore.Store.PublishEpoch` | internal/store/postgres.go:85-97 | the epoch only moves forward, and the call tells whether it did |
| `EpochStore.Store.RunRound` | cmd/checker/main.go:475-592 | a round writes all its rows under the next epoch and then publishes it |
| `EpochStore.Latest` | internal/router/snapshot.go:308-356 | per key a newest visible row |
| `EpochStore.AnswersAreValid` | internal/router/snapshot.go:336-344 | no price is answered without a model or with a ratio that is not positive |
| `EpochStore.AnswerIsUniqueIff` | internal/router/snapshot.go:310-315 | the query has one answer exactly when newest rows of a key do not disagree |
| `EpochIsolation.StepKeepsInv` | cmd/checker/main.go:475-592 | for any number of checkers, every row has the epoch of its round and no round is more than one epoch ahead |
| `EpochIsolation.PublishedRowsNeverGrow` | internal/store/postgres.go:72-97 | below a published epoch at which no open round works, no row is ever added |
| `EpochIsolation.IsolatedIff` | internal/store/postgres.go:72-97 | what readers of a published epoch see stays as it is in every continuation, exactly if no open round works at or below that epoch |
| `EpochIsolation.StepStaysClearIff` | internal/store/postgres.go:85-97 | readers stay isolated over a step exactly unless it publishes beside another open round |
| `EpochIsolation.RunIsolatesIff` | cmd/checker/main.go:475-592 | readers are isolated throughout a run exactly if no round is published beside another |
| `EpochIsolation.OneCheckerIsolates` | cmd/checker/main.go:475-592 | one checker alone never does that |
| `EpochIsolation.RoundsAreWhole` | internal/router/snapshot.go:308-356 | a reader sees all rows of a round or none |
| `EpochIsolation.SnapshotIsAtomic` | internal/router/snapshot.go:196-229 | while readers are isolated, each of a snapshot's queries, at whatever later time, sees exactly the rows of the rounds published when the epoch was read, all of them closed |
| `EpochIsolation.SnapshotsAreSerialisable` | internal/router/snapshot.go:196-229 | after any run that publishes no round beside another, the queries' answers could have been given together at that moment |
| `EpochIsolation.FailedPublicationIsCarriedOver` | cmd/checker/main.go:587-592 | a round that ends unpublished shares its epoch with the checker's next one exactly if nobody else has moved the epoch |
| `EpochIsolation.TwoCheckersBreakIsolation` | internal/store/postgres.go:72-97 | from any moment of rest, two checkers that begin together add a row below an epoch that one of them has published |
| `AnthropicToOpenAI.Convert` | internal/protocol/anthropic.go:368-432 | the loop over content blocks gives the completion's text, tool calls and finish reason, which is "length" exactly for max_tokens without tool calls, "tool_calls" exactly with tool calls or for tool_use, and else "stop" |
| `AnthropicStream.DoneIsLast` | internal/protocol/anthropic.go:522-651 | the end marker comes at most once and last |
| `AnthropicReader.ReadEvent` | internal/protocol/anthropic.go:492-520 | the loop over lines finds the next event, an empty line without one, or the end |
| `AnthropicReader.WrittenIsRead` | internal/protocol/anthropic.go:492-520 | round trip: the events a server writes are those read, with their lines of data joined |
| `AnthropicReader.LastEventIsLostIff` | internal/protocol/anthropic.go:492-520 | after any events, a last event without its empty line is lost exactly if its last line is complete, and delivered if the line feed is missing too |
| `AnthropicReader.CRMakesNoDifference` | internal/protocol/anthropic.go:492-520 | it makes no difference to the events of any stream whether its lines end in LF or CRLF |
| `AnthropicReader.OnTheWire` | internal/protocol/anthropic.go:492-520 | the names of the fields |
| `AnthropicStream.StreamTransformer.NextEvent` | internal/protocol/anthropic.go:492-520 | one event's frames are appended to what is still to be read; at the end the stream counts as stopped, or as failed if the connection broke |
| `AnthropicStream.StreamTransformer.Read` | internal/protocol/anthropic.go:466-487 | a read hands out the next bytes of the translation and loses none |
| `AnthropicStream.CopyAll` | internal/protocol/anthropic.go:466-487 | the concatenated output does not depend on the sizes of the reads |
| `AnthropicAgreement.AllBlocksSeen` | internal/protocol/anthropic.go:540-630 | a client that accumulates the frames has the text and the tool calls, by index, of the blocks |
| `AnthropicAgreement.StreamResultIs` | internal/protocol/anthropic.go:522-651 | for any cutting into deltas the accumulated result is the same |
| `AnthropicAgreement.StreamedFinish` | internal/protocol/anthropic.go:628-640 | streamed, the finish is "length" exactly for max_tokens, "tool_calls" exactly for tool_use, and else "stop" |
| `AnthropicAgreement.RoleComesFirst` | internal/protocol/anthropic.go:540-560 | the client learns the role first, and once |
| `AnthropicAgreement.StreamingAgreesIff` | internal/protocol/anthropic.go:368-651 | streaming and converting whole agree exactly when tool calls carry input and stop with tool_use |
| `AnthropicAgreement.OneDone` | internal/protocol/anthropic.go:640-651 | a message's stream has exactly one end marker, last |
| `TelegramTags.NameOfToken` | internal/telegram/format.go:198-208 | a tag's name is the lower-cased alphanumeric run after its opening |
| `TelegramTags.UnclosedTags` | internal/telegram/format.go:179-195 | the loop over the tokens gives the stack of open tags |
| `TelegramTags.ScanConcat` | internal/telegram/format.go:179-224 | after a cut outside a tag scanning goes on as without it |
| `TelegramTags.ScanCloseTags` | internal/telegram/format.go:93-99 | the closing tags close exactly what is open |
| `TelegramTags.ScanReopenTags` | internal/telegram/format.go:102-108 | the reopening tags open exactly what was open |
| `TelegramTags.CutIsTransparent` | internal/telegram/format.go:67-108 | the part before a cut outside a tag is balanced with its closing tags, and for every suffix the reopened tags stand for it |
| `TelegramCut.LastRuneBoundary` | internal/telegram/format.go:111-119 | the loop finds the last rune boundary up to the target |
| `TelegramCut.SearchBack` | internal/telegram/format.go:163-174 | the largest safe rune boundary of the window, or 0 if there is none |
| `TelegramCut.LastSafeCut` | internal/telegram/format.go:156-175 | the target if it is safe, else the largest safe boundary within 256 bytes before it, else 0 |
| `TelegramCut.CutHTMLChunk` | internal/telegram/format.go:67-90 | whatever branch cuts, the part is the text before the cut with its closing tags, the rest is the reopened tags and the text after it |
| `TelegramCut.ReopenedLength` | internal/telegram/format.go:102-108 | reopened tags never take more bytes than were cut, and as many exactly for bare opening tags |
| `TelegramCut.CutShrinksIff` | internal/telegram/format.go:67-90 | a cut makes progress exactly unless it takes off nothing but bare opening tags |
| `TelegramCut.SafeCutShrinks` | internal/telegram/format.go:68-70 | a safe cut makes progress and its part fits |
| `TelegramCut.HeadFitsIff` | internal/telegram/format.go:67-90 | a part is no longer than allowed exactly if it ends at a safe point, nothing needs closing, or the cut could be moved back and the tags open there need no more than the room this made |
| `TelegramLoop.StuckStays` | internal/telegram/format.go:51-55 | a cut without progress gives the same text back, so the next has none either |
| `TelegramLoop.HaltsIff` | internal/telegram/format.go:51-55 | the loop ends exactly when no remainder it reaches begins with a cut of bare opening tags |
| `TelegramHalting.EndlessSplit` | internal/telegram/format.go:44-55 | a family of messages that is split for ever |
| `TelegramHalting.CutKeepsMarkup` | internal/telegram/format.go:67-108 | cutting and reopening makes no markup |
| `TelegramHalting.RoomMakesProgress` | internal/telegram/format.go:71-90 | a cut of UTF-8 text makes progress if the tags open at it leave more than three bytes of the part, whatever markup there is elsewhere |
| `TelegramHalting.RoomHalts` | internal/telegram/format.go:44-90 | a message whose cuts all leave room is split in finitely many rounds |
| `TelegramHalting.LittleMarkupHalts` | internal/telegram/format.go:44-90 | UTF-8 text whose markup is short against the length of a part is split in boundedly many rounds |
| `TelegramHalting.PartTooLong` | internal/telegram/format.go:71-87 | a family of messages with a part longer than allowed |
| `TelegramLengths.FrequentSafePointsSuffice` | internal/telegram/format.go:32-64 | a message with a safe point in every stretch of 256 bytes, and no longer than 99 parts are sure to hold, is split in boundedly many rounds into parts that fit, at points outside tags, so that the parts of a balanced message are balanced |
| `TelegramLengths.FewFinishedPartsFit` | internal/telegram/format.go:44-64 | up to 99 parts fit if every cut has room for its closing tags |
| `TelegramLengths.PartsFitTheChunkIff` | internal/telegram/format.go:49-58 | before they are numbered all parts fit exactly if every cut has room for its closing tags |
| `TelegramLengths.FinishedPartsFitIff` | internal/telegram/format.go:44-64 | no finished part is longer than allowed exactly if at every cut the markup before it fits, closed, beside the part's counter, and the last rest fits beside its own |
| `TelegramInside.DeadBranchIff` | internal/telegram/format.go:76-78 | in UTF-8 text the branch marked as unreachable is taken exactly when nothing is open at the length of a part, which lies inside a tag that begins further back than the search for a safe point goes; the part then ends inside that tag |
| `TelegramInside.LongTagReaches` | internal/telegram/format.go:76-78 | for instance by a tag longer than that, with no tag before it in the part |
| `TelegramInside.TailIsWhole` | internal/telegram/format.go:67-90 | what is left after a cut of UTF-8 text satisfies the same condition again |
| `TelegramInside.PartIsSafeIff` | internal/telegram/format.go:67-99 | a part is balanced exactly if it is cut outside a tag, or inside one that runs together with the first closing tag and still closes what that was to close |
| `TelegramInside.PartsAreSafeIff` | internal/telegram/format.go:44-108 | all parts are balanced exactly if every cut is of that kind and the last rest is balanced |
| `TelegramInside.BrokenButBalanced` | internal/telegram/format.go:179-224 | a part with a broken tag that counts as balanced |
| `TelegramParts.CutParts` | internal/telegram/format.go:49-58 | the loop gives the pieces in order, or nothing if it has not ended after so many rounds |
| `TelegramParts.NumberParts` | internal/telegram/format.go:59-62 | every part gets its counter |
| `TelegramParts.SplitHTML` | internal/telegram/format.go:32-64 | a message that fits is left alone; another is cut into its numbered pieces, if the loop ends in so many rounds; without a limit Telegram's own is taken |
| `TelegramParts.ResultIsDetermined` | internal/telegram/format.go:44-64 | more rounds than it takes do not change the result |
| `TelegramParts.NothingIsLost` | internal/telegram/format.go:44-90 | without seams, closers and counters the parts are the message, byte for byte, wherever it is cut |
| `TelegramParts.EveryPartIsSafe` | internal/telegram/format.go:44-108 | if no cut falls inside a tag, every part of a balanced message is balanced |
| `TelegramParts.FormattingIsKept` | internal/telegram/format.go:44-108 | and every byte stands under the same open tags in its part as in the message |
| `TelegramParts.SafeCutIsClean` | internal/telegram/format.go:156-175 | a safe cut never falls inside a tag |
| `TelegramParts.CounterIsPlain` | internal/telegram/format.go:59-62 | counters leave parts balanced |
| `TelegramPlain.SplitPlain` | internal/telegram/format.go:122-149 | plain text that fits is left alone; another is cut into numbered chunks of runes, more than one |
| `TelegramPlain.ChunksAreTheText` | internal/telegram/format.go:132-141 | no rune is lost |
| `TelegramPlain.ChunkLengths` | internal/telegram/format.go:132-141 | every chunk but the last is full, none is empty |
| `TelegramPlain.PartsFitIff` | internal/telegram/format.go:122-149 | every part is within the limit exactly when there are at most 99 |
| `TelegramMessage.SplitMessage` | internal/telegram/format.go:32-64 | text without brackets is split by runes, other text by the bytes of its encoding |
| `TelegramMessage.BytesAreUtf8` | internal/telegram/format.go:111-119 | the bytes of any message have the properties of UTF-8 that the results on cuts rest on |
| `TelegramMessage.EncodeReadsBack` | internal/telegram/format.go:122-149 | the bytes of a rune determine it |
| `TelegramMessage.BytesKeepAscii` | internal/telegram/format.go:38-40 | a message has a bracket exactly if its bytes have |
| `TelegramMessage.DeadBranchOfMessageIff` | internal/telegram/format.go:71-78 | at the first cut of any message and at every later one the branch marked as unreachable is taken exactly under that condition |
| `TelegramMessage.UnsplitPlainFitsIff` | internal/telegram/format.go:23-24 | plain text that is not split fits Telegram's limit exactly if its runes outside the basic plane leave room |
| `TelegramMessage.RunesAreNotUnits` | internal/telegram/format.go:23-24 | a message of as many such runes as the limit takes twice the limit |
| `TelegramMessage.UnsplitMarkupFits` | internal/telegram/format.go:41-43 | marked-up text that is not split fits the limit in code units |
| `TelegramRunes.BeginningIsTextIff` | internal/telegram/format.go:111-119 | a beginning of the bytes of a text is text, and so is what remains, exactly if a rune ends there |
| `TelegramRunes.CutIsTextIff` | internal/telegram/format.go:67-90 | part and rest of a cut are text exactly if it is not made at the full length, where no tag is open but a rune is not over |
| `TelegramRunes.PartsAreTextIff` | internal/telegram/format.go:44-64 | the parts of a message are all text exactly if none of its cuts is of that kind |
| `TelegramRunes.BrokenRune` | internal/telegram/format.go:156-161 | a family of messages whose first part ends within a rune |
| `TelegramRunes.SpaceIsWhole` | internal/telegram/format.go:203 | trimming bytes takes off exactly the space characters of Unicode, rune by rune |
| `TelegramWords.NamesAreLettersAndDigits` | internal/telegram/format.go:152 | names of tags are made of letters and digits; capitals stand for their small letters |
| `TelegramWords.TagOpens` | internal/telegram/format.go:179-195 | a tag with a name and attributes, or without, is open from there on, unless it ends with a slash |
| `TelegramWords.EndTagCloses` | internal/telegram/format.go:184-187 | an end tag closes the last open one of its name and nothing else |
| `TelegramWords.SafeCutIs` | internal/telegram/format.go:156-175 | the cut is the length of a part if that is safe, else the last safe end of a rune less than 256 bytes before, or none |
| `TelegramWords.CounterReads` | internal/telegram/format.go:59-62 | the counter of a part says which one it is and of how many |
| `TelegramWords.LeftAloneIff` | internal/telegram/format.go:41-63 | a marked-up message is left alone exactly if it is no longer than the limit; otherwise every part ends with its counter |
| `TelegramWords.LengthsAre` | internal/telegram/format.go:32-48 | the limit without one given, and the space kept for counters |
| `SSE.ParseFrame` | web/src/quality.js:28-46 | the loop over a frame's lines gives its event, if it has data |
| `SSE.ParseChunk` | web/src/quality.js:21-48 | the events of the complete frames, and the unfinished rest |
| `SSE.FirstSeparatorIsStable` | web/src/quality.js:23 | more input never moves a complete separator nor brings one forward |
| `SSE.SplitResumes` | web/src/quality.js:22-26 | splitting can be resumed from the carried rest |
| `SSE.Feed` | web/src/quality.js:21-48 | feeding any pieces gives the events and buffer of the whole |
| `SSE.ChunkingDoesNotMatter` | web/src/quality.js:21-48 | parsing in two parts is parsing whole, wherever the cut falls |
| `SSE.FramesAreTheLineByLineReading` | web/src/quality.js:21-48 | for LF and CRLF in any mixture the frames are what reading line by line finds (section 9.2.6 of the WHATWG HTML Standard, for this parser's fields) |
| `SSEWritten.WrittenIsRead` | web/src/quality.js:21-48 | round trip: whatever events are written, with LF or CRLF, are read with their names, trimmed, and the lines of their data, without the space after the colon; without a name as messages, and without data for an empty payload or the end marker |
| `Strings.JoinedByLineFeeds` | web/src/quality.js:40 | the lines of an event's data are joined by line feeds, here as in the reader of the gateway |
| `AlertRows.AlertStore.Upsert` | internal/alert/reconcile_store.go:80-109 | the active row of the key is seen again, or a new cycle begins |
| `AlertRows.AlertStore.Reconcile` | internal/alert/reconcile_store.go:59-134 | the whole round is applied, or nothing of it when a statement fails |
| `AlertRows.AlertStore.UpsertActive` | internal/alert/reconcile_store.go:139-183 | one alert is written; a missing key is refused |
| `AlertRows.AlertStore.ResolveKey` | internal/alert/reconcile_store.go:186-201 | the active row of the key recovers; a missing key is refused |
| `AlertLifecycle.ReconcileSetsActiveKeys` | internal/alert/reconcile_store.go:112-129 | after a round the active keys are exactly its non-empty keys |
| `AlertLifecycle.AtMostOneActive` | migrations/020_alert_telegram.up.sql:33-34 | over any run no key has two active rows |
| `AlertLifecycle.RecoversExactly` | internal/alert/reconcile_store.go:112-129 | an active row recovers exactly by a reconciliation that does not list its key or the message that it is over, and records that time |
| `AlertLifecycle.RowsEvolve` | internal/alert/reconcile_store.go:89-104 | over any run recovered rows are frozen, severity never falls in a cycle, and an escalation is recorded at most once |
| `AlertLifecycle.OccurrencesAreSightings` | internal/alert/reconcile_store.go:93 | over any run the counts of a key add up to its sightings |
| `AlertLifecycle.StepDatesIff` | internal/alert/reconcile_store.go:93-104 | an operation that finds a warning and leaves it critical dates the escalation exactly if it is a reconciliation |
| `AlertLifecycle.RowsAreTheirSightings` | internal/alert/reconcile_store.go:80-175 | over any run each row is the account of the sightings it was made from: first and last time, value, count, severity and escalation time |
| `AlertLifecycle.EscalationIsDatedIff` | internal/alert/reconcile_store.go:89-104 | over any run a row is dated as escalated exactly if it began as a warning and its first critical sighting was a reconciliation's, and then with that time |
| `AlertLifecycle.StampedByReconcile` | internal/alert/reconcile_store.go:59-175 | the sightings that record an escalation are exactly those of reconciliations, the others those of single writes |
| `AlertLifecycle.EscalationTimeCanBeLost` | internal/alert/reconcile_store.go:158-175 | for instance an escalation by a single write followed by a reconciliation is never dated |

## Left out

- Requests over HTTP, SQL and Redis clients, metrics, logs and user interface: only the guarded meaning of each statement is modelled.
- JSON and SHA-256: messages are taken as parsed, the content hash as an injective function. A payload of an event is its text; parsing it is left out.
- Rounding of floats: costs and scores are reals, so the bounds hold up to rounding.
- `SetProgress` (internal/quality/repository.go:278) and the published events: the progress columns are not fenced and not part of the frozen fields.
- Process crashes, and statements of the quality checks that are carried out although their answer is lost: an execution that stops is recovered as stale.
- SplitMessage: messages that are not valid UTF-8 are not modelled. Attributes of a tag are dropped when it is reopened, as in the code.
- EveryPartIsSafe: cuts that fall inside a tag are excluded; the code does not prevent them where there is no safe point, and `PartsAreSafeIff` says exactly what they do.
- `created_at` of history rows: the most recent samples are the last inserted; rows of one batch share a time stamp.
- CircuitBuffer.Enqueue: a sample that finds the queue full is written at once and so ahead of queued ones; order is claimed for queued samples only. A failed batch is rolled back before its replay, whereas the deferred rollback of the code runs after it.
- Reset of the circuit by an administrator: modelled as an event, the handler around it is not.
- Expiry of Redis keys: budget keys may be lost in `ProbeLedger` but then only the claims that survive it hold; expiry of slots is left out.
- Others.Act: a claim by a worker that is still executing an earlier claim of the same run is passed over, as when every process has an identifier of its own; `VerdictHoldsIff` says what happens otherwise.
- Manual probes (internal/api/ratio.go:484-528): they are the same reservations and settlements on the ledger; their locking and their messages are left out.
- Probe results in the epoch scheme: manual probes write them under the published epoch, so they are not claimed to be isolated; neither are full synchronisations that write under the current epoch. Retention clean-up, which deletes old rows, is left out.
- SplitHTML: its loop is given a number of rounds, because the code's need not end; `HaltsIff` says when some number is enough.
- Loading policies and groups from the database: they are parameters of `Route`. Candidate details for the radar chart and the text of the decision reason are left out.
- The translation of requests from OpenAI to Anthropic, Telegram polling, station settings, balances, validation of URLs, encryption and the administration handlers: thin, bound to libraries, or easy beside what is proved here.
