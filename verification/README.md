# sqlhealthwatch, modelled and proved in Dafny

sqlhealthwatch collects health data from a fleet of SQL Server instances: it fans workers out over the
servers under a per-tier lock, stores what they read, derives rates and trends, and alerts with a cooldown.
This project models three parts of it and proves what they keep, for all inputs and all interleavings.

**Runs, alerts and ingestion.** `TierProtocol` is a state machine in which one action is one database call,
one send, or one hand-over between threads. Runs of both tiers, their workers, failures of every call and a
clock that never goes back interleave freely. `TierRuns` proves the lock, attribution, status and counting
invariants of every reachable state; `TierAlerts` proves the cooldown bound under interleaving; `TierProgress`
that a run can be brought to its end whatever has failed; `TierWitnesses` holds concrete histories that show
where those bounds are tight. `AlertRouter` is the router in its own imperative form, over the `AlertLog` table,
one router after another; `DeadlockIngest` is the watermark protocol of one server; `RunnerLoops` has the fan-out
and collector loops; `Fingerprints` says when a fingerprint names its server and when two findings share one.

**Derived metrics.** `LeastSquares`, `Projection`, `Counters`, `SustainedCpu` and `Severities` treat `float` as
`real`, with `round(x, k)` as rounding to the nearest multiple, ties to even (`Rounding`, `Reals`); `Permutations`
and `Positions` hold shared facts about reordering and about selecting in order.

**Small imperative algorithms.** `ThresholdHeap` runs `effective` and `_deep_merge` on a heap of shared
dictionaries and ties them to `ThresholdResolution`; `ChainDepth`, `IoIntervals`, `Retention`, `GoBatches` and
`BracketQuoting` do the same for their functions.

Time is a whole number of microseconds in `AlertLog`, `TierProtocol` and `DeadlockIngest`; `DATETIME2(0)` and
`DATETIME2(3)` columns round to the nearest second and millisecond. A Python exception is `Raised`, a `None` is
`None`. A fault of a foreign call is a nondeterministic choice, or an input where a contract speaks of it.

## Where the code and its promises part

Each of these is proved, as a lemma with a concrete input or as one side of an exact condition.

- A dry run stores the deadlock watermark and then does not write, so the events it read are never stored
  (`DeadlockIngest.DryRunLoses`); the same goes for a write that fails (`DeadlockIngest.SafeExactly`). The
  source says that the dedup index makes a re-read harmless, but there is no re-read.
- The cooldown compares with a stamp rounded to the second, so two sends can be up to half a second closer than
  the configured minutes (`TierWitnesses.SendsCanBeCloser`), though their stored stamps never are. They keep the
  whole cooldown exactly when the stamp is no earlier than the send (`AlertLog.DeliverySpacingExactly`).
- One collector's failure is meant to cost only itself. A failing read of the previous io sample, or a failing
  deadlock watermark, stands outside that protection and fails the server's whole pass
  (`RunnerLoops.RunCollectors`).
- When the file target cannot be read, the ring buffer's events move the watermark past older events the ring
  buffer has dropped, and the file target is never asked for those again
  (`DeadlockIngest.FallbackPassesExactly`, `DeadlockIngest.FallbackMisses`).
- Two runs of one tier that start within one stored second can swap workers: "newest run of the tier" is then
  either of them (`TierRuns.AttachesExactlyToTies`, `TierWitnesses.TieMisattributes`).
- A server that fails is meant to be recorded in `server_status`. A worker that fails before it attaches reports
  under the run id "-", which `server_status.run_id` cannot hold, so it leaves no row
  (`TierWitnesses.FailureUnrecorded`). A failing worker leaves one exactly when it has attached and its record gets
  through (`TierRuns.FailureRowExactly`).
- The same fingerprint is not to be sent again within the cooldown, but both tiers can send it at the same moment
  (`TierWitnesses.BothTiersSend`). A check lets it through exactly when no delivery logged before its
  lookup, by either tier, is younger than the cooldown (`TierAlerts.JudgedExactly`).
- `effective` promises overrides that leave the configuration alone. For a category the defaults lack it adopts
  the override's own dictionary, and a later override of that category changes it for every other server
  (`ThresholdResolution.OverridesKeptExactly`, `ThresholdResolution.OneCallSpoilsAnother`). Worker threads share
  these dictionaries; those a call may write are of categories the defaults lack, and there are none exactly when
  the defaults have every overridden category (`ThresholdHeap.Thresholds.NothingWrittenExactly`).
- A session on a blocking cycle of n has depth n + 1, as deep as its own blocker (`ChainDepth.RingDepth`).
- When the time budget runs out, a collector that had its turn in vain is listed as skipped twice
  (`RunnerLoops.FramedOrSkipped`).
- A negative `batch_rows` makes `write` succeed without writing anything (`DeadlockIngest.Repository.Write`).

## Model

| member | source | states |
|---|---|---|
| TierRuns.AlwaysInv | src/sqlhealthwatch/runner.py:94-218 | every sequence of actions from the empty repository keeps the lock, run, worker, count and status invariants |
| TierRuns.Kept | src/sqlhealthwatch/runner.py:94-218 | each single action keeps those invariants |
| TierRuns.OneActiveRun | src/sqlhealthwatch/storage/repository.py:114-139 | two runs of one tier that hold the lock are the same run |
| TierRuns.OneWorkerPerServer | src/sqlhealthwatch/runner.py:135-139 | two unfinished workers of one tier on one server are the same worker |
| TierRuns.LockOutlivesWorkers | src/sqlhealthwatch/runner.py:106-127 | while a worker is unfinished its run holds the tier's lock and has no result for it |
| TierRuns.LaunchExactly | src/sqlhealthwatch/runner.py:106-111 | in every reachable state a call gets the tier's lock exactly when no run of the tier is under way, and is otherwise skipped with no effect |
| TierRuns.ReleaseExactly | src/sqlhealthwatch/runner.py:106-127 | the lock can be given up exactly before the fan-out or once every selected server's result is there |
| TierRuns.RunStarts | src/sqlhealthwatch/runner.py:113-122 | a run that has the lock inserts its row, stamped with the time, and then one queued worker per selected server |
| TierRuns.GatherExactly | src/sqlhealthwatch/runner.py:140-147 | in every reachable state the result of a worker can be taken up exactly when it has finished, and once |
| TierProgress.RunCanEnd | src/sqlhealthwatch/runner.py:106-127 | after any history, a run that holds its tier's lock can be brought to its end: every worker finished, every result taken up, the counts stored and the lock given back |
| TierProgress.TierCanRunAgain | src/sqlhealthwatch/storage/repository.py:114-139 | after any history, any tier can be brought to where the next call for it gets the lock |
| TierProgress.WorkerCanEnd | src/sqlhealthwatch/runner.py:150-218 | after any history an unfinished worker can be brought to its end by its own steps alone, wherever in an alert or a failure it is |
| TierProgress.FailureCanBeRecorded | src/sqlhealthwatch/runner.py:180-200 | an exception outside a send ends an attached worker's pass and can leave a failure row with the run it attached to |
| TierRuns.Attribution | src/sqlhealthwatch/runner.py:150-218 | when runs of a tier start in different stored seconds, every attached worker has the run that spawned it, and every status row carries that run's id and the worker's server |
| TierRuns.AttachesExactlyToTies | src/sqlhealthwatch/runner.py:212-218 | the run a worker can be given is any run of its tier with its own run's stored second, and no other; it always finds one |
| TierRuns.OneStatusRow | src/sqlhealthwatch/storage/repository.py:205-212 | at most one status row per worker; a worker ended well exactly when an ok row says so |
| TierRuns.FailureRowExactly | src/sqlhealthwatch/runner.py:189-200 | after any history a worker has left a failure row exactly when it attached to a run and its attempt to record the failure got through |
| TierRuns.PassesAreSerial | src/sqlhealthwatch/runner.py:106-122 | once a worker is there for a server, every other worker of its tier and server has finished, and takes no step in any continuation |
| TierRuns.ResultsConserved | src/sqlhealthwatch/runner.py:69-79 | the stored counts of a finished run: ok is the number of workers that ended well, ok + failed the number of selected servers, and all workers are done |
| TierAlerts.CooldownHolds | src/sqlhealthwatch/alerting/router.py:88-130 | in every reachable state with the cooldown on, for each fingerprint and tier whose lookups were answered and deliveries logged, whatever failed elsewhere: sends from different decisions are the cooldown apart by stored stamp, and more than the cooldown less half a second apart by clock |
| TierAlerts.JudgedExactly | src/sqlhealthwatch/alerting/router.py:88-98 | from any state, whatever happens between a worker's answered lookup and its judgement: it goes on to send exactly when every delivered row of the fingerprint that was in the log at the lookup, of whichever tier, is the cooldown old by then, and gives up exactly otherwise |
| TierAlerts.SentAndLogged | src/sqlhealthwatch/alerting/router.py:120-139 | a try on a channel counts as a send exactly when it is delivered; its row has that outcome and the stamp of the moment it is logged, and a failed one leaves every cooldown as it was |
| TierAlerts.NeverStuck | src/sqlhealthwatch/alerting/router.py:88-139 | a worker that has looked can always judge or leave it, one that may send can always send, log and end, and an unfinished one can fail between any two alerts |
| TierAlerts.WithoutCooldown | src/sqlhealthwatch/alerting/router.py:88-98 | with no cooldown configured every alert passes, whatever the log holds and whatever happens in between |
| TierAlerts.FaultsExactly | src/sqlhealthwatch/alerting/router.py:91-139 | the only faults that count against the bounds are a failed lookup and a delivered alert whose row is not stored, and nothing clears them |
| TierAlerts.OnePerTier | src/sqlhealthwatch/alerting/router.py:88-130 | a window of stored stamps shorter than the cooldown holds deliveries of at most one decision per tier for a fingerprint |
| TierAlerts.AtMostTwoInAll | src/sqlhealthwatch/storage/repository.py:328-335 | and of at most two decisions over both tiers |
| TierAlerts.OnePerTierByClock | src/sqlhealthwatch/alerting/router.py:88-130 | by the clock, whether logged yet or not: a window half a second short of the cooldown holds sends of at most one decision per tier |
| TierAlerts.AtMostTwoByClock | src/sqlhealthwatch/alerting/router.py:88-130 | and of at most two decisions over both tiers |
| TierAlerts.CooldownByClock | src/sqlhealthwatch/alerting/router.py:88-130 | in every such state a later decision of the tier sends no earlier than the cooldown after the stored stamp, so the whole cooldown after the send whenever the stamp is no earlier than it |
| TierAlerts.LookupSees | src/sqlhealthwatch/storage/repository.py:328-335 | a lookup accounts for every send its tier has made for the fingerprint, though other workers are between send and log |
| TierAlerts.AlertsKept | src/sqlhealthwatch/alerting/router.py:109-139 | each single action keeps the alert invariants |
| TierWitnesses.BothTiersSend | src/sqlhealthwatch/alerting/router.py:88-130 | a history in which both tiers deliver the same finding at the same moment: two is reached |
| TierWitnesses.TieMisattributes | src/sqlhealthwatch/runner.py:212-218 | a history in which a worker attaches to another run started in the same second |
| TierWitnesses.FailureUnrecorded | src/sqlhealthwatch/runner.py:189-200 | a history in which a run counts a failed server and no status row says so, though the database takes every row it can |
| TierWitnesses.SendsCanBeCloser | src/sqlhealthwatch/alerting/router.py:88-130 | a history without faults in which one tier sends a finding twice less than the cooldown apart |
| Fingerprints.FingerprintNamesServer | src/sqlhealthwatch/analyze/thresholds.py:44-48 | the server can be read off a fingerprint exactly when its name has no bar and at most 200 characters |
| Fingerprints.SameFingerprintExactly | src/sqlhealthwatch/analyze/thresholds.py:44-48 | findings that fit and have no bar outside the item share a fingerprint exactly when server, category, metric and item all agree |
| AlertRouter.Router.Decide | src/sqlhealthwatch/alerting/router.py:66-105 | a finding is sent exactly when it is pageable, not silenced and not found cooling by a lookup that answered; its channels are then the enabled ones among those routed for its severity, in order, none left out and each once per place; and each of the six reasons is given exactly when it is the reason |
| AlertRouter.Router.InCooldown | src/sqlhealthwatch/alerting/router.py:88-98 | the lookup answers exactly when the cooldown is on, there is a repository and the network lets it; then the result is whether the newest delivered row is younger than the cooldown, and otherwise the alert passes |
| AlertRouter.Router.SendAll | src/sqlhealthwatch/alerting/router.py:120-129 | every channel of the decision is tried once, in order, whatever the others did; each try is delivered and logged exactly as the network has it |
| AlertRouter.Router.Record | src/sqlhealthwatch/alerting/router.py:132-139 | the row is stored exactly when there is a repository, the server is known and the insert does not fail, with the time of the insert |
| AlertRouter.Router.Dispatch | src/sqlhealthwatch/alerting/router.py:109-130 | one decision per finding in order, each right for the log as the attempts before it left it and for the time it was made; the attempts are exactly those the decisions call for, and the delivered count and failed channels are theirs; a fingerprint nobody delivered keeps its cooldown state |
| AlertRouter.DispatchInTurn | src/sqlhealthwatch/runner.py:327-327 | dispatch after dispatch, each with a new router over the shared log, whatever tier or server: each is served so over the log the earlier ones left; and for each fingerprint whose lookups answer and whose deliveries are logged, all deliveries keep the cooldown from one another and from those in the log before |
| AlertRouter.StaysSpaced | src/sqlhealthwatch/alerting/router.py:88-98 | an attempt after a passed check keeps every delivery of another decision, its own router's or an earlier one's, the cooldown apart |
| AlertRouter.SpacedTogether | src/sqlhealthwatch/alerting/router.py:88-98 | deliveries spaced after what the log held, by a router that found the earlier ones there, are spaced together with them |
| AlertRouter.OnlyDeliveriesMatter | src/sqlhealthwatch/storage/repository.py:328-335 | attempts that all fail for a fingerprint leave its last alert time as it was |
| AlertLog.ApartByCooldown | src/sqlhealthwatch/alerting/router.py:98-98 | a passed check puts the stored stamps the whole cooldown apart; the sends too when the first stamp is no earlier than its send, and otherwise more than the cooldown less half a second |
| AlertLog.ClockSpacingExactly | src/sqlhealthwatch/alerting/router.py:98-98 | checks keep the whole cooldown by the clock from an earlier send exactly when the newest delivered stamp is no earlier than that send |
| AlertLog.DeliverySpacingExactly | src/sqlhealthwatch/storage/repository.py:248-253 | for one delivery, exactly when its stamp did not round to before its send |
| AlertLog.StampCoversSendExactly | src/sqlhealthwatch/storage/schema.sql:332-339 | which is when the row is logged in the second half of a second, or in a second that begins no earlier than the send |
| AlertLog.CooledDown | src/sqlhealthwatch/storage/repository.py:328-335 | the cooldown check passes exactly when every delivered row of the fingerprint is at least the cooldown old |
| AlertLog.LastAlertIsNewest | src/sqlhealthwatch/storage/repository.py:328-335 | the last alert time is the newest delivered row's stamp, or none when there is no such row |
| DeadlockIngest.Repository.Ingest | src/sqlhealthwatch/runner.py:267-289 | a run's pass over the deadlocks leaves the state the run specification gives |
| DeadlockIngest.Repository.Fetch | src/sqlhealthwatch/collectors/deadlocks.py:57-71 | a readable file target yields exactly its events newer than the watermark, oldest first and whatever the ring buffer holds; the ring buffer likewise when the file fails; nothing when both do |
| DeadlockIngest.FetchedBetween | sql/deadlocks.sql:16-16 | everything fetched is newer than the watermark and no newer than the next one |
| DeadlockIngest.Repository.Write | src/sqlhealthwatch/storage/repository.py:216-240 | the frame in batches up to the first row that fails; the exact rows stored, result and error, for every batch size |
| DeadlockIngest.Transform | src/sqlhealthwatch/collectors/deadlocks.py:73-94 | the frame is exactly the events whose dedup key has not come before, in order |
| DeadlockIngest.DedupedKeys | src/sqlhealthwatch/collectors/deadlocks.py:94-94 | dropping duplicates keeps exactly the keys read, each once |
| DeadlockIngest.KeysDistinguish | src/sqlhealthwatch/collectors/deadlocks.py:167-170 | events share a dedup key exactly when they agree in time, victim and resources |
| DeadlockIngest.AtMostOnce | src/sqlhealthwatch/storage/schema.sql:270-271 | after any history, with any failures and any event times, no key is stored twice |
| DeadlockIngest.NothingEverRefused | sql/deadlocks.sql:16-16 | with event times in whole milliseconds, the unique index has refused nothing and all rows are at or below the watermark |
| DeadlockIngest.WatermarkAdvances | src/sqlhealthwatch/storage/repository.py:266-277 | a non-empty read whose watermark is stored moves it strictly forward, to the newest event read |
| DeadlockIngest.ExactlyOnce | src/sqlhealthwatch/runner.py:267-289 | when every run that reads something sets the watermark and writes, exactly the keys read are stored, each once |
| DeadlockIngest.SafeExactly | src/sqlhealthwatch/runner.py:267-289 | one run loses no event exactly when it reads nothing, or its watermark is not stored, or it writes its whole frame and has read again what an earlier run left pending |
| DeadlockIngest.HistoryLosslessExactly | src/sqlhealthwatch/runner.py:267-289 | a whole history loses no event exactly when every run of it is of that kind |
| DeadlockIngest.LostForever | src/sqlhealthwatch/collectors/deadlocks.py:57-61 | an event read, passed by the watermark and not stored is never stored by any later run |
| DeadlockIngest.DryRunLoses | src/sqlhealthwatch/runner.py:285-287 | the event of a dry run is lost, whatever runs follow |
| DeadlockIngest.StillReadExactly | src/sqlhealthwatch/collectors/deadlocks.py:57-61 | an event can be read by some later run exactly when it is newer than the watermark |
| DeadlockIngest.FallbackPassesExactly | src/sqlhealthwatch/collectors/deadlocks.py:62-71 | after any history, a run on the ring buffer passes by no event of the unreadable file target exactly when the ring buffer holds all of those between the two watermarks |
| DeadlockIngest.FallbackMisses | src/sqlhealthwatch/collectors/deadlocks.py:62-71 | an older event the ring buffer has dropped, which no later run can read |
| DeadlockIngest.RefusedExactly | src/sqlhealthwatch/storage/schema.sql:270-271 | the unique index turns a row of a frame away exactly when the connection lasts to a row whose key is stored |
| DeadlockIngest.MillisNearest | src/sqlhealthwatch/storage/schema.sql:274-279 | the watermark column holds the nearest whole millisecond, and exactly the whole ones unchanged |
| DeadlockIngest.FinerTimesAreRefused | src/sqlhealthwatch/storage/schema.sql:274-279 | an event read twice is refused by the unique index the second time exactly when its time is rounded down by the watermark column |
| RunnerLoops.FanOut | src/sqlhealthwatch/runner.py:130-147 | one entry per completed future: its worker's own result, or a failed one with the error for an exception nobody caught; the ok count is the number of ok entries and ok + failed the number of servers |
| RunnerLoops.OneEntryEach | src/sqlhealthwatch/runner.py:140-147 | the entries are exactly those of the selected servers, each from its own worker's outcome |
| RunnerLoops.OrderIrrelevant | src/sqlhealthwatch/runner.py:140-147 | completion order changes neither the entries nor the counts |
| RunnerLoops.RunCollectors | src/sqlhealthwatch/runner.py:237-271 | which collectors give a frame and what is listed as skipped; the pass fails exactly when, within the turns taken, io_disk gives rows and the previous sample fails, or deadlocks gives rows and the watermark fails |
| RunnerLoops.FramedOrSkipped | src/sqlhealthwatch/runner.py:242-262 | every collector ends in frames or in skipped; twice in skipped exactly when it had its turn in vain and the budget ran out later |
| LeastSquares.SlopeMissingExactly | src/sqlhealthwatch/analyze/derive.py:137-155 | no slope exactly when fewer than two usable points, or all at one instant |
| LeastSquares.NoSlopeExactly | src/sqlhealthwatch/analyze/derive.py:137-155 | no slope exactly when no two complete points differ in time |
| LeastSquares.SlopeIsOptimal | src/sqlhealthwatch/analyze/derive.py:137-155 | the fitted line has the least sum of squared residuals of all lines, and is the only one that has it |
| LeastSquares.BestLine | src/sqlhealthwatch/analyze/derive.py:137-155 | the same over the stored points themselves: the slope in MB per day of 86400 seconds, with its start, has the least sum of squared errors, and no other line has it |
| LeastSquares.SlopeWithinRates | src/sqlhealthwatch/analyze/derive.py:137-155 | the slope lies within any bounds on all pairwise growth rates |
| LeastSquares.SlopeIgnoresOrder | src/sqlhealthwatch/analyze/derive.py:137-155 | permuting the points does not change the slope |
| LeastSquares.SlopeIgnoresOrigin | src/sqlhealthwatch/analyze/derive.py:143-149 | shifting all times does not change the slope |
| LeastSquares.OneDayApart | src/sqlhealthwatch/analyze/derive.py:143-155 | two readings a day of 86400 seconds apart have their difference as slope |
| Projection.NeverGrowingNeverFills | src/sqlhealthwatch/analyze/derive.py:158-172 | a series that never gains has a slope of at most zero and no projection |
| Projection.ProjectionMeaning | src/sqlhealthwatch/analyze/derive.py:158-172 | when there is a projection and when an error; it is zero once full, and otherwise the rate times the days is the headroom, to 0.05 day |
| Projection.CapacityNeverWorsens | src/sqlhealthwatch/analyze/derive.py:158-172 | a larger positive capacity never lowers the projection and never raises the finding's severity, through zero headroom and rounding |
| Projection.LinearGrowthProjection | src/sqlhealthwatch/analyze/derive.py:158-172 | on linear growth not yet full the projection is within 0.05 day of the true fill time |
| Projection.LineHasItsOwnSlope | src/sqlhealthwatch/analyze/derive.py:137-155 | points on a line are fitted with that line's rate |
| Projection.DaysToFullFindings | src/sqlhealthwatch/analyze/thresholds.py:351-370 | one finding for each series projected to fill within the threshold, in order and none else, with the series' key, the projection and the threshold: critical exactly when at most half the threshold, else a warning; or the error of a series that cannot be projected |
| Projection.ReportedExactly | src/sqlhealthwatch/analyze/thresholds.py:351-370 | a series is reported exactly when it is projected to fill within the threshold |
| Counters.Conservation | src/sqlhealthwatch/analyze/derive.py:42-52 | a counter's reading and what resets wiped add up to all work done |
| Counters.DeltaIsWorkMinusWiped | src/sqlhealthwatch/analyze/derive.py:42-52 | the reported delta is the work of the window less what was wiped in it, and unknown exactly when that is negative |
| Counters.DeltaNeverExceedsWork | src/sqlhealthwatch/analyze/derive.py:42-52 | a delta is between zero and the true work, equal to it exactly when nothing was wiped |
| Counters.DeltasNeverExceedWork | src/sqlhealthwatch/analyze/derive.py:42-52 | over any sequence of samples the deltas never add up to more than the work |
| Counters.DeltasTelescope | src/sqlhealthwatch/analyze/derive.py:42-52 | without a restart they add up to last minus first, all the work |
| Counters.ThroughputNeverExceedsWork | src/sqlhealthwatch/analyze/derive.py:68-73 | throughput times time is at most the bytes moved, to rounding |
| Counters.MergedLatencyLiesBetween | src/sqlhealthwatch/analyze/derive.py:55-65 | the latency of two merged windows lies between theirs, before and after rounding |
| Counters.LatencyMeaning | src/sqlhealthwatch/analyze/derive.py:55-65 | when a latency exists, and that it accounts for the stall to half a hundredth per operation |
| Counters.ThroughputMeaning | src/sqlhealthwatch/analyze/derive.py:68-73 | when a throughput exists, and that it accounts for the bytes to half a hundredth per second |
| Rounding.RoundMonotone | src/sqlhealthwatch/analyze/derive.py:65-65 | rounding keeps order |
| Rounding.RoundError | src/sqlhealthwatch/analyze/derive.py:65-65 | rounding moves a value by at most half a unit of the last digit |
| Rounding.RoundIntNearest | src/sqlhealthwatch/analyze/derive.py:172-172 | no integer is nearer, and an equally near one is odd |
| Rounding.RoundFixesMultiples | src/sqlhealthwatch/analyze/derive.py:65-65 | a value already at that precision comes back unchanged |
| Severities.HigherNeverQuieter | src/sqlhealthwatch/analyze/thresholds.py:514-522 | a higher value is never a quieter severity, whatever the thresholds and their order |
| Severities.SeverityExactly | src/sqlhealthwatch/analyze/thresholds.py:514-522 | critical exactly from crit up, a warning exactly from warn up where not critical |
| SustainedCpu.RecentValuesAreNewest | src/sqlhealthwatch/storage/repository.py:281-288 | for samples with distinct times, listed in any order, the history is the values of the server's newest rows, oldest first |
| SustainedCpu.HistoryExactly | src/sqlhealthwatch/storage/repository.py:281-288 | the history is the table's rows of that server and no other, each as often as it is stored, oldest first |
| SustainedCpu.AverageExistsExactly | src/sqlhealthwatch/analyze/derive.py:175-184 | an average exists exactly when the newest N stored rows exist and none is null |
| SustainedCpu.AverageTimesCount | src/sqlhealthwatch/analyze/derive.py:175-184 | N times the average is the total of the N newest stored values, to N half hundredths |
| SustainedCpu.AverageIgnoresOrder | src/sqlhealthwatch/analyze/derive.py:175-184 | reordering the values of the window changes nothing |
| SustainedCpu.OnlyNewestMatter | src/sqlhealthwatch/runner.py:305-314 | nothing older and no other server affects the severity |
| SustainedCpu.AverageLiesWithin | src/sqlhealthwatch/analyze/derive.py:175-184 | the average lies between the smallest and largest of those values, rounded |
| SustainedCpu.HigherHistoryNoQuieter | src/sqlhealthwatch/analyze/thresholds.py:130-148 | a pointwise higher stored history never gives a lower severity |
| SustainedCpu.CpuSeverityExactly | src/sqlhealthwatch/analyze/thresholds.py:130-148 | critical exactly from the crit threshold up, a warning exactly from warn up to there; no samples, no finding |
| IoIntervals.DeriveIoIntervals | src/sqlhealthwatch/analyze/derive.py:76-123 | a fresh frame with only the four interval columns changed: in each row they are the rates against the first previous row with its database and file, over the newest collection times' distance; a row without one, or without time passed, is unchanged; both inputs untouched |
| IoIntervals.ColumnsMean | src/sqlhealthwatch/analyze/derive.py:97-123 | each interval column accounts for its own two counters, and is unset exactly where they give no rate |
| IoIntervals.NeverNegative | src/sqlhealthwatch/analyze/derive.py:76-123 | no interval is negative, restarts and clock jumps included |
| IoIntervals.OnlyFirstMatchCounts | src/sqlhealthwatch/analyze/derive.py:97-123 | later duplicates and other files have no influence |
| ThresholdHeap.Thresholds.Effective | src/sqlhealthwatch/config.py:208-214 | on the heap: every value read from the result, the defaults untouched, the exact contents of every override block afterwards, and no shared block written but those of categories the defaults lack |
| ThresholdHeap.Thresholds.NothingWrittenExactly | src/sqlhealthwatch/config.py:217-223 | there are no such blocks exactly when the defaults have every overridden category; then a call writes nothing shared |
| ThresholdHeap.DeepMerge | src/sqlhealthwatch/config.py:217-223 | one merge: which block each category ends up with and what every block then holds |
| ThresholdHeap.Thresholds.MergeLayer | src/sqlhealthwatch/config.py:211-213 | merging one more layer keeps the heap in step with the specification |
| ThresholdResolution.Precedence | src/sqlhealthwatch/config.py:198-214 | for override lists without repeats, server over last tag over earlier tag over default, at every category and key |
| ThresholdResolution.PrecedenceExactly | src/sqlhealthwatch/config.py:208-223 | for any list, precedence holds exactly unless the adopted override comes again and sets a key another one set |
| ThresholdResolution.LoadedTagsAre | src/sqlhealthwatch/config.py:316-325 | a loaded server's tags are the fleet's and then its own, each where it first comes, in that order |
| ThresholdResolution.LoadedServerPrecedence | src/sqlhealthwatch/config.py:316-325 | the tags the loader folds together have no repeats, so every loaded server gets that precedence |
| ThresholdResolution.OwnTagOverFleet | src/sqlhealthwatch/config.py:316-325 | a key that one of the server's own tags sets, which is no fleet tag, is decided by the server itself or such a tag, never by a fleet tag |
| ThresholdResolution.WhoDecides | src/sqlhealthwatch/config.py:198-214 | a loaded server gets its own override's value if that sets the key, else that of the last of its tags whose override does, else the default |
| ThresholdResolution.OverridesKeptExactly | src/sqlhealthwatch/config.py:208-223 | a call leaves the overrides as they were exactly when, in each category the defaults lack, later overrides agree with the first |
| ThresholdResolution.CoveredNeverChanges | src/sqlhealthwatch/config.py:208-223 | with every overridden category in the defaults, no sequence of calls changes any override |
| ThresholdResolution.CallingAgainAgrees | src/sqlhealthwatch/config.py:208-223 | a second call for the same server gives the same values, whatever the first left behind |
| ThresholdResolution.OneCallSpoilsAnother | src/sqlhealthwatch/config.py:217-223 | a configuration where one server's call changes what another server gets |
| ThresholdResolution.RepeatedTagLoses | src/sqlhealthwatch/config.py:217-223 | a repeated tag that does not win again |
| ChainDepth.ComputeDepth | src/sqlhealthwatch/collectors/blocking.py:57-66 | the loop ends on every map, cycles included, with one more than the blocked sessions on the walk, capped at 51 |
| ChainDepth.HeadIsOne | src/sqlhealthwatch/collectors/blocking.py:57-66 | depth one exactly for a session that waits for nobody: without an entry, or with one that is None or 0 |
| ChainDepth.OneDeeperThanBlocker | src/sqlhealthwatch/collectors/blocking.py:57-66 | below the cap, one deeper than the blocker exactly when not on a cycle, and equal exactly when on one |
| ChainDepth.RingDepth | src/sqlhealthwatch/collectors/blocking.py:57-66 | every member of a ring of n has depth n + 1, up to the cap |
| ChainDepth.LastRowWins | src/sqlhealthwatch/collectors/blocking.py:36-40 | a session has an entry exactly when a row is for it, and of several rows the last one counts |
| ChainDepth.ChainDepths | src/sqlhealthwatch/collectors/blocking.py:42-53 | one depth per row, all over the same pair map |
| Retention.PruneByBatchedDelete | src/sqlhealthwatch/storage/retention.py:81-96 | the batched loop keeps exactly the rows no older than so many days of 86400 seconds at its last statement, returns the number removed, and takes n/b + 1 statements; a failed one has removed only older rows |
| Retention.SecondPrune | src/sqlhealthwatch/storage/retention.py:81-96 | a second prune is one prune at the later cutoff, and removes nothing exactly when nothing expired in between |
| Retention.Prune | src/sqlhealthwatch/storage/retention.py:51-78 | every table is either pruned whole and counted, or recorded as an error, and that exactly when its last statement failed or the batch size is negative; one table's failure leaves the others' outcome |
| GoBatches.SplitBatches | src/sqlhealthwatch/storage/repository.py:346-360 | the loop computes the specification's batches |
| GoBatches.LinesExactly | src/sqlhealthwatch/storage/repository.py:346-360 | where a line ends, and that "\r\n" ends it once |
| GoBatches.GoLinesExactly | src/sqlhealthwatch/storage/repository.py:346-360 | a GO line is the two letters in either case with only whitespace around them |
| GoBatches.BatchesAreSegments | src/sqlhealthwatch/storage/repository.py:346-360 | the batches are the segments between GO lines, joined and trimmed at both ends, blank ones dropped; segments and GO lines together are the script's lines |
| GoBatches.EveryOutputIsBatch | src/sqlhealthwatch/storage/repository.py:346-360 | every batch is non-blank, trimmed and free of GO lines |
| GoBatches.StatementsSurvive | src/sqlhealthwatch/storage/repository.py:346-360 | the lines of all batches are the script's non-blank, non-GO lines, in order, none twice |
| GoBatches.SplitUndoesJoinExactly | src/sqlhealthwatch/storage/repository.py:346-360 | splitting gives back joined batches exactly when each is non-blank, trimmed, free of GO lines and broken by newlines only |
| GoBatches.SplittingIsStable | src/sqlhealthwatch/storage/repository.py:346-360 | joining and splitting the output again changes nothing |
| BracketQuoting.QuotedNameReadsBack | src/sqlhealthwatch/connection.py:204-206 | a quoted name followed by any text reads back as that name and that text, exactly unless the text starts with a closing bracket |
| BracketQuoting.UseNamesThatDatabase | src/sqlhealthwatch/connection.py:109-109 | the USE batch names the database and leaves the caller's SQL whole, for every name and every SQL |
| BracketQuoting.OnlyQuotedNamesAreRead | src/sqlhealthwatch/connection.py:204-206 | whatever the reader accepts is a quoted name and what followed it |
| BracketQuoting.QuotingIsInjective | src/sqlhealthwatch/connection.py:204-206 | different names have different quoted forms |

## Left out

- Connections, retries, timeouts, SQL execution and the XML of deadlock graphs: foreign calls, which here succeed or fail by choice. A deadlock event comes with its time, victim and resources already read off the graph, and the dedup key is those three parts rather than their text and hash.
- Delivery by email, Teams and Slack, message texts, logging, the command line, secrets, YAML and model validation, Parquet export.
- Routing per tag and the quiet-hours clock: `AlertRouter` is given the routed channels and whether it is quiet.
- Floating point: numbers are exact reals, so NaN, infinities and rounding inside sums are absent; a missing cell is `None`, and pandas' matching of missing keys is not modelled beyond equality.
- Loss of the session that holds the tier lock, and a process killed between a send and its log row: the lock lasts until released, and a send is followed by its log attempt.
- The bound on pool size: workers start in any order and number. That the scheduler does bring a run to its end is not modelled, only that it can.
- Concurrent inserts while pruning, and pruning of `alert_log` or `runs` while the protocol runs: `TierProtocol` has no prune action, and `Retention` no insert.
- Partition switching, export folder deletion and index maintenance.
- Threshold values deeper than scalars inside a category: a block maps keys to scalars.
- Collectors other than io_disk, blocking and deadlocks, and the remaining threshold rules: one-branch field mappings and comparisons.
- `evaluate`'s sort and the findings table: no other property depends on the order.
- A fingerprint's server is taken to be a name without a bar and of at most 200 characters; `Fingerprints.FingerprintNamesServer` says exactly when that reads back.
- TierAlerts.CooldownHolds: assumes that the tier's lookups for the fingerprint answered and its deliveries were logged, because the code lets an alert through when a lookup fails and swallows a failed log.
- DeadlockIngest.NothingEverRefused: assumes event times in whole milliseconds, because the watermark column holds no more; `DeadlockIngest.FinerTimesAreRefused` shows why.
- Calls of `effective` at the same time that both write a shared dictionary: `ThresholdHeap` has one call after another.
- The order of deadlock events of one instant, which the query leaves open: they keep the order of the source.
- SustainedCpu.RecentValuesAreNewest: assumes that no two samples of a server carry one stored time, because the query may then return them either way round.
- DeadlockIngest.ExactlyOnce: assumes runs that write, because the watermark is stored before the write; `DeadlockIngest.HistoryLosslessExactly` has the exact condition.
- GoBatches.StatementsSurvive: compares lines without their indentation; `GoBatches.BatchesAreSegments` says what happens to whole lines.
