# Verification of the omegahive board, gateway, operations and accounting

A Dafny project that models the core of omegahive and proves properties of it. Check it with
`dafny verify dfyconfig.toml`.

**The board and its gateway.** A run is a log of events. One legality table holds a guard and an effect per rule.
The gateway reads guards on the *derived* board, where readiness has been worked out; the fold applies effects to
the *raw* one. `Legality` is the table, the whitelist, worker ownership and the emit authority (written out as in
`gateway/policy.py`); `Reducer` is the fold as functions; `Board` is the fold as it runs, on mutable `TaskState` and
`Board` objects, proved to compute those functions. `Runs` defines the gate-built logs, those whose every event
passed the gate against the prefix before it, and shows what the gate decides on the raw board. `Rulebook` writes that
decision out as a table, operation by operation, with the exact meaning of every refusal code, and `Readiness` says
dependency by dependency when a join is ready; both are stated without the guards and thresholds they are proved of.
On all gate-built logs: `History` (every field of the board is what its last writer wrote), `Ownership`, `Provenance`,
`Reviews`, `Joins`, `Queries`. `Gateway` is the write path as a class owning the log. `Emitters` is any number of
concurrent emitters as a state machine over lookup, lock, fold and gate, commit, re-select and crash, whose every
reachable log is gate-built; `Refusals` accounts for the refusals such runs record and for what retries get, and
`Contents` for where each row came from.

**The operation service.** `Operations` is one call of `execute`: command loop, outcome and replay. `Concurrency` is
any interleaving of calls, crashes and workers over per-task locks, one launch lock and exclusively created receipts;
`Locks` shows that one call at a time is at a task and that no lock is left behind, `Receipts` that what a receipt says
is what ran, and `Calls` that a call on its own is one `execute`.

**Gateway-call accounting.** `Recorder` counts calls begun, pending and filed. `Accounting` attributes them to legs,
pairs them with receipts, totals each leg, rolls a record up, and puts the four together for one sitting.

**Smaller pieces.** `Timeline` pages a task's events backwards while the log grows. `Paths` and `Deployment` nest and
flatten the deployment policy and resolve it. `Ranking` ranks bundles with ties left tied. `Collections` and
`Wrappers` hold what is common.

## How the code is read

- A row of the board is a value with its fields grouped by when they change (`Spec`, `Trail`, `Blocker`); the mutable
  `TaskState` keeps them flat, as the source does. A payload is a datatype holding the validated fields that a guard
  or an effect reads.
- An event type with no rule is an `Op.Fact`; a status override or plan revision the table has no row for keeps its own
  constructor and has no rule either. Both meet the default deny unless whitelisted.
- The store is a sequence, a key lookup, a lock held from its taking to the end of the transaction, a unique index on
  (actor id, key), and a sequence number assigned under the lock that may skip. A reader under the lock sees every
  commit before it.
- Times are integers. Monetary amounts are integers in some fixed unit.
- A command list is taken to be non-empty where a merge's last command is looked at, as every check's list is.

## Where the code and its own documentation disagree

The code is modelled; each point is a proved statement.

- `legality.py:18` says that every guard-passing event yields a board delta. It does in the stamps
  (`Provenance.AcceptedIsNeverInert`, with one exception: cancelling an empty plan), and beyond the stamps exactly when
  it does not repeat what is already so (`Provenance.InertExactlyOnRepeats`, `Provenance.SecondEscalationIsInert`).
- `gateway.py:105-106` says that a committed op is never re-gated. The lookup runs before the lock, so a retry that races
  its original is gated again and can be refused (`Refusals.RacingRetryIsGatedAgain`,
  `Refusals.RacingRegistrationIsRefused`); one whose lookup comes later is not (`Refusals.LateRetryGetsTheOriginal`).
- Two refusal records of one signature can lie closer than the coalescing window. It happens only to an emit that
  states a logical time ahead of the clock of a store that keeps its own time (`Refusals.DistanceKeptIffInTime`), and
  then on real runs (`Refusals.AheadOfTimeOnARun`, `Refusals.RecordsOneApart`). The port states no time on such a store
  (`port.py:184`), so only a direct caller of the gateway can do it.
- `receipts.py:594-598` says that coverage excuses a call only on positive evidence. A call that was never
  answered is filed with the status 0, a number outside 2xx, and is excused (`Accounting.GapsAreAllReportedIff`,
  `Accounting.AbandonedCallReadsComplete`).
- A recorder whose file cannot be written lists a call twice in memory, and the list in memory is what a batch
  reconciles (`Recorder.OneFailedWriteListsACallTwice`); the file itself is conserved.
- A pruned task that had been rejected is no longer listed as ready and can still be assigned
  (`Queries.PrunedAfterRejectionIsAssignable`, `Queries.RejectedThenPrunedIsReached`).

## Model

| member | source | states |
|---|---|---|
| Reducer.DeriveIdempotent | src/omegahive/board/reducer.py:49-62 | a second readiness pass changes nothing |
| Reducer.DeriveChangesOnlyWaiting | src/omegahive/board/reducer.py:49-62 | the pass moves only created and reopened tasks, only to ready, changes nothing else but its diagnostic, and makes no task both ready and unsatisfiable |
| Reducer.ReplayIgnoresOrder | src/omegahive/board/reducer.py:27-34 | any permutation of events with distinct sequence numbers folds to the same board |
| Reducer.ReplayIgnoresFacts | src/omegahive/board/reducer.py:27-34 | logs with the same ruled events fold to the same board, whatever facts, notes and refusal records lie between |
| Board.TaskState.constructor | src/omegahive/board/legality.py:226-233 | a new task's row, with the provenance of its creation |
| Board.TaskState.Stamp | src/omegahive/board/state.py:78-81 | provenance alone changes |
| Board.TaskState.Change | src/omegahive/board/state.py:84-87 | provenance and the staleness clock change |
| Board.TaskState.Apply | src/omegahive/board/legality.py:226-413 | the in-place effect of an event on the task it names, as a function of the row before |
| Board.Board.Apply | src/omegahive/board/reducer.py:31-34 | one turn of the effect loop on the mutable board is the effect function, the plan-wide cancel included |
| Board.Board.DerivePass | src/omegahive/board/reducer.py:49-62 | the in-place readiness loop, in any order, is the pointwise pass against the board before it, whose outcome `Readiness.ReadyExactly` spells out |
| Board.Fold | src/omegahive/board/reducer.py:27-64 | the whole reducer, sort, loop and pass, computes `Folded` on a fresh board; `History` and `Readiness` say what each field of that is |
| Readiness.ReadyExactly | src/omegahive/board/reducer.py:49-62 | the pass exactly: a task is shown ready where it was, or where it is new or reopened, unowned, unpruned, and some k of its dependencies (all of them, where it states no positive k) are on the board, unpruned and done; the diagnostic exactly where no such choice could ever be |
| Readiness.WaitsForAll | src/omegahive/board/state.py:70-75 | a waiting task without a positive `ready_when` is ready exactly when every dependency is on the board, unpruned and done |
| Runs.AcceptedPermits | src/omegahive/board/legality.py:226-445 | gate and fold agree: an event accepted on the derived board passes its effect's own from-state check on the raw one |
| Rulebook.GateTable | src/omegahive/board/legality.py:226-501 | every operation against every actor: accepted exactly where the role may ask for it, a worker owns what it works on, and the raw board allows it, each written out by role, status, owner, verdict, roster and dependencies |
| Rulebook.CodesSay | src/omegahive/gateway/gateway.py:52-68 | each of the six refusal codes, exactly, in the same terms |
| Rulebook.OnlyOwnersWork | src/omegahive/board/legality.py:473-501 | a worker's accept, progress, block, unblock, result or failure is accepted only on a known task that this worker owns |
| Rulebook.NeverForOwnership | src/omegahive/board/legality.py:470-501 | a worker's rejection depends on the task being assigned and on nothing else, and its reports and questions are always accepted |
| Runs.GateReads | src/omegahive/board/reducer.py:49-62 | what the gate reads of a derived row besides a readiness is the raw row |
| Runs.EffectRow | src/omegahive/board/legality.py:226-413 | an event touches the row it names, a plan cancel every row, and no other row moves |
| Runs.ExistsAfterCreation | src/omegahive/board/legality.py:226-233 | a task is on the board exactly when a creation of it is in the log |
| Runs.GateBuiltExtend | src/omegahive/gateway/gateway.py:114-126 | appending what the gate accepts keeps a log gate-built |
| History.FieldsAreLastWritten | src/omegahive/board/legality.py:226-413 | on every gate-built log, status, owner, review, result and blocker are what the latest event to write them wrote, whatever the state was |
| History.MarksAreLastWritten | src/omegahive/board/legality.py:226-407 | the same of priority, pruning, escalation and what creation fixed |
| History.SetsAreWhatWasAdded | src/omegahive/board/legality.py:236-277 | dependencies and tried workers are exactly those added by events since the latest creation |
| History.RosterIsWhoRegistered | src/omegahive/board/legality.py:252-253 | the roster is exactly the workers registered in the log |
| Ownership.OwnershipInvariant | src/omegahive/board/legality.py:252-381 | on every gate-built log: working, reviewed and failed tasks are owned, waiting ones are not, owners were tried, the tried are registered, a blocker is set only on a blocked or plan-cancelled task |
| Ownership.DerivedOwnership | src/omegahive/board/reducer.py:49-64 | the same on the board a reader is given, where no ready task is unsatisfiable |
| Ownership.AbandonmentIsFinal | src/omegahive/board/legality.py:163-185 | after an accepted abandon, by a human, the task stays cancelled and unowned until created anew |
| Ownership.UntriedSinceCreation | src/omegahive/board/legality.py:256-277 | no worker has been tried on a task not assigned since its creation |
| Ownership.FirstAssignmentRespectsJoin | src/omegahive/board/legality.py:92-104 | a task's first assignment since creation is accepted only where k of its dependencies (all, where it states no k) are on the board, unpruned and done, it is not pruned, and the worker is registered |
| Provenance.ProvenanceIsExact | src/omegahive/board/state.py:78-87 | provenance is that of the latest event to name the task or cancel the plan, the clock that of the latest to set its status |
| Provenance.TouchExists | src/omegahive/board/state.py:78-87 | every task on the board has such events |
| Provenance.AcceptedIsNeverInert | src/omegahive/board/legality.py:226-413 | an accepted ruled event leaves the board as it was only when it cancels an empty plan |
| Provenance.InertExactlyOnRepeats | src/omegahive/board/legality.py:226-413 | stamps aside, it changes nothing exactly where it repeats what is so |
| Provenance.SecondEscalationIsInert | src/omegahive/board/legality.py:394-399 | such repeats are reachable |
| Reviews.PassedMeansCurrentPass | src/omegahive/board/legality.py:321-381 | the board calls a review passed exactly when the log holds a pass nothing has superseded |
| Reviews.DoneOnlyBehindCurrentReview | src/omegahive/board/legality.py:146-160 | every accepted close stands behind such a pass, and never closes a cancelled task |
| Reviews.DoneStep | src/omegahive/board/legality.py:321-358 | a task is done after an event exactly when that event closes it, or it was done and the event neither re-posts, re-creates nor cancels the plan |
| Reviews.DoneHasReview | src/omegahive/board/legality.py:350-358 | every done task has an accepted close behind a current pass, with nothing since to unsettle it |
| Joins.PruningNeverBreaksJoin | src/omegahive/board/legality.py:188-221 | a join with at least k live dependencies keeps at least k while unpruned, whatever is pruned or moved, until it is restated |
| Joins.LiveDepsOnlyShrink | src/omegahive/board/reducer.py:56-58 | with dependencies settled, no live dependency appears |
| Joins.SatisfiabilityIsSettled | src/omegahive/board/state.py:70-75 | so an unpruned join is satisfiable for good or unsatisfiable for good |
| Joins.ReadinessLostExactly | src/omegahive/board/reducer.py:49-62 | an event that does not name a ready task ends its readiness exactly by a plan cancel, or by undoing a done dependency its derived readiness cannot spare |
| Joins.ReadinessIsStable | src/omegahive/board/reducer.py:49-62 | along any other accepted suffix a ready task stays ready |
| Joins.RejectedIsReadyWhateverItsJoin | src/omegahive/board/legality.py:280-288 | a rejected task is ready at once, its join unlooked at |
| Queries.ReadyIffAssignable | src/omegahive/board/state.py:54-60 | a task is listed ready exactly when its assignment would be accepted and it is not pruned |
| Queries.PrunedAfterRejectionIsAssignable | src/omegahive/board/legality.py:92-104 | a rejected, then pruned task is unlisted and still assignable |
| Queries.RejectedThenPrunedIsReached | src/omegahive/board/legality.py:92-104 | a gate-built log of five events that ends so |
| Queries.CloseIffCurrentPass | src/omegahive/board/state.py:62-67 | a close is accepted exactly behind a current pass on an uncancelled task; a task awaits its close exactly when it is in review behind a current pass, and can then be closed |
| Gateway.FindByKey | src/omegahive/events/log.py:278-285 | finds a row of this actor and key, or there is none |
| Gateway.FindRecent | src/omegahive/events/log.py:287-301 | finds the latest record of the signature no older than the bound, or all are older |
| Gateway.Gateway.Check | src/omegahive/gateway/gateway.py:70-77 | the gate's answer on the run so far, none exactly where the table of `Rulebook` allows the operation, and nothing appended |
| Gateway.Gateway.Emit | src/omegahive/gateway/gateway.py:79-137 | one emit: a known key returns its row and writes nothing; a fresh operation the gate lets through appends the row asked for, with its actor, operation, task, key, next number and time; a refusal is recorded under its code; a stated time on a store that keeps its own faults; log sound before and after |
| Gateway.Gateway.RecordRejection | src/omegahive/gateway/gateway.py:152-182 | the latest record of the same refusal within the window is counted once more, every other row as it was; where there is none, a first record of the gateway's is appended |
| Gateway.DecisionSays | src/omegahive/gateway/gateway.py:114-126 | decided on any log: accepted exactly where the gate has no objection and no time is misplaced, and then as the row asked for; refused under the gate's code and recorded |
| Gateway.RefusalIsRecorded | src/omegahive/gateway/gateway.py:152-182 | what a refusal leaves on any log, by what rows it holds within the window of the stated time or the clock |
| Gateway.RowTsIs | src/omegahive/events/log.py:57-69 | a store that keeps its own time gives the earliest one past every row and not before its clock; any other takes the caller's or the clock's |
| Gateway.DecisionKeepsLog | src/omegahive/gateway/gateway.py:114-126 | whatever is decided on a sound log, writing it leaves one: gate-built, unique keys, growing numbers |
| Gateway.BumpKeepsLog | src/omegahive/events/log.py:303-305 | a bump keeps the log sound, changes no fold, and leaves every row alike but for one count that grows |
| Emitters.RunKeepsInv | src/omegahive/gateway/gateway.py:95-137 | the invariant of every interleaving, crashes included: what the lock holder wrote was decided on the log as it still stands |
| Emitters.EveryRunGated | src/omegahive/gateway/gateway.py:107-126 | in every reachable log each event passed the gate against exactly its prefix, and no actor's key occurs twice |
| Emitters.OneRowPerKey | src/omegahive/gateway/gateway.py:127-137 | two accepted emits of one actor and key were given one row |
| Emitters.ReselectStep | src/omegahive/gateway/gateway.py:127-136 | the re-select after a violated index always finds the row it lost to |
| Emitters.LogOnlyGrows | src/omegahive/events/log.py:175-234 | a committed row stays where it is through every later step; only refusal counts change, and only grow |
| Contents.EveryRowWasAskedFor | src/omegahive/gateway/gateway.py:79-182 | on every run each row is what some emitter asked for and was given, with its actor, operation, task and key, or the gateway's own record of a refusal some emitter was told of |
| Contents.EveryAnswerHasItsRow | src/omegahive/gateway/gateway.py:79-182 | a refused emitter finds its refusal in the log, and one accepted without a key its own row |
| Contents.CountsAreRefusedEmitters | src/omegahive/gateway/gateway.py:152-182 | while nobody posts refusal records itself, the records' counts add up to the number of emitters that were refused |
| Refusals.RefusalsAreConserved | src/omegahive/gateway/gateway.py:152-182 | refused emits are records plus bumps, up to records a gateway-role caller posts itself, and the records' counts add up to them |
| Refusals.RecordsKeepTheirDistance | src/omegahive/gateway/gateway.py:158-166 | on every run of clean callers, records of one signature lie more than the window apart |
| Refusals.RecordsAreBounded | src/omegahive/gateway/gateway.py:158-166 | so a span of logical time holds at most one per window and a bit |
| Refusals.DistanceKeptIffInTime | src/omegahive/gateway/gateway.py:139-150 | a refusal keeps every spaced log spaced exactly when its emit states no time ahead of a server-time store's clock |
| Refusals.AheadOfTimeOnARun | src/omegahive/gateway/gateway.py:152-182 | the failing side is reached by a run: any emit refused on an empty board, made once plainly and once ahead of the clock, leaves two records too close |
| Refusals.RecordsOneApart | src/omegahive/gateway/gateway.py:152-182 | one such run, with a window of 5 and the records at 100 and 101 |
| Refusals.LateRetryGetsTheOriginal | src/omegahive/gateway/gateway.py:107-110 | a retry whose lookup follows the commit gets the committed row, ungated |
| Refusals.LateRetryIsNeverGated | src/omegahive/gateway/gateway.py:105-119 | once its key is committed, an emit begun later is never gated, whatever the rest of the run: it gets the committed row or crashes |
| Refusals.RacingRetryIsGatedAgain | src/omegahive/gateway/gateway.py:107-137 | a retry that raced past its lookup gets the original exactly when the gate takes the operation twice |
| Refusals.RacingRegistrationIsRefused | src/omegahive/gateway/gateway.py:107-119 | a run in which the race is lost: same request and key, one accepted, one refused |
| Refusals.OthersFinished | src/omegahive/gateway/gateway.py:95-137 | what an emit has returned never changes |
| Refusals.SoloRunIsEmit | src/omegahive/gateway/gateway.py:79-126 | alone, an emitter's steps are one `Gateway.Emit`: same log, same answer |
| Operations.RanOfStops | src/omegahive/operations.py:174-178 | the commands run are a prefix, all successful but perhaps the last, and stop short only at a failure |
| Operations.DoneMeansDone | src/omegahive/operations.py:171-201 | a receipt says done only where every exit was tolerated and all commands ran, or the last nudge went unconfirmed and is noted; a merge, only where it was seen merged |
| Operations.OutcomeIsExact | src/omegahive/operations.py:171-201 | the one receipt a call can end on, written from the world: refused exactly where the check does not permit; done exactly where every exit is 0 (or a nudge's 3) and a merge looked at is merged; failed otherwise; exits, merge and note exact |
| Operations.DoneIffAllExitZero | src/omegahive/operations.py:188-201 | a close, abandon or launch is done exactly when it is permitted and every command of its check and its list exits 0 |
| Operations.OperationService.RunCommands | src/omegahive/operations.py:174-178 | the command loop runs exactly those |
| Operations.OperationService.Execute | src/omegahive/operations.py:142-209 | one call: a taken id is replayed, or refused where its request differs, with nothing changed; a free id is bound to the receipt that reports what happened |
| Concurrency.RunKeepsInv | src/omegahive/operations.py:153-209 | the invariant of every interleaving of calls, crashes and worker exits |
| Concurrency.OperationsRunAtMostOnce | src/omegahive/operations.py:162-178 | all commands ever run for one id were run by the one creator of its receipt |
| Concurrency.ReceiptsRecordWhatRan | src/omegahive/operations.py:172-208 | over all interleavings, a settled receipt lists exactly the commands run for its id, in order; an id without a receipt has had none |
| Concurrency.RepliesAreHonest | src/omegahive/operations.py:233-241 | a replayed or refused caller ran nothing; a replay is of its own request, a refusal of another's |
| Concurrency.ReceiptsAreFinal | src/omegahive/operations.py:162-209 | a receipt never goes, never changes its request, and never changes at all once settled |
| Receipts.ReceiptsTellTheTruth | src/omegahive/operations.py:180-208 | on every run a receipt says done exactly where all it lists ended well and no merge was seen unmerged, and failed where something did not |
| Receipts.EveryListedCommandRan | src/omegahive/operations.py:172-208 | on every run a caller answered for having run has run every listed command, or stopped at one that did not exit 0; a done close, abandon or launch has run every one |
| Locks.OneCallPerTask | src/omegahive/operations.py:153-209 | on every run no two calls are at one task at once |
| Locks.NoLockIsLeft | src/omegahive/operations.py:243-257 | on every run every lock is held by a caller still at work; one that was answered or died holds none |
| Concurrency.LiveWorkersNeverExceedCap | src/omegahive/operations.py:444-449 | live workers never exceed the cap, or what there was to begin with |
| Concurrency.OneLaunchAtATime | src/omegahive/operations.py:251-257 | the launch lock admits one launch between count and answer |
| Calls.LoopRuns | src/omegahive/operations.py:174-178 | among the steps, the command loop runs the commands up to the first failure |
| Calls.SoloCallIsExecute | src/omegahive/operations.py:142-209 | alone, a call's steps are one `OperationService.Execute`: same receipts, same answer, every lock let go |
| Recorder.ReceiptRecorder.NextSeq | taskbench/receipts.py:458-462 | a fresh number, begun and pending; filed and pending together stay the numbers begun |
| Recorder.ReceiptRecorder.Record | taskbench/receipts.py:464-470 | the call is filed and no longer pending; a failed write lists it and leaves it pending |
| Recorder.ReceiptRecorder.Abandon | taskbench/receipts.py:472-484 | an unfinished call is filed under its number, with status 0 and nothing known but why it stopped |
| Recorder.ReceiptRecorder.Proxy | taskbench/receipts.py:275-286 | a proxied call is filed once, as it was seen where it completed and as unfinished where not, and leaves nothing in flight while the file can be written |
| Recorder.ReceiptRecorder.Drained | taskbench/receipts.py:440-448 | drained, the file holds every call begun exactly once; the list in memory does exactly when no write failed |
| Recorder.OneFailedWriteListsACallTwice | taskbench/receipts.py:464-484 | one failed write: one call begun, filed once, listed twice |
| Accounting.PlaceIsFirstWindow | taskbench/qualify_batch.py:53-63 | a call is placed exactly when some window's start and finish, both included, enclose its start, and then in the leg of the first such window |
| Accounting.Attribute | taskbench/qualify_batch.py:41-64 | the loops fill exactly the legs that have calls: a call is in a leg exactly when its first enclosing window is that leg's, and left over exactly when it has none |
| Accounting.PlacedIsFirstWindow | taskbench/qualify_batch.py:53-63 | and each as often as it was observed |
| Accounting.PlacedConcat | taskbench/qualify_batch.py:53-63 | and in the order observed |
| Accounting.CallsAreConserved | taskbench/qualify_batch.py:41-64 | for any weight: legs plus leftovers weigh what was observed |
| Accounting.CoverageIsAPartition | taskbench/receipts.py:584-629 | receipted, missing and refused split the rows, and the counts add up |
| Accounting.CoverageCounts | taskbench/receipts.py:600-614 | each count read off the rows: all, those with a receipt, those without whose status is unknown or 2xx, those without whose status is outside 2xx |
| Accounting.GapsAreAllReportedIff | taskbench/receipts.py:600-608 | every call without a receipt and without a known refusal is reported as a gap exactly when none of the calls without a receipt shows the status 0 |
| Accounting.TotalsAreAllOrNothing | taskbench/qualify_batch.py:216-232 | a field is totalled exactly when there is a receipt and every receipt has it, and the total is its value over all rows |
| Accounting.Reconcile | taskbench/receipts.py:632-736 | one row per call, with its status, and the receipt fetched for it where it has a non-empty id and the budget lasts |
| Accounting.AddLeg | taskbench/qualify_batch.py:298-308 | each key adds its number, and a leg with receipts lacking one is a floor |
| Accounting.RollUp | taskbench/qualify_batch.py:249-335 | every key summed over every readable file; the bare cells named; complete exactly when no cell is bare and every file is accounted for |
| Accounting.CompleteIffEveryCallSettled | taskbench/qualify_batch.py:277-324 | complete exactly when every cell has files, all readable, and every call in them has a full receipt or was refused |
| Accounting.CompleteOmitsNothing | taskbench/qualify_batch.py:298-324 | a complete record's sums are its receipted values over all calls |
| Accounting.EverySumIsAFloor | taskbench/qualify_batch.py:298-308 | complete or not, a sum is a floor |
| Accounting.CompleteSumsAreWhatWasBilled | taskbench/qualify_batch.py:104-160 | end to end: the sum plus what unattributed calls cost is what all observed calls cost |
| Accounting.CallsObservedPlusLeftOver | taskbench/qualify_batch.py:120-146 | end to end: calls observed in the roll-up plus unattributed ones are the calls recorded |
| Accounting.Sitting | taskbench/qualify_batch.py:104-160 | a whole sitting, capture to roll-up: observed plus left over are the calls, and where it says complete, what was billed for all of them is its sum plus the cost of the left-over ones |
| Accounting.AbandonedCallReadsComplete | taskbench/receipts.py:478-484 | a call never answered reads as settled, and a record of it alone as complete |
| Accounting.AbsentTotalsReadAccounted | taskbench/qualify_batch.py:296-313 | a file without a totals block reads as accounted for |
| Timeline.TimelineIsExact | src/omegahive/api/service.py:187-191 | the timeline is exactly the task's numbered events, newest first |
| Timeline.TimelineIgnoresOrder | src/omegahive/api/service.py:187-191 | in whatever order a view lists its events, the timeline is the same |
| Timeline.PageCounts | src/omegahive/api/service.py:192-204 | a page never exceeds 200 or its limit, and one that promises more holds exactly its limit, clamped to 1 and 200; the total is the task's events, wherever the page was cut |
| Timeline.LaterTimeline | src/omegahive/api/service.py:187-197 | a later log puts new events in front of the timeline and leaves the rest as it was, refusals counted since apart |
| Timeline.PageIsSlice | src/omegahive/api/service.py:187-204 | the page after a cursor is the next slice of the timeline first seen, whatever was appended or counted since, and truncated exactly when something is left |
| Timeline.WalkReadsTheTimeline | src/omegahive/api/service.py:166-227 | a walk reads the timeline without gap or repeat over a growing log, is truncated while anything is left, and ends after exactly ceiling(n / clamped limit) pages |
| Timeline.WalkDuringARun | src/omegahive/api/service.py:166-227 | the same while any number of emitters go on writing, coalescing and crashing |
| Paths.JoinSplit | src/omegahive/deployment.py:208 | joining inverts splitting |
| Paths.UnderIffPartsExtend | src/omegahive/deployment.py:208 | a name plus a dot starts another exactly when its parts start the other's |
| Deployment.Nest | src/omegahive/deployment.py:205-213 | the loop builds the nested form, or faults |
| Deployment.PutThenAt | src/omegahive/deployment.py:209-212 | setting a path sets that value, drops what was under it and moves nothing else |
| Deployment.PutFaultsIff | src/omegahive/deployment.py:210-212 | it faults exactly when a proper parent already holds a value |
| Deployment.Flatten | src/omegahive/deployment.py:167-175 | the loop yields every leaf under its dotted name, later names winning |
| Deployment.FlatIsLeaves | src/omegahive/deployment.py:167-175 | a name is in the flat form exactly when its path holds a value, and with that value |
| Deployment.NestedHolds | src/omegahive/deployment.py:205-213 | prefix-free fields nest without a fault and hold each value at its path, and no other |
| Deployment.RoundTripIffPrefixFree | src/omegahive/deployment.py:167-213 | flattening the nested form gives the fields back exactly when no field lies under another |
| Deployment.Lookup | src/omegahive/deployment.py:229-233 | the loop finds the value at a field's path |
| Deployment.Load | src/omegahive/deployment.py:182-202 | the file's fields, each known and checked, or an error naming one that is not |
| Deployment.Layer | src/omegahive/deployment.py:219-223 | environment over file over default, field by field |
| Deployment.Resolve | src/omegahive/deployment.py:216-226 | looking any field up in the result gives what its variable says, else the file, else the default, checked, the scripts root derived where it has none; an error exactly where a file field or a set variable is bad |
| Deployment.DefaultsArePrefixFree | src/omegahive/deployment.py:142-164 | this deployment's own fields are distinct and prefix-free |
| Ranking.SortedIsAPermutation | taskbench/matrix.py:378-381 | sorting keeps every bundle and orders by final, first-shot and label |
| Ranking.OrderSays | taskbench/matrix.py:378-381 | the order, counted out: more final greens first, then more first-shot ones, then the label |
| Ranking.LexIsAlphabetical | taskbench/matrix.py:379-381 | labels compare by their first difference, a beginning first |
| Ranking.PlaceCounts | taskbench/matrix.py:382-389 | a place is one more than the bundles with more final greens, or as many and more first-shot ones; ties are the bundles with as many of both |
| Ranking.ScoreCounts | taskbench/matrix.py:120-123 | a score counts the conclusive cells that passed in the end, and at once |
| Ranking.SamePlaceIffSameScore | taskbench/matrix.py:382-389 | bundles share a place exactly when they share a score |
| Ranking.GivePlaces | taskbench/matrix.py:382-399 | the loop gives each bundle one more than the number that score strictly better |
| Ranking.Rank | taskbench/matrix.py:372-416 | the whole ranking: every field of every row counted out from the cells, ties marked exactly where another has the score, the unreachable unplaced at the end |
| Ranking.RankingIsWhole | taskbench/matrix.py:378-415 | every bundle is ranked where it was reached and listed unreachable where not, once |
| Ranking.InconclusiveIsNeverGreen | taskbench/matrix.py:120-132 | an inconclusive cell stays in the denominator and is never green |

## Left out

- Payload validation, message texts and the copy of a refused payload in its record: none bears on a decision.
- Event ids are the sequence numbers; causation, correlation, recipients and wall times are not modelled.
- The run registry and its generation token (`open_run`), savepoint nesting and reads through the port: bookkeeping
  beside the log. One run only; runs share nothing but the store.
- `Gateway.project` and what a board looks like to one role: a filter on reads.
- The order in which `ready` and `awaiting_close` list their answers: the sets are modelled.
- Refusals.RecordsKeepTheirDistance: does not cover records a gateway-role caller posts through the gateway itself, which the window never sees; `Refusals.RefusalsAreConserved` counts them.
- The steps an operation's check takes (task status, pull request, order text, seats) and how its commands are built:
  a check is a yes or no with the commands it ran itself, a command an exit status. Authorization, id syntax and
  target parsing come before the locks and are not modelled.
- A receipt read while it is being replaced, and a launch command that outlives the service that ran it. A crash leaves
  a receipt running for good, as in the source.
- Concurrency.LiveWorkersNeverExceedCap: assumes that only launches seat workers and each seats at most one, while its caller holds its locks.
- How the proxy streams, decodes and parses; how a receipt is polled for: a call is begun, then recorded or abandoned,
  and a fetch is a function of the call.
- Accounting.RollUp: the lists of upstreams, models and presets and the explanatory notes are not modelled; a record is the sequence of its cells in sorted order.
- Accounting.Sitting: is over a record whose cells hold no receipts of earlier sittings, and takes a call never answered to have been billed nothing, as every refusal; `Accounting.AbandonedCallReadsComplete` shows what becomes of one that was billed.
- Accounting.CompleteIffEveryCallSettled: is about files whose totals were written from their calls, as reconciling and re-asking do; `Accounting.AbsentTotalsReadAccounted` shows what the roll-up makes of one that has none.
- The task's projected fields beside its events: the page is modelled, not the rest of the response.
- Deployment.Nest: the inner walk down the parents is modelled on values, so the aliasing of nested dictionaries is not captured; the order of keys is.
- Deployment.Resolve: takes the field checks as a function of field and value; which file error is named where several exist is left open.
- Ranking.Rank: scores are pairs of numbers rather than the text of a fraction.
- The screen, disagreements, pulse and spend parts of the matrix, and the rest of the benchmark: single-branch
  predicates and I/O.
