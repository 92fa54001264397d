# A verified model of the durable workflow engine

This project models the parts of the repository whose correctness depends on more than one
function, and proves what they are for. Every module follows one component of the source; a
method stands for code that changes state step by step and is proved against a function on
values, and the lemmas are about those functions. Check the whole project with
`dafny verify dfyconfig.toml`.

**The engine as a transaction protocol.** A document of steps is submitted as a run; workers
claim an execution, resolve what the step reads, dispatch it, and complete the step or fail the
run. `Runs` says what each whole transaction does to a run's rows (executions, run status, node
outputs, checkpoints) and lists the transactions that can commit, `Engine` proves the loops over
the tables against it, `RunInvariants`, `RunHistories`, `RunLeases` and `RunProgress` are about every
history of committed transactions. `Interleaving` models the same transactions statement by statement:
each keeps its own pending writes, sees the committed rows overlaid with them, holds row locks
until it ends, and may abort anywhere. `InterleavingProofs` shows that whatever the interleaving,
the committed rows go through a history of whole transactions, so every theorem about histories
holds of every committed state; `SerialRuns` shows that nothing is lost either: every history is what
some interleaving commits. `WithoutRunLock` runs the same statements without the lock on the
run's row and reaches a state in which a wake-up is lost.

**From a document to a plan.** `SemanticValidation` is the compiler's walk with string scope
paths; `LexicalScope` defines lexical scope without paths and proves the check exact;
`ScopeErrors` says which duplicate and unresolved ids it reports; `AcceptedPlans` shows what the check buys the engine.

**From a binding to an argument vector.** `Descriptors` is the registry's validation, `Dispatch`
the worker's rendering, `AgentArgv` the agent's side in Go, `ArgvPipeline` the agreement of the
three and the round trip through a parser that takes every token starting with `-` for a flag.

**The rest.** `Dedup` is the agent's in-flight deduplication under concurrent handlers,
`MapForEach` the dynamic fan-out and ordered join, `Placement` the access log, the promotion and
demotion tests, the rolling mean and the LRU eviction, `SessionLog` the rewindable log.
`Ordering` and `Wrappers` are shared helpers.

Facts about the code that the proofs brought out:

- Marking a run failed has no guard against a run that is already done. It is safe: a run that
  is done has nothing left to claim, so no failing transaction can reach it
  (`RunHistories.DoneIsForever`).
- A leader that returns after its entry was given up settles whatever entry holds its key at that
  moment (`Dedup.LateLeaderAnswersForSuccessor`). Followers all receive their own leader's answer
  exactly when every sweep, by the ticker or by a request, finds all running leaders within the
  maximal lease of their grants (`Dedup.OwnResultsIffOnTime`); a leader that returns late before any
  sweep saw it harms nobody. Two subprocesses of one key run at once exactly from a request for a key
  whose subprocess still runs while the table has no entry for it or one the sweep is about to remove
  (`Dedup.OverlapStartsIff`, `Dedup.NeverOverlapsIff`).
- The worker accepts a relative path for a heavy parameter read from standard input; the agent
  refuses it (`ArgvPipeline.StdinOpensIffAbsolute`).
- The agent checks the names of light arguments and not their values, so the worker's check of
  the values is what keeps the vector readable (`ArgvPipeline.AcceptableDecodes`). That check also
  rejects every negative integer (`Dispatch.IntegerIsSafeIff`).
- A run never hangs for good unless its document has a cycle or a missing id: from every reachable
  state in which it has not failed it can still be finished, whichever workers have died
  (`RunProgress.CanFinishIff`, `RunLeases.ClaimableIff`). Without such a trap the recursive
  evaluation gives every step a value (`RunProgress.EvaluatesIffGrounded`).
- A map over an empty source waits for children forever (`MapForEach.EmptyMapStaysParked`,
  `MapForEach.EmptyMapIsReachable`). A map can still finish exactly when its source is an array with
  at least one item (`MapForEach.CanFinishIff`).
- The `ORDER BY` of the join is not needed: each output goes to its own position
  (`MapForEach.Database.CollectOutputs`).
- A back-dated access can break the hysteresis between promotion and demotion
  (`Placement.BackdatedAccessBreaksHysteresis`). It holds for a hash that qualified at a time exactly
  when the last access recorded for it is no older than the promotion window at that time
  (`Placement.HysteresisIff`); recording accesses in the order of their times is one way to get that.
- The comment inside `Resolve` in `agent/internal/dedup/dedup.go` expects a missing entry only
  when nobody attached before. There also is none whenever a leader given up by the sweeper returns
  before anyone else asks for the key; its late result is then kept as a new entry that answers
  later callers (`Dedup.LeaderSettles`, `Dedup.LateLeaderLeavesEntry`).

## Model

| member | source | states |
|---|---|---|
| `Engine.AssertPlainSteps` | src/engine/interpreter.ts:28-42 | Accepts exactly the documents of plain steps with distinct ids, in order; otherwise names the first offending node and why. |
| `Engine.CoreRepos.SubmitRun` | src/engine/interpreter.ts:60-98 | A new run is created exactly for an accepted document, with every step queued or blocked by whether it waits for anything, and done at once when there are no steps; on refusal no table changes. |
| `Engine.CoreRepos.PromoteBlockedToQueued` | src/core/repositories/queries/executions.queries.ts:79-87 | Only a blocked row becomes queued; any other row and every other run stay as they are. |
| `Engine.CoreRepos.PromoteReadyNodes` | src/engine/interpreter.ts:108-122 | The loop over the steps amounts to promoting, at once, every blocked step all of whose dependencies are in the completed set. |
| `RunInvariants.RepeatedCompletionIsNoOp` | src/core/repositories/queries/run-node-outputs.queries.ts:4-12 | Completing a node changes nothing at all exactly when its output is already recorded, whatever output the repetition brings. |
| `Engine.CoreRepos.CompleteStep` | src/engine/interpreter.ts:161-186 | The statements together are the whole completion transaction of module Runs, on one run, leaving other runs alone. |
| `Engine.CoreRepos.FailRun` | src/apps/worker/worker-loop.ts:166-177 | The statements together are the whole failing transaction of module Runs: the run, the claimed row and everything not yet claimed fail, running and done rows of other nodes stay. |
| `Engine.CoreRepos.FetchStepReads` | src/engine/interpreter.ts:128-144 | Fetching the dependencies' outputs one by one resolves the reads exactly when each is a literal, a request parameter or names a recorded output, and each key then holds the literal, the parameter, or the value recorded under that name by that step. |
| `Engine.CoreRepos.GetRunResult` | src/engine/interpreter.ts:199-224 | It fails exactly for a missing run, or a done run one of whose outputs is bound to something other than a literal, a request parameter or one of its own steps; a run that is not done reports its status; a done one reports for each output key the value of its last binding, against the outputs fetched one by one. |
| `Engine.CoreRepos.ClaimExecution` | src/core/database/schema.sql:130-177 | Hands out some row that is queued, or running with a lease that ended before now, making it running for this worker and lease with one more attempt; hands out nothing exactly when no run has such a row. |
| `Engine.CoreRepos.RunOnce` | src/apps/worker/worker-loop.ts:42-164 | A cycle that did work committed exactly one whole transaction, with the outcome of dispatching the step's resolved reads, and left fewer unfinished executions; one that did not left every table as it was, the claim included; when something is claimable and dispatch never asks for a retry, the cycle does work. |
| `Engine.CoreRepos.RunWorkerLoop` | src/apps/worker/worker-loop.ts:187-199 | The tables go through the cycles one after the other, each committing one whole transaction or leaving everything as it was, and the latter only if nothing could be claimed or the dispatch may ask for a retry; the working ones are bounded by the executions they finish. |
| `Engine.CycleIsEvent` | src/apps/worker/worker-loop.ts:88-153 | Settling a claimed step as its dispatch came out is one of the transactions of the model, for every outcome that is not retryable. |
| `RunInvariants.SubmittedInv` | src/engine/interpreter.ts:60-98 | A submitted run already has no lost wake-up, dependency safety, matching outputs and a contained failure. |
| `RunInvariants.CompleteStepRows` | src/engine/interpreter.ts:161-186 | Completing a node marks its row done, records its output and checkpoint if absent, queues exactly the blocked rows whose dependencies are now all recorded, finishes an unfailed run exactly with its last output, and changes nothing else. |
| `RunInvariants.FailRunRows` | src/core/repositories/queries/executions.queries.ts:51-65 | Failing a run fails the run, the claimed row and exactly the rows that are blocked, queued or waiting, and changes nothing else. |
| `RunInvariants.CompletedFromInv` | src/engine/interpreter.ts:146-186 | Completing a node that was once claimed keeps all of them, also for a late or repeated completion and on a failed run. |
| `RunInvariants.FailedFromInv` | src/core/repositories/queries/executions.queries.ts:51-65 | Failing a run through a claimed, unfinished node keeps all of them and leaves nothing blocked, queued or waiting. |
| `RunInvariants.ApplyInv` | src/engine/interpreter.ts:146-186 | Every transaction that can commit keeps the invariant of a run. |
| `RunHistories.HistoryExtends` | src/core/repositories/queries/run-node-outputs.queries.ts:4-12 | Along any history recorded outputs never change, and failed and done are final. |
| `RunHistories.FailureIsForever` | src/core/repositories/queries/workflow-runs.queries.ts:24-35 | Once failed a run stays failed, and none of its executions is ever again blocked, queued or waiting, however late other claims and completions commit. |
| `RunHistories.DoneIsForever` | src/core/repositories/queries/workflow-runs.queries.ts:31-41 | A done run keeps its status and its complete output table, although marking a run failed has no guard. |
| `RunHistories.ClaimedReadsResolve` | src/engine/interpreter.ts:124-144 | A step that could be claimed never raises the missing-output error, and resolving from its fetched dependencies equals resolving from the whole output table. |
| `RunHistories.StepReadsAreRecordedValues` | src/engine/interpreter.ts:128-144 | On any tables, a step's reads resolve exactly when every binding is supported and names a recorded output, and hold the recorded values. |
| `RunHistories.StartedHasItsReads` | src/engine/dependency-graph.ts:16-18 | A step that is queued, running or done, or was ever claimed, has an output recorded for every id in its dependsOn and every step it reads from. |
| `RunHistories.BlockedIffWaiting` | src/engine/interpreter.ts:108-122 | In a run that has not failed a step is blocked exactly while an id in its dependsOn or a step it reads from has no output. |
| `RunHistories.OutputsAreEvaluations` | src/engine/interpreter.ts:146-186 | With deterministic services every recorded output, whatever the history, is the recursive evaluation of its node over the dependency graph. |
| `RunHistories.DoneRunIsEvaluation` | src/engine/interpreter.ts:161-186 | The output table of a done run is the evaluation of every node of the document. |
| `RunHistories.DoneResultIsMeaning` | src/engine/interpreter.ts:197-224 | The result of every done run is the document's outputs resolved against the recursive evaluation of its steps. |
| `RunHistories.ScheduleIndependence` | src/engine/interpreter.ts:197-224 | Two histories of one document and input report the same result once done, whatever the claim order, workers, rolled-back attempts, expired leases and repetitions. |
| `RunLeases.LeaseExcludes` | src/core/database/schema.sql:130-177 | Of two consecutive committed claims of a node the second comes after the first one's lease has expired, and a node claimed and settled in one transaction is never claimed again. |
| `RunLeases.AttemptsCountClaims` | src/core/database/schema.sql:165-172 | A row's attempts are exactly the claims of it that committed, over any history. |
| `RunLeases.ClaimableIff` | src/core/database/schema.sql:130-177 | In every reachable state a row can be claimed exactly when it is queued, or running and the lease of the last committed claim of it ended before now; the same for a claim that completes or fails in one transaction. |
| `RunLeases.AbandonedClaimIsTakenOver` | src/core/database/schema.sql:134-140 | A claim that was committed and never settled can be taken over exactly at the times after its lease's end. |
| `Engine.WorkerRunIsDeterministic` | src/apps/worker/worker-loop.ts:88-136 | The committed cycles of a pool of workers, each cycle with a dispatch of its own and rolled-back cycles left out, are a history that is deterministic in the sense of schedule independence and ends in the same state. |
| `Engine.WorkersAgree` | src/apps/worker/worker-loop.ts:37-164 | Any two pools of workers whose dispatches answer, when they answer, as one service does report the same result for a document and input once done, whatever single cycles fail or retry on the way; it is the document's meaning. |
| `RunProgress.GroundedIffNotTrapped` | src/engine/dependency-graph.ts:16-18 | A step's dependency chains all end inside the document exactly when it is neither on nor downstream of a cycle or a missing id. |
| `RunProgress.RunningRunHasWork` | src/engine/interpreter.ts:100-122 | While a run of a closed acyclic document is running, some execution is queued or running. |
| `RunProgress.RunningRunCanBeClaimed` | src/core/database/schema.sql:130-177 | While a run of a closed acyclic document is running, some execution can be claimed at every time from some moment on. |
| `RunProgress.CanFinishIff` | src/engine/interpreter.ts:85-186 | From any reachable state some continuation of the history finishes the run exactly when it has not failed and no step of its document is on or downstream of a cycle or a missing id. |
| `RunProgress.EvaluatesIffGrounded` | src/engine/dependency-graph.ts:16-18 | With supported reads, the recursive evaluation gives a step a value within a depth exactly when its dependency chains end inside the document within that depth. |
| `RunProgress.IdleRunCompletedGrounded` | src/engine/interpreter.ts:85-121 | An unfailed run of any document with nothing queued or running has completed exactly its grounded steps. |
| `RunProgress.OnlyGroundedStepsRun` | src/engine/interpreter.ts:113-121 | A step that was ever queued, running, done or claimed is grounded. |
| `RunProgress.TrappedRunIsNeverDone` | src/engine/interpreter.ts:85-121 | A document with a step on or downstream of a cycle or a dangling id is never done, and that step is never queued or claimed. |
| `RunProgress.WorkerEventDecreases` | src/apps/worker/worker-loop.ts:42-164 | A worker's transaction finishes its node; one that completes finishes no other. |
| `RunProgress.WorkerCyclesBounded` | src/apps/worker/worker-loop.ts:184-199 | A run of n steps takes at most n working cycles, and exactly n when it is done and no cycle failed it. |
| `InterleavingProofs.InterleavingInv` | src/engine/interpreter.ts:146-160 | Every reachable state of the interleaved system keeps the run invariant, the locks exclusive, and each open transaction seeing its own transaction partly executed on the rows committed now. |
| `InterleavingProofs.CommitIsEvent` | src/engine/interpreter.ts:161-186 | What a transaction commits, whatever committed while it was open, is one whole transaction applied to the rows committed at that moment. |
| `InterleavingProofs.InterleavingRefinesHistory` | src/engine/interpreter.ts:146-186 | The committed rows of every interleaving, with aborts anywhere, go through a history of whole transactions. |
| `InterleavingProofs.NoLostWakeups` | src/engine/interpreter.ts:150-160 | In no committed state of any interleaving is a node blocked with all its dependencies recorded, or an unfailed run with every output not done. |
| `InterleavingProofs.FailureContainedUnderInterleaving` | src/apps/worker/worker-loop.ts:166-177 | After a failing transaction committed, every later committed state is failed with nothing blocked, queued or waiting, even with claims and completions in flight. |
| `InterleavingProofs.InterleavedDoneRunIsEvaluation` | src/apps/worker/worker-loop.ts:137-145 | Under every interleaving a done run's node outputs and its result are the evaluation of its document. |
| `SerialRuns.HistoryIsInterleaving` | src/engine/interpreter.ts:146-186 | Every history of whole transactions is committed, state by state, by some interleaving of their statements. |
| `SerialRuns.SameRowsCommitted` | src/engine/interpreter.ts:146-186 | The rows that interleavings with aborts can commit are exactly those that whole transactions one after another can commit. |
| `WithoutRunLock.LostWakeupWithoutLock` | src/core/repositories/queries/workflow-runs.queries.ts:12-19 | With the run lock left out of every statement, the run of any document with two independent steps and one that waits for both can reach a committed state with no transaction open, both outputs recorded, the waiting step blocked and nothing left to claim. |
| `Bindings.ResolutionReadsReferencedValuesOnly` | src/engine/bindings.ts:22-63 | Two sources of inputs and outputs that agree on every referenced parameter and every referenced pair of step and output name resolve alike, to the same record or the same error. |
| `Bindings.RecordedReferencesResolve` | src/engine/bindings.ts:37-45 | With every reference recorded, resolution can fail only on an unsupported binding kind. |
| `Bindings.ResolvesIff` | src/engine/bindings.ts:22-63 | Resolution succeeds exactly when every binding is a literal, a request parameter or names a recorded output; then each key holds, for its last field, the literal, the parameter, or the value recorded under that name by that step, absent ones being undefined; otherwise the first field that cannot be resolved decides the error. |
| `WorkflowSpecs.DependenciesAreWaitedFor` | src/workflow-spec/binding-refs.ts:54-58 | The ids a step waits for are exactly those in its dependsOn and those its reads mention, in the arguments of computed values and in item lookups at any depth included, each once. |
| `SemanticValidation.WalkResult.WalkNodes` | src/dsl-compiler/node-walk.ts:49-71 | The recursive walk leaves in the visitor's collections what the sequences of definitions and references of the tree say. |
| `SemanticValidation.CollectReferences` | src/dsl-compiler/semantic-validation.ts:91-150 | The walk over the whole document collects every definition with its scope path and every reference, outputs and session fallbacks included. |
| `SemanticValidation.ValidateStepReferences` | src/dsl-compiler/semantic-validation.ts:91-168 | Reports each duplicate id, then each unresolved or invisible reference, in order. |
| `SemanticValidation.IsVisible` | src/dsl-compiler/semantic-validation.ts:29-36 | A definition is visible exactly when its scope path is a prefix of the site's. |
| `LexicalScope.RecordedDefs` | src/dsl-compiler/semantic-validation.ts:77-83 | What is recorded has duplicates exactly when the document's ids are not all distinct, and keeps for each id the scope of one of its definitions. |
| `LexicalScope.CaseIsCovered` | src/dsl-compiler/node-walk.ts:56-64 | With distinct ids and keys, everything whose path starts with a case's path was defined inside that case. |
| `LexicalScope.BodyIsCovered` | src/dsl-compiler/node-walk.ts:66-70 | With distinct ids, everything whose path starts with a map body's path was defined inside that body. |
| `LexicalScope.NodeResolves` | src/dsl-compiler/node-walk.ts:49-71 | The references of a node resolve by path prefix exactly when they are lexically in scope, at any nesting. |
| `LexicalScope.ScopeCheckIsExact` | src/dsl-compiler/semantic-validation.ts:85-168 | No error is reported exactly when all ids are distinct and every id in a dependsOn and every step mentioned by a binding is a node of a list that lexically encloses it. |
| `ScopeErrors.DuplicateReportedIff` | src/dsl-compiler/semantic-validation.ts:77-96 | A duplicate is reported for exactly the ids defined more than once. |
| `ScopeErrors.FirstScopeIsKept` | src/dsl-compiler/semantic-validation.ts:77-83 | The scope kept for an id is that of its first definition. |
| `ScopeErrors.UnresolvedReportedIff` | src/dsl-compiler/semantic-validation.ts:97-168 | A reference is reported as unresolved for exactly the sites, the outputs and session fallbacks included, that reference an id defined nowhere. |
| `AcceptedPlans.AcceptedIsPlainAndClosed` | src/dsl-compiler/semantic-validation.ts:91-168 | A document of plain steps without errors is accepted by the engine, and its dependencies all name its own steps. |
| `AcceptedPlans.AcceptedIff` | src/engine/interpreter.ts:28-42 | For plain steps, that and every output reference and session fallback naming a step is also all the check demands. |
| `AcceptedPlans.AcceptedResultIsComplete` | src/engine/interpreter.ts:197-224 | The result of a done run of such a document never misses an output, and is always there when the outputs use supported bindings. |
| `AcceptedPlans.AcceptedAcyclicHasWork` | src/engine/interpreter.ts:100-122 | A running run of an accepted acyclic document has a step queued or running. |
| `AcceptedPlans.AcceptedAcyclicCanFinish` | src/engine/interpreter.ts:85-186 | From every reachable state in which it has not failed, a run of an accepted acyclic document can still be finished. |
| `MapForEach.Database.FanOut` | archive/spikes/1.8-map-foreach/src/worker.js:98-137 | Inserts one child per source item with its own failure budget, records the cardinality and parks the map; without a source array nothing commits. |
| `MapForEach.Database.ProcessStep` | archive/spikes/1.8-map-foreach/src/worker.js:139-221 | A step that owes a failure is queued again owing one less; otherwise its output is checkpointed once, it is done and its map counts it. |
| `MapForEach.Database.CountChild` | archive/spikes/1.8-map-foreach/src/worker.js:180-200 | The counter grows by one and the map is queued when it reaches the total. |
| `MapForEach.Database.CollectOutputs` | archive/spikes/1.8-map-foreach/src/worker.js:241-249 | Each child's output lands at its own position, in whatever order the children are read. |
| `MapForEach.Database.Join` | archive/spikes/1.8-map-foreach/src/worker.js:223-267 | Commits exactly when every child has a checkpoint, and then stores the outputs by position once and finishes the map. |
| `MapForEach.Database.ProcessOne` | archive/spikes/1.8-map-foreach/src/worker.js:48-92 | Claims some claimable row and commits its whole transaction, or rolls back everything, or finds nothing to claim; the invariant holds afterwards. |
| `MapForEach.ProcessInv` | archive/spikes/1.8-map-foreach/src/worker.js:69-84 | Every committed transaction keeps the counter equal to the done children, the attempts equal to what was consumed, and no row running. |
| `MapForEach.RollbackOnlyWithoutSource` | archive/spikes/1.8-map-foreach/src/worker.js:234-240 | In reachable states a claimed row rolls back only for a map without a source array; the join's missing-children error is never raised. |
| `MapForEach.CounterCountsDoneChildren` | archive/spikes/1.8-map-foreach/schema.sql:93-104 | The counter is the number of done children, and the map is queued or done after its fan-out exactly when that is all of at least one. |
| `MapForEach.RequeuedOnce` | archive/spikes/1.8-map-foreach/src/worker.js:176-201 | A parked map is put back into the queue at most once. |
| `MapForEach.WasRequeued` | archive/spikes/1.8-map-foreach/src/worker.js:176-201 | A map waiting for its join or done was put back into the queue by one committed transaction before. |
| `MapForEach.DoneMapIsOrdered` | archive/spikes/1.8-map-foreach/src/worker.js:223-267 | A done map holds at each position twice the source item of that position, under any completion order and retries. |
| `MapForEach.MapTakesExactly` | archive/spikes/1.8-map-foreach/src/worker.js:98-267 | A map over a non-empty source is done exactly when two claims of its own and one more per item than the item fails have committed, and never more. |
| `MapForEach.ChildTakesExactly` | archive/spikes/1.8-map-foreach/src/worker.js:139-221 | A child is done exactly when it was claimed once and once more for each failure its map was given for its position. |
| `MapForEach.MapCanMove` | archive/spikes/1.8-map-foreach/src/worker.js:40-92 | Until it is done one of its rows is queued, and handling that row commits. |
| `MapForEach.EmptyMapStaysParked` | archive/spikes/1.8-map-foreach/src/worker.js:98-137 | A map over an empty source is parked after its fan-out in every later state, with one claim and no result. |
| `MapForEach.EmptyMapIsReachable` | archive/spikes/1.8-map-foreach/src/worker.js:98-137 | A concrete history that submits and fans out a map over an empty source, after which no continuation finishes it. |
| `MapForEach.CanFinishIff` | archive/spikes/1.8-map-foreach/src/worker.js:98-267 | From any reachable state some continuation of the history finishes a map exactly when its source is an array with at least one item. |
| `Dedup.Store.SweepLocked` | agent/internal/dedup/dedup.go:168-191 | In whatever order the keys are visited, exactly the answered entries past their expiry and the waiting ones older than the maximal lease leave the table, the latter with the lease error. |
| `Dedup.Store.Attach` | agent/internal/dedup/dedup.go:102-130 | A caller leads a new entry exactly when its key has none, or an answered one past its expiry, or a waiting one older than the maximal lease; otherwise it follows the entry that holds the key. |
| `Dedup.Store.Resolve` | agent/internal/dedup/dedup.go:143-166 | Settles the entry that holds the key if it still waits, creating one if there is none, and leaves a settled one alone. |
| `Dedup.Store.Forward` | agent/internal/dedup/dedup.go:132-141 | A follower gets its own entry's result, also after the key has moved on, and nothing before it is set. |
| `Dedup.OneResultPerEntry` | agent/internal/dedup/dedup.go:132-191 | Whatever leaders do, a done channel is closed at most once, exactly when the result is set, and every follower of an entry sees the same result. |
| `Dedup.GrantsAreSpaced` | agent/internal/dedup/dedup.go:102-130 | Two leader grants of one key are more than min(ttl, maxLease) apart, or more than ttl without a maximal lease. |
| `Dedup.AnsweredForTtl` | agent/internal/dedup/dedup.go:143-191 | After a subprocess came back at time r and settled its key, the next caller for the key follows that answer exactly when it sweeps no later than r + ttl, and leads a new entry otherwise, whatever the ticker and other keys do. |
| `Dedup.FollowedForMaxLease` | agent/internal/dedup/dedup.go:102-130 | After a grant at time a with nothing come back, the next caller follows exactly when there is no maximal lease or it sweeps no later than a + maxLease, and leads a new entry otherwise. |
| `Dedup.NoLeaseErrorIffOnTime` | agent/internal/dedup/dedup.go:168-191 | No entry was ever given up exactly when every sweep found all running leaders within the maximal lease of their grants. |
| `Dedup.OwnResultsIffOnTime` | agent/internal/dedup/dedup.go:143-191 | Every result set is its own leader's answer exactly under that same condition. |
| `Dedup.NoOverlappingRuns` | agent/internal/server/invoke.go:44-60 | Under that condition one key never has two subprocesses running. |
| `Dedup.OverlapStartsIff` | agent/internal/dedup/dedup.go:102-130 | A step makes two subprocesses of one key overlap exactly when it is a request for a key whose subprocess still runs while the table has no entry for it or one that is expired or overdue. |
| `Dedup.NeverOverlapsIff` | agent/internal/dedup/dedup.go:102-130 | No two subprocesses of one key ever run at once exactly when no such request ever comes. |
| `Dedup.PromptLeaders` | agent/internal/server/invoke.go:44-75 | If every subprocess returns within the maximal lease of its grant, no two of one key overlap, every follower gets its own leader's answer, and none a lease error. |
| `Dedup.LeaderSettles` | agent/internal/dedup/dedup.go:143-166 | A returning leader, late or not, changes exactly the entries of its key that still wait, and adds an entry exactly when its key has none. |
| `Dedup.LateLeaderAnswersForSuccessor` | agent/internal/dedup/dedup.go:143-166 | A concrete trace with a late leader in which two subprocesses of one key run at once and the second leader's followers get the first one's answer. |
| `Dedup.LateLeaderLeavesEntry` | agent/internal/dedup/dedup.go:143-166 | A concrete trace in which a leader given up by the ticker returns to a table without its key, and its late answer is kept as a new entry and given to the next caller. |
| `Descriptors.ValidateInvocationDescriptor` | src/registry/validate.ts:84-174 | The loop appends, to the errors it was given, what the fold over the entries reports, entry by entry and then the count of stdin entries. |
| `Descriptors.NoErrorsIffWellFormed` | src/registry/validate.ts:84-174 | No error is added exactly when every entry is well formed and no two share a parameter, a positional index or standard input. |
| `Descriptors.AcceptedIsRegistered` | src/registry/validate.ts:84-174 | An accepted descriptor gives the worker, entry by entry, the submitted parameter, style, flag and index, with distinct parameters and indexes, well-formed flags and at most one stdin entry. |
| `Descriptors.FlagPatternExamples` | src/registry/constants.ts:31-40 | Names with letters of either case, digits and hyphens match the patterns; the empty name and names that start with a digit or a hyphen, hold '_', '=' or a space, or lack the two hyphens do not. |
| `Descriptors.ValidateCapability` | src/registry/validate.ts:207-257 | Accepts exactly well-formed descriptors with a known state reuse that, when it keys state by content, has entries and none positional, and warm updates only then. |
| `Dispatch.HeavyPath` | src/apps/worker/dispatch.ts:112-136 | Exactly a non-empty string that does not start with '-' and has no ".." segment is a path. |
| `Dispatch.SafePathIff` | src/apps/worker/dispatch.ts:112-136 | That is, no ".." stands between two slashes or backslashes or an end of the string and one. |
| `Dispatch.RenderHeavyBindings` | src/apps/worker/dispatch.ts:64-110 | The loop over the descriptor, stopping at the first error, is the rendering fold; the positionals are sorted by index, each at the place given by how many indexes are smaller; every data file carries the content hash exactly when state is keyed by it and it is not empty. |
| `Dispatch.TranslateArgs` | src/apps/worker/dispatch.ts:33-50 | Succeeds exactly when every light key and value is safe; then the arguments are exactly the defined keys the descriptor does not name, a text as it is, a number or boolean as printed, anything else as JSON; otherwise some offending key explains the error. |
| `Dispatch.IntegerIsSafeIff` | src/apps/worker/dispatch.ts:138-170 | Of the integers exactly those that are not negative can be the value of a light binding. |
| `Dispatch.BuildInvokeRequest` | src/apps/worker/dispatch.ts:199-217 | A request is built exactly when the heavy rendering and every light binding succeed; without a registered capability there are no heavy bindings. |
| `Dispatch.RenderRegistered` | src/apps/worker/dispatch.ts:64-110 | Under a registered descriptor rendering succeeds exactly on safe heavy values: the duplicate-index error is never raised, data files follow the descriptor, positionals their indexes. |
| `Dispatch.RenderingConserves` | src/apps/worker/dispatch.ts:33-110 | Every defined key of a safe input ends in exactly one of the arguments, the data files and the positional arguments, and each positional entry's value stands at the place given by how many indexes in use are smaller. |
| `Dispatch.StateIdReachesEveryFile` | src/apps/worker/dispatch.ts:52-102 | Without positional entries every heavy binding travels in a data file that carries the state id. |
| `AgentArgv.BuildArgs` | agent/internal/execrunner/execrunner.go:113-162 | A vector is built exactly for safe names, flags, paths and positionals, and is the arguments in some order, the flag files in order, the positionals. |
| `AgentArgv.ChooseStdin` | agent/internal/execrunner/execrunner.go:184-228 | The first stdin data file decides, and is read exactly when its path is absolute, has no ".." segment and can be opened; without one the request's own bytes are read, if there are any. |
| `AgentArgv.OpensStdinIff` | agent/internal/execrunner/execrunner.go:201-221 | A path can be opened exactly when it starts with a slash and has no ".." between slashes or at its end. |
| `ArgvPipeline.FieldsAreNonEmptySegments` | agent/internal/execrunner/execrunner.go:172-182 | Go's FieldsFunc gives exactly the non-empty segments of the worker's split. |
| `ArgvPipeline.PathChecksAgree` | agent/internal/execrunner/execrunner.go:164-182 | The worker's and the agent's path checks accept the same non-empty paths. |
| `ArgvPipeline.FlagPatternsAgree` | src/registry/constants.ts:31-40 | The registry's full-flag pattern accepts exactly the flags whose stripped name the agent accepts, and stripping loses nothing. |
| `ArgvPipeline.StdinOpensIffAbsolute` | agent/internal/execrunner/execrunner.go:196-221 | A path the worker accepts is opened as standard input exactly when it is absolute. |
| `ArgvPipeline.RelativeStdinIsRefused` | agent/internal/execrunner/execrunner.go:213-215 | A concrete relative path that passes the worker's check and that the agent refuses to open. |
| `ArgvPipeline.RenderedIsAcceptable` | src/apps/worker/dispatch.ts:193-217 | Everything the worker renders for a safe input under a registered descriptor, the agent accepts. |
| `ArgvPipeline.AcceptableDecodes` | agent/internal/execrunner/execrunner.go:113-162 | An accepted request decodes back to its arguments, flag files and positionals exactly when no light value starts with '-'. |
| `ArgvPipeline.ArgvRoundTrip` | agent/internal/execrunner/execrunner.go:113-162 | In any order of the arguments, the vector decodes to each light key once with its printed value, the registered flags with their paths in descriptor order, and each positional value at the place given by how many indexes in use are smaller. |
| `ArgvPipeline.Pipeline` | src/apps/worker/dispatch.ts:193-217 | Registration, rendering, building and decoding in one run: a well-formed descriptor and a safe input always come back. |
| `Placement.PlacementRepos.RecordAccess` | src/scheduler/placement.ts:89-116 | Upsert, append and prune by the wider of the two windows, on this hash only. |
| `Placement.PlacementRepos.PruneOlderThan` | src/core/repositories/queries/placement-access.queries.ts:19-25 | Keeps, in order, exactly the rows of other hashes and those not older than the cutoff. |
| `Placement.PlacementRepos.ListPinnedOrderedByLru` | src/core/repositories/queries/placement.queries.ts:62-73 | Every pinned row once, by time of last access, equal times in any order. |
| `Placement.PlacementRepos.EvictLRUIfOverCapacity` | src/scheduler/placement.ts:284-317 | Unpins a prefix, in LRU order, of the pinned entries with a size, and nothing else; ends within the budget unless nothing with a size is left; is minimal; does nothing within the budget. |
| `Placement.EvictionMeetsBudget` | src/scheduler/placement.ts:272-317 | With a budget that is not negative the pinned total always ends within it. |
| `Placement.SecondEvictionIsEmpty` | src/scheduler/placement.ts:272-317 | A second eviction right after evicts nothing and changes nothing, whatever the order of equal times. |
| `Placement.PrunedLogCountsAll` | src/core/repositories/queries/placement-access.queries.ts:9-25 | A window no wider than any prune horizon used for the hash counts on the pruned log what it would count on the full history. |
| `Placement.RowShowsLastSupplied` | src/core/repositories/queries/placement.queries.ts:14-60 | A row's interactivity, cost class and size are those last supplied with an access, its count is the number of accesses, and it is pinned as last set. |
| `Placement.QualifiesIff` | src/scheduler/placement.ts:169-213 | Under one configuration a hash qualifies exactly when it was accessed, is unpinned and interactive, its observed cost with enough samples, or else its class's prior, exceeds the threshold, and at least as many accesses as the threshold asks were ever recorded within the window. |
| `Placement.RefusalReason` | src/scheduler/placement.ts:169-213 | The reason of a refusal is the first of the tests that fails. |
| `Placement.LastAccessedIsLastEvent` | src/core/repositories/queries/placement.queries.ts:20-51 | The last access time of a row is the time given with the last access recorded for its hash, in or out of order. |
| `Placement.HysteresisIff` | src/scheduler/placement.ts:169-258 | A hash that qualified for promotion stays not idle until idle threshold minus window has passed exactly when the last access recorded for it is no older than the window at the time it qualified; it stays not demotable exactly then or when unpinned. |
| `Placement.Hysteresis` | src/scheduler/placement.ts:169-258 | In particular it holds with accesses recorded in the order of their times. |
| `Placement.BackdatedAccessBreaksHysteresis` | src/core/repositories/queries/placement.queries.ts:34-40 | A back-dated access makes a qualifying hash idle at once. |
| `Placement.ObservedIsMean` | src/core/repositories/queries/placement.queries.ts:41-51 | The rolling mean times the sample count is the sum of all timings supplied, and it is absent exactly without any. |
| `SessionLog.SessionStore.AppendEntry` | src/session/session-log.ts:13-38 | Appends to the session's list, returns its new length, never meets the uniqueness constraint and leaves other sessions alone. |
| `SessionLog.SessionStore.RewindSession` | src/session/session-log.ts:40-63 | Truncates the session's list to the target exactly when it is in range; otherwise reports the range and changes nothing. |
| `SessionLog.SessionStore.ReplaySession` | src/session/session-log.ts:65-72 | Reading the live rows by ascending sequence gives the session's list. |
| `SessionLog.AppendIsListAppend` | src/core/repositories/queries/session-log.queries.ts:4-18 | Append is list append, whatever abandoned rows a rewind left stored. |
| `SessionLog.RewindIsTruncation` | src/core/repositories/queries/session-pointer.queries.ts:24-29 | Moving the pointer is truncation of the list, and no other session changes. |
| `SessionLog.LogRefinesList` | src/session/session-log.ts:22-72 | After any appends, rewinds and aborts over many sessions, stored rows are contiguous from 1 with the pointer inside, and every session replays its list. |

## Left out

- HTTP, authentication, JSON encoding, fork and exec, timers, signals and logging: dispatching a step is a function to an answer, a reported failure, a fatal error or a retryable one.
- Durable waits and signals: a claim hands out queued rows and running rows with an expired lease, not waiting rows whose timer is due.
- Row ids: an execution is keyed by its run and node, which the acceptance of a document makes unique; a child of a map by its map and position.
- Executions without a run: the worker rolls such a claim back every time.
- Engine.CoreRepos.ClaimExecution: does not say that the lowest id is taken; any claimable row may be, which allows every order that skipping locked rows produces.
- Engine.CoreRepos.RunWorkerLoop: does not model the sleep between idle cycles or the abort signal; the number of cycles is given, and nothing else commits between them. `RunProgress.WorkerCyclesBounded` bounds the cycles of any number of concurrent workers.
- Interleaving: follows the transactions of one run. Transactions of different runs share no row but the ones they claim.
- Interleaving: does not claim freedom from database deadlock, fairness or latency; a transaction that waits may be aborted.
- MapForEach: whole transactions are the steps; worker names and lease times are not kept, since no committed row is running.
- JSON Schema validation and parsing of the restricted YAML, whose logic is in other packages.
- Keys inherited from a JavaScript object's prototype: a record has the keys it was given.
- Descriptors.ValidateCapability: does not model the checks of the remaining capability fields, which are independent type checks.
- Dispatch.BuildInvokeRequest: models the bindings of a request; the execution id, the step id, the function's name and the timeout pass through unchanged.
- AgentArgv.ChooseStdin: whether a file can be opened is a parameter.
- AgentArgv.BuildArgs: does not say which offending flag the error names, which depends on the order of a map.
- Dedup: reads of the clock never go backwards. The HTTP side of a follower that disconnects is not modelled; it changes no state.
- Placement: one clock for the database and the process; the last access time is always set, as the only insert sets it. Replica and session columns, and floating-point rounding, are not modelled.
- Registry trust tiers, privilege split, configuration and error tables, and row mappers: single-branch facts.
- The session store's BIGINT range and the SQL types in general: sizes, times and sequences are integers.
