# Punakawan: a verified model of the delivery control plane

Punakawan drives software deliveries. Everything it knows about an orchestration, its lanes, tasks and dependency edges
is replayed from one append-only event log; every change is an atomic write under an idempotency key that reads the log,
checks a revision and a state, and appends events. This project models that control plane in Dafny and proves what it is
built for: mutual exclusion of mutating work, an acyclic task graph, fenced leases, ordered role stages, bounded repair,
one pull request per lane, unique case lifetimes, and a multi-step lane completion that survives crashes. Beside it stand
the line diff, the block extraction, the JSON-RPC call multiplexer and the credential file.

`dafny verify dfyconfig.toml` checks the whole project.

## How it is built

- `Core`, `Text`: results, sets and sequences, string order, line splitting and trimming.
- `Events`, `Reduce`: the event log and its replay. Each reducer is a loop proved equal to a left fold.
- `Graph`, `Priority`, `Sync`: reachability, the frontier, ranking, and what a frontier sync does to a log. Map iteration
  order is a parameter, and every statement holds for all orders.
- `LaneRules`, `World`: which event an operation may append in which state, and the invariants every such event keeps.
- `Operations`: every store operation on one log as a decision, the events to append or the error, and the proof that
  decisions append legal events only. Calls that read their guards before the transaction carry the log they read.
- `Lifetime`, `Lifetimes`: cases, executions and sessions, their operations and their invariant.
- `Machine`, `Guarantees`: runs of interleaved steps, and what holds in every reachable state in plain terms. The
  guarantees ask for the invariant only, which every reachable state and every `Store` object satisfies.
- `Outcomes`, `Workflow`, `Checkpoints`: what single calls come to, which stages and leases can ever be finished, and the
  numbering of session checkpoints. `Scenarios`: concrete runs in which something fails that users would expect to hold.
- `Resume`, `Completion`: repeatable steps in general, and the crash-and-retry theorem for a lane's completion.
- `DeliveryStore`: the store as an object with fields, its methods with the loops they have, each proved to make exactly
  the step of the state machine and to keep all invariants.
- `Matrix`, `Diff`, `Blocks`, `Mux`, `EnvEntries`, `EnvFile`: the self-contained parts.

## What the proofs rest on

- `storage.DB.Write` is one atomic step: a used key runs nothing, a failing body changes nothing
  (`internal/storage/tx.go:21-50`).
- `newID` yields ids that were not used before; lease tokens are numbered in the order they are issued. Ids of lanes never
  coincide with ids of tasks, sources, worklogs and edges, and project ids are not empty; the calls check neither, and
  what happens otherwise is proved exactly (`Outcomes.SharedIdExactly`, `Outcomes.CreatedIdExactly`).
- `UpdateLaneStatus` is used as `CompleteLaneWork` uses it, for a terminal status. What any other use breaks, and exactly
  when, is proved separately (`Guarantees.SetByHand...`).
- Workflow definitions do not change while runs that use them are under way.

## Where code and documentation part

- A block's content ends at the next heading of any level, not only at one of equal or higher level
  (`internal/artifact/blockid.go:10-12`, `:49-56`); `Blocks.DocumentedExtent` says when that makes a difference.
- `RecordRoleStage` refuses a stage without a required stage before it, although nothing is missing
  (`internal/delivery/rolestage.go:125-139`). So where Semar is optional no later stage can be recorded, and where another
  stage is required a lane that recorded Semar is stuck (`Workflow.CompletableExactly`, `Scenarios.StuckLane`).
- `sameBlockers` is one-sided: two blocking edges between one pair of tasks can hide a changed blocker
  (`internal/delivery/scheduler.go:147-161`); exactly when is `Guarantees.SyncListsExactly`, a run is
  `Scenarios.HiddenBlocker`.
- A call can report the adapter's exit although its answer was delivered (`internal/adapters/stdio.go:246-268`); exactly
  when is `Mux.AnswerLostExactly`.
- `CompleteLaneWork` repeated after full success is refused with the terminal-lane error, it does not replay
  (`internal/delivery/lanecompletion.go:125-127`).
- A key named on several lines of the credential file is replaced in the first and read from the last
  (`cmd/punakawan/setup.go:275-290`), and missing keys are appended in sorted, not in insertion order (`:291-297`).

## Model

| member | source | states |
|---|---|---|
| Reduce.ReduceLane | internal/delivery/reduce.go:125-278 | The replay loop returns the lane that folding the lane's own events one by one gives, with the not-found, wrong-first-event and unknown-event errors in the same order. |
| Reduce.ReduceOrchestration | internal/delivery/reduce.go:15-121 | One pass over the whole log yields the fold of its orchestration-scoped events, whatever entity events lie in between. |
| Reduce.AllLanes | internal/delivery/reduce.go:282-298 | All lanes are returned exactly when every lane replays; otherwise the error is one of a lane that does not. |
| Reduce.ReduceParentTask | internal/delivery/reduce.go:393-430 | The task is the fold of its created and routed events only; other events that carry its id are not read. |
| Reduce.ReduceDependencyEdge | internal/delivery/reduce.go:452-489 | Endpoints come from the first edge.added of the id, and any edge.removed makes the edge inactive for good. |
| Reduce.LaneOfBatch | internal/delivery/reduce.go:125-278 | Reducing a log followed by a batch is stepping the reduced lane through the batch's own events. |
| Reduce.LaneRevisionSound | internal/delivery/reduce.go:125-278 | If a lane shows the same revision after the log grew in any way, it is the same lane: optimistic concurrency is sound. |
| Reduce.LaneIgnoresOthers | internal/delivery/reduce.go:125-150 | Events of other entities never change a lane. |
| Reduce.OrchRevisionSound | internal/delivery/reduce.go:15-121 | If an orchestration shows the same revision after the log grew in any way, it is in the same state. |
| Reduce.ReplayLaneRevision | internal/delivery/reduce.go:150-160 | A lane's revision is the number of its own events. |
| Reduce.EdgeAfter | internal/delivery/reduce.go:452-489 | Appending any event to an edge's log never changes its endpoints and can only deactivate it. |
| Graph.Reachable | internal/delivery/graph.go:168-192 | The breadth-first search terminates on any graph and answers true exactly when a path along active edges exists. |
| Graph.AddArcAcyclic | internal/delivery/graph.go:50-52 | Adding an edge to an acyclic graph keeps it acyclic exactly when its target does not already reach its source. |
| Graph.Frontier | internal/delivery/graph.go:199-225 | A task that is known, not cancelled and unresolved is in exactly one of frontier and blocked, and blocked lists exactly its unresolved blocking predecessors. |
| Graph.BlockersAre | internal/delivery/graph.go:199-225 | The blockers of a task are exactly the unresolved ends of its blocking edges. |
| Graph.FrontierNonempty | internal/delivery/graph.go:199-225 | Progress: in an acyclic graph of known tasks, below every unresolved task lies a frontier task. |
| Graph.DrainsExactly | internal/delivery/graph.go:199-225 | Resolving frontier tasks one after another never repeats a task and gets stuck exactly when every open task has been resolved, after as many steps as there were. |
| Guarantees.FrontierProgress | internal/delivery/graph.go:199-225 | Progress where it matters: in every reachable state, for the active edges and tasks of the log, below every unresolved task lies one on the frontier. |
| Guarantees.FrontierDrains | internal/delivery/graph.go:199-225 | In every reachable state, resolving frontier tasks one by one goes through every unresolved task of the log exactly once and then stops. |
| Guarantees.AddEdgeExact | internal/delivery/graph.go:24-71 | In every reachable state AddDependencyEdge between known tasks without an unsafe crossing appends the edge exactly when the active edges stay acyclic, and reports a cycle otherwise. |
| Priority.CriticalPathLengths | internal/delivery/priority.go:56-87 | On an acyclic edge set the memoised recursion terminates with the length of the longest chain of dependents of every task. |
| Priority.UnlockCounts | internal/delivery/priority.go:32-54 | For every task the number of distinct tasks that depend on it directly or through others. |
| Priority.LongestExists | internal/delivery/priority.go:56-87 | In an acyclic graph every task has a longest chain of dependents. |
| Priority.RankLanes | internal/delivery/priority.go:89-116 | The lanes are permuted into rank order in place, and a lane comes before every lane whose task depends, however indirectly, on its own. |
| Priority.UpstreamRanksFirst | internal/delivery/priority.go:95-115 | A lane whose task another lane's task depends on, however indirectly, ranks strictly before that lane. |
| Priority.ChooseLane | internal/delivery/priority.go:118-131 | The chosen lane is runnable and no other runnable lane ranks before it; none is chosen only when none is runnable. |
| Guarantees.RankingApplies | internal/delivery/priority.go:19-87 | In every reachable state the active edges are acyclic seen from the dependents, so ranking always applies. |
| Sync.CompareBlockers | internal/delivery/scheduler.go:147-161 | True exactly for two lists of one length whose second has only elements of the first. |
| Sync.SameBlockersExact | internal/delivery/scheduler.go:147-161 | No old list whatever hides a change from the comparison exactly when the list it checks against repeats nothing. |
| Sync.SyncAchieves | internal/delivery/scheduler.go:44-145 | After one call, on any edges and in any iteration order, every picked lane that was waiting, blocked or runnable is runnable with nothing recorded when its task has no blocker left, otherwise blocked on a list sameBlockers accepts; every other lane is as before. |
| Sync.SyncExactly | internal/delivery/scheduler.go:120-161 | The ids recorded after a call are exactly the unresolved predecessors if and only if sameBlockers hid no change on the lane as it was; it can hide one exactly when two edges keep the task waiting for one and the same task. |
| Sync.SecondSyncIsQuiet | internal/delivery/scheduler.go:40-43 | A second call on the same edges, parallel ones included, in whatever order tasks and edges come this time, appends nothing. |
| Guarantees.SyncMeetsGraph | internal/delivery/scheduler.go:30-145 | In every reachable state a synced lane is runnable exactly when every blocking predecessor of its task has an accepted lane, otherwise blocked with all the others listed; every other lane is untouched. No assumption on the edges. |
| Guarantees.SyncListsExactly | internal/delivery/scheduler.go:120-161 | In every reachable state the listed blockers are exactly the unresolved predecessors if and only if the old list hid no change, and no old list can exactly when no two active edges keep the task waiting for one predecessor. |
| Guarantees.SecondSyncAppendsNothing | internal/delivery/scheduler.go:40-43 | SyncFrontier is idempotent in every reachable state: on the log it left, in whatever order lanes, tasks and edges come up again, it appends nothing. |
| Scenarios.HiddenBlocker | internal/delivery/scheduler.go:147-161 | A run to a state in which a task depends on one task only while its synced lane is listed as blocked on two, and a sync has nothing to append. |
| Guarantees.ExpireReclaims | internal/delivery/scheduler.go:433-477 | After one sweep every leased or running lane past its deadline is runnable without holder, token and deadline, and every other lane is as before. |
| LaneRules.NearestCoversAll | internal/delivery/rolestage.go:125-139 | On an ordered lane the one predecessor RecordRoleStage looks at is recorded exactly when some earlier stage is required and every earlier required stage is recorded. |
| LaneRules.AllowedKeepsLaneInv | internal/delivery/reduce.go:150-276 | Every event an operation may append keeps the lane invariant: counters count the log, stages stay chained, an active lane has a token and a deadline. |
| World.LegalKeepsLogsInv | internal/delivery/scheduler.go:163-288 | Every legal event keeps every log invariant and the cap of four projects with mutating work. |
| World.AppendArcs | internal/delivery/reduce.go:452-489 | A reused edge id keeps its first endpoints, so an edge.added puts at most its own arc into the graph. |
| Operations.DecideIsLegal | internal/delivery/scheduler.go:44-477 | Whatever an operation decides to append, under its own guards and the snapshot it read them from, is legal event by event. |
| Operations.SeenStillHolds | internal/delivery/repair.go:33-106 | A guard read before the transaction still holds inside it when the revision does. |
| Machine.NextKeepsInv | internal/storage/tx.go:21-50 | Every atomic step, on a log or on the case, execution and session tables, keeps all invariants; a used key or a failing body changes nothing. |
| Machine.RunKeepsInv | internal/storage/tx.go:21-50 | All invariants hold after any run of interleaved operations over any number of orchestrations. |
| Guarantees.ReachableInv | internal/storage/tx.go:21-50 | Every state reachable from the empty control plane satisfies the invariants the guarantees below ask for, as every state of a store object does. |
| Guarantees.MutualExclusion | internal/delivery/scheduler.go:163-288 | In every reachable state each orchestration has at most one leased or running lane per project, and at most 4 projects have one anywhere. |
| Guarantees.LaneCounters | internal/delivery/scheduler.go:257-266 | In every reachable state a lane's attempt is the number of grants in its log, its repair cycles are at most 3, and its log holds at most one recorded pull request. |
| Guarantees.StageChain | internal/delivery/rolestage.go:163-213 | In every reachable state a stage recorded after Semar has every earlier required stage recorded, and a lane in review that recorded Semar has its last required stage. |
| Workflow.UnreachableStage | internal/delivery/rolestage.go:125-151 | Where Semar is not required no later stage can be recorded; if any stage is required there, a lane that recorded Semar cannot complete its lease. |
| Workflow.RecordableExactly | internal/delivery/rolestage.go:125-213 | A leased lane can get a stage recorded, by some run, exactly when the stage is Semar or Semar is required. |
| Workflow.CompletableExactly | internal/delivery/scheduler.go:339-366 | A leased lane can complete its lease, now or after recording the required stages in order, exactly when it recorded no Semar, no stage is required, or Semar is. |
| Scenarios.StuckLane | internal/delivery/rolestage.go:85-151 | A run to a leased lane under a definition with optional Semar and required Bagong from which no run records Bagong and none completes the lease. |
| Guarantees.GraphsAndReplay | internal/delivery/graph.go:24-116 | In every reachable state the active edges are acyclic and no reducer fails on any entity. |
| Guarantees.FencedForever | internal/delivery/scheduler.go:290-425 | After any committed call that ends a token's lease, through every later run, no heartbeat, completion, rejection, stage record or publication under that token succeeds. |
| Guarantees.RepairOutcome | internal/delivery/repair.go:28-111 | Whatever earlier state the guards were read from, a repair request on a lane in review or running at its current revision spends one cycle, or escalates without touching status and budget once three are spent; every other request changes nothing. |
| Outcomes.LeaseOutcome | internal/delivery/scheduler.go:294-425 | Heartbeat, completion, rejection and stage record are accepted exactly when revision, state, token and their own condition fit; then they make exactly that of the lane and touch nothing else, otherwise they change nothing. |
| Outcomes.VerificationOutcome | internal/delivery/verification.go:53-90 | A recorded dimension shows in the lane's verification matrix as reported, every other dimension as before, and nothing but that lane moves. |
| Outcomes.SharedIdExactly | internal/delivery/graph.go:24-71 | An edge, task, source or worklog event leaves all lanes readable exactly when its id is no lane's: no call checks that. |
| Outcomes.CreatedIdExactly | internal/delivery/store.go:863-920 | A created lane is readable exactly when its id is a lane's already, or was not used and the project has an id. |
| Guarantees.SetByHandExclusion | internal/delivery/store.go:955-987 | UpdateLaneStatus, which checks only the revision, keeps the exclusion of projects exactly when it activates no lane, the lane was active already, or no other lane of its project is active. |
| Guarantees.SetByHandCap | internal/delivery/store.go:955-987 | ... and keeps the cap exactly when it activates no lane of an idle project while the cap is full. |
| Guarantees.SetByHandBreaksExclusion | internal/delivery/store.go:955-987 | A concrete log on which two statuses set by hand break the exclusion. |
| Lifetimes.FoundKeepsUnique | internal/delivery/lifetime.go:79-90 | The case the lookup returns can be given the organisation asked for, and when it returns none a new case can be opened, without a second active case for the issue. |
| Lifetimes.NextExecutionKeepsTables | internal/delivery/lifetime.go:207-287 | Opening the next ordinal of an active case whose last execution is over keeps every table invariant. |
| Lifetimes.CancelKeepsTables | internal/delivery/store.go:537-547 | Cancelling a live orchestration deactivates exactly the case of its execution and keeps every table invariant. |
| Lifetimes.CompleteKeepsTables | internal/delivery/execution.go:143-153 | Completing a live orchestration completes its execution, closes that execution's sessions and keeps every table invariant. |
| Guarantees.ActiveCases | internal/delivery/lifetime.go:72-90 | In every reachable state two active cases of one issue name different organisations, and neither names none. |
| Guarantees.CaseHistory | internal/delivery/lifetime.go:183-320 | In every reachable state a case's ordinals are exactly 1..n; every execution but the last is completed, and the case is cancelled exactly when the last one's orchestration is. |
| Guarantees.ActiveSessions | internal/delivery/execution.go:199-251 | In every reachable state an execution has at most one active session, and none once its orchestration is completed. |
| Guarantees.ResolvedIsLive | internal/delivery/lifetime.go:207-345 | StartOrResolveExecution always settles on a live execution: the last one of its case has an open orchestration. |
| Guarantees.ResolvedIsFound | internal/delivery/lifetime.go:326-333 | For a named organisation the lookup after the transaction finds the case the transaction settled on and no other. |
| Checkpoints.RunKeepsCheckpoints | internal/delivery/execution.go:281-312 | In every run the checkpoints of a session are numbered 1, 2, 3, ... without gaps, and one with a recipient is the last of its session, which is over. |
| Checkpoints.AddsCheckpoint | internal/delivery/execution.go:291-312 | One checkpoint more takes the next number of its session and keeps hand-overs final. |
| Completion.CrashRetry | internal/delivery/lanecompletion.go:16-31 | Whatever attempts stopped after whatever durable writes, one more attempt with the lane's current revision leaves exactly the log an uninterrupted run leaves and the lane with the requested outcome. |
| Completion.ReadyExactly | internal/delivery/lanecompletion.go:108-188 | An attempt of a sound request with fresh keys that is not cut off finishes if and only if its lane is leased, running or grantable, with its role stages complete: exactly the condition of the crash-and-retry theorem. |
| Completion.DistinctKeys | internal/delivery/lanecompletion.go:116 | Each derived key is used for exactly one event, also when a dimension is named twice. |
| Completion.AttemptOnTrack | internal/delivery/lanecompletion.go:108-188 | From any point an earlier attempt reached, an attempt goes on from there; after full success it is refused with the terminal-lane error and appends nothing. |
| Completion.ExecIsStoreCall | internal/delivery/lanecompletion.go:130-187 | Every durable write of an attempt is one store operation under the stage's key and the lane's current revision; a used key is no error unless there is no conclusion to return. |
| Completion.SameKey | internal/delivery/lanecompletion.go:116-142 | Two stages share a key only when they record the same dimension. |
| Resume.ProceedKeepsTrack | internal/delivery/lanecompletion.go:108-188 | If doing a stage again does nothing and the next stage advances, going through the stages from any earlier one ends where an uninterrupted run ends. |
| DeliveryStore.Store.constructor | internal/delivery/store.go:51-60 | A new store is the empty control plane and satisfies every invariant. |
| DeliveryStore.Store.ActiveProjectIds | internal/delivery/scheduler.go:172-206 | The loops over all orchestrations and lanes return exactly the projects with a leased or running lane. |
| DeliveryStore.Store.GrantLease | internal/delivery/scheduler.go:219-288 | The object makes exactly the grant step and replies with the lane or the first failing check; all invariants are kept. |
| DeliveryStore.Store.Heartbeat | internal/delivery/scheduler.go:294-327 | The object makes exactly the heartbeat step under the current token and keeps all invariants. |
| DeliveryStore.Store.CompleteLease | internal/delivery/scheduler.go:339-366 | Without the work log nothing happens; otherwise exactly the completion step, gated by the role stages. |
| DeliveryStore.Store.RejectLease | internal/delivery/scheduler.go:374-425 | Exactly the rejection step, without any stage gate. |
| DeliveryStore.Store.ExpireLeases | internal/delivery/scheduler.go:441-477 | One sweep times out exactly the active lanes past their deadline and returns exactly their ids. |
| DeliveryStore.Store.SyncFrontier | internal/delivery/scheduler.go:44-145 | The maps, the frontier computation and the last loop append exactly the batch the specification gives for the order the maps came up in. |
| DeliveryStore.Store.AddDependencyEdge | internal/delivery/graph.go:24-71 | Exactly the decision of the specification for any id, found with the breadth-first search over the active edges; all invariants are kept when the id is no lane's. |
| DeliveryStore.Store.RemoveDependencyEdge | internal/delivery/graph.go:88-122 | Exactly the removal step for any id, with evidence required once the source task is routed; all invariants are kept when the id is no lane's. |
| DeliveryStore.Store.RecordRoleStage | internal/delivery/rolestage.go:163-213 | Exactly the stage step under the current token, in the order the required stages give. |
| DeliveryStore.Store.StartRepairCycle | internal/delivery/repair.go:28-111 | Exactly the repair or escalation step decided from the earlier read; an exhausted lane is reported as such even when the escalation was recorded. |
| DeliveryStore.Store.PublishPullRequest | internal/delivery/publish.go:55-117 | Exactly the publication step decided from the earlier read; a lane that has a pull request is returned as it was. |
| DeliveryStore.Store.RecordVerificationDimension | internal/delivery/verification.go:53-90 | Exactly the recording step; refused on a terminal lane. |
| DeliveryStore.Store.RecordReviewConclusion | internal/delivery/verification.go:255-376 | Refused without a reviewing worker and session or without independence, before any key is looked at; otherwise exactly the recording step, and the latest conclusion of the lane is returned. |
| DeliveryStore.Store.UpdateLaneStatus | internal/delivery/store.go:957-987 | Exactly the status step for any status, checked by the revision alone; a terminal status keeps all invariants. |
| DeliveryStore.Store.CreateLane | internal/delivery/store.go:863-920 | Exactly the creation step: open orchestration, agreeing task, registered active project; no check of the id. All invariants are kept when the id is new or a lane's. |
| DeliveryStore.Store.ChangeProject | internal/delivery/store.go:687-797 | Exactly the attach or detach step; a project with an open lane cannot be detached. |
| DeliveryStore.Store.AppendOrchestrationEvent | internal/delivery/store.go:800-832 | Exactly one orchestration event at the expected revision of an open orchestration. |
| DeliveryStore.Store.CompleteLaneWork | internal/delivery/lanecompletion.go:58-188 | A request validate refuses changes nothing; otherwise the object's writes are exactly those of one attempt that is not cut off, under the trimmed or minted base key, with its outcome or its error. |
| DeliveryStore.Store.CreateOrchestration | internal/delivery/store.go:399-445 | A new log with one event, unless the id or the key was used. |
| DeliveryStore.Store.StartOrResolveJira | internal/delivery/lifetime.go:183-345 | Lookup, adoption and the next execution make exactly one step of the tables and keep all invariants; the case and execution handed back are what the lookups find afterwards, with the flags of what this call created. |
| DeliveryStore.Store.StartAdhocExecution | internal/delivery/lifetime.go:162-282 | Always a new case and its first execution. |
| DeliveryStore.Store.CancelOrchestration | internal/delivery/store.go:511-548 | Exactly the cancel step: the event and the one case, or the error. |
| DeliveryStore.Store.CompleteOrchestration | internal/delivery/execution.go:120-158 | Exactly the completion step: event, execution and sessions together, or the error. |
| DeliveryStore.Store.StartSession | internal/delivery/execution.go:199-251 | Exactly the session step: refused, reused or opened as the execution's state demands. |
| DeliveryStore.Store.CheckpointSession | internal/delivery/execution.go:281-330 | A blank summary or a progress that is no percentage changes nothing; otherwise exactly the checkpoint step: the next row of the session, which a recipient ends. The row is returned, for a used key the one of that id. |
| DeliveryStore.FindActive | internal/delivery/lifetime.go:79-90 | The row found is a candidate and no candidate comes before it in the query's order; none is found only when there is none. |
| DeliveryStore.FindLast | internal/delivery/lifetime.go:211-215 | The execution with the highest ordinal of the case, or none when it has none. |
| Matrix.BuildMatrix | internal/delivery/verification.go:179-268 | Every dimension appears once in the fixed order and shows what was reported last for it; unreported ones are pending, ci is derived. |
| Matrix.DeriveCi | internal/delivery/verification.go:143-163 | Failed exactly when a required check failed or was cancelled, passed exactly when there are required checks and all passed. |
| Matrix.LatestReview | internal/delivery/verification.go:255-298 | The conclusion recorded last on the lane, or not found. |
| Diff.LcsTable | internal/artifact/diff.go:109-126 | The table filled row by row holds the recurrence's value for every pair of prefixes. |
| Diff.CellIsLongest | internal/artifact/diff.go:107-126 | That value is the maximum length over all common subsequences of the two prefixes. |
| Diff.DiffLines | internal/artifact/diff.go:39-80 | Nothing is lost, the counts match, the equal lines are a longest common subsequence, and no script between the two documents adds and removes fewer lines. |
| Diff.FewestEdits | internal/artifact/diff.go:33-80 | A script that keeps a longest common subsequence is no larger than any other script between the same documents. |
| Diff.UnifiedDiff | internal/artifact/diff.go:85-98 | Every line after its mark, each ended by a newline. |
| Diff.PatchRoundTrip | internal/artifact/diff.go:39-105 | The printed patch reads back to the script by its first characters, and applying it to the base text gives the proposed text, for every pair of texts. |
| Diff.PatchOf | internal/artifact/diff.go:39-105 | Diffing and printing any two documents gives a patch that turns the one into the other. |
| Blocks.ExtractBlocks | internal/artifact/blockid.go:28-72 | Exactly the marked ids have a block; the last marker of an id gives it, with the enclosing headings as path and the text up to the next marker or heading, trailing newlines trimmed. |
| Blocks.PopStack | internal/artifact/blockid.go:57-59 | On an increasing stack the popping loop leaves exactly the entries of smaller level. |
| Blocks.OutlineIncreases | internal/artifact/blockid.go:57-60 | The levels of the headings that enclose a position strictly increase. |
| Blocks.OutlinePastHeading | internal/artifact/blockid.go:57-60 | Passing a heading leaves exactly the enclosing headings of smaller level, those not followed by one of their level or a smaller one. |
| Blocks.DocumentedExtent | internal/artifact/blockid.go:23-72 | The content the code gives a marker's block is that of the documented extent, up to the next marker or heading at or above the marker's own level, exactly when every line of it after a deeper heading is blank. |
| Blocks.DocumentedExtentFails | internal/artifact/blockid.go:23-72 | An input where code and documentation differ. |
| Mux.IdsAreFresh | internal/adapters/stdio.go:231-236 | In every interleaving a new call's id was never used before. |
| Mux.AnswersAreOwn | internal/adapters/stdio.go:182-205 | An answered call got the response carrying its own id, and no id is answered twice. |
| Mux.DeliveryNeverBlocks | internal/adapters/stdio.go:196-204 | Whenever the reader is about to deliver, the one-slot channel is free. |
| Mux.NoLeftovers | internal/adapters/stdio.go:238-268 | A returned call has no entry in the pending table. |
| Mux.DoneFreesEveryCall | internal/adapters/stdio.go:246-268 | After done is closed every running call has an enabled step of its own, each such step brings it nearer to returning, and nobody else's step moves it. |
| Mux.ReturnedIsFinal | internal/adapters/stdio.go:246-268 | A call that returned is never changed again. |
| Mux.AnswerMayBeLost | internal/adapters/stdio.go:246-268 | A run in which a call reports the adapter's exit although its answer was delivered. |
| Mux.AnswerLostExactly | internal/adapters/stdio.go:196-268 | In every interleaving a failed call lost an answer, which lies in its channel for good, exactly when readLoop had taken it out of the table and delivered. |
| Mux.ArrivedIsReceived | internal/adapters/stdio.go:246-268 | A waiting call can receive exactly when its answer is delivered, can see done exactly when done is closed, and with its context alive and done open has no other step than to receive. |
| Mux.OutcomeTells | internal/adapters/stdio.go:238-268 | In every interleaving a call is answered if and only if it received, and fails with a write error, its context's error or the adapter's exit if and only if it took that way out, the last only with done closed. |
| EnvFile.ShellQuote | cmd/punakawan/setup.go:328-349 | Safe values unquoted, values without a single quote in single quotes, all others escaped in double quotes. |
| EnvFile.ReadBackExact | cmd/punakawan/setup.go:319-349 | A quoted value reads back unchanged exactly when it does not mix a single quote with a double quote or a backslash. |
| EnvFile.WrittenReads | cmd/punakawan/setup.go:255-304 | A written line names its key and reads back its value. |
| EnvFile.ParseEnvFile | cmd/punakawan/doctor_cmd.go:551-577 | The loop returns, for each key, the value of its last line. |
| EnvFile.Sink | cmd/punakawan/setup.go:311-315 | One insertion step: the sorted prefix grows by one, in place, as a permutation. |
| EnvFile.SortedKeys | cmd/punakawan/setup.go:306-317 | All keys, each once, in sorted order. |
| EnvFile.PersistEnvValues | cmd/punakawan/setup.go:255-304 | The first line naming a written key is replaced, every other line stays in place, the missing keys follow in sorted order, and the file reads back as an override exactly when no repeated key changes and every value survives. |
| EnvFile.RoundTrip | cmd/punakawan/setup.go:246-304 | The new lines read as the old values overridden by the new ones exactly when every repeated key already had its value in its last line and every other new value survives quoting. |
| EnvFile.RepeatedKeyFails | cmd/punakawan/setup.go:275-290 | A file naming a key twice in which a new value is written and the old one still read. |
| EnvFile.MixedValueFails | cmd/punakawan/setup.go:328-349 | A value mixing a single with a double quote that comes back with a backslash in it. |

## Left out

- Texts, titles, evidence ids, timestamps other than deadlines and creation times: nothing branches on them.
- The projection version rows, jira snapshots, usage, budgets and notifications: tables no guard reads.
- Deduplication of captured requirements and of projects, and the work log table itself: `requireLaneWorkLog` is a flag.
- Worktrees, commits, providers, hooks and outbox workers: only the events they append are steps.
- Task and requirement operations, completed-with-gaps, CI reports, worktree and commit events have no method in `DeliveryStore`; they are steps of `Operations` on values.
- Cancelled tasks: no event of the log cancels one, so `Graph.Frontier` gets the flag but the store never sets it.
- Resolver errors of workflow definitions: an unknown definition means the default stages.
- ResolveAnchor, content hashes and the two regular expressions of the block extraction: lines come already told apart.
- The JSON payloads, SQL and the daemon around the store; integer widths of ids and counters (`nextID` is 64 bits wide and its wrap-around is not modelled).
- Mux: the multiplexer is a step system on values, because its goroutines interleave inside one method; locks are the step boundaries.
- File modes, directories and read errors of the credential file.
- Guarantees.SyncMeetsGraph: speaks of the lane picked for a task; when several lanes share a task the scheduler keeps one of them, and the others are proved untouched.
- Guarantees.SecondSyncAppendsNothing: asks for the same pick in both calls, which one lane per task makes unique.
- DeliveryStore.Store.StartOrResolveJira: the caller's key pattern check and the plan options come before the store and are not modelled.
- EnvFile.RoundTrip: asks for well-formed keys and values without newlines; a value with a newline would be split over two lines.
