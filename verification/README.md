# MCP agent factory: a verified model

A Dafny model of the coordination logic of the MCP agent factory, and proofs of what that logic is for.
`dafny verify dfyconfig.toml` checks the whole project.

## What is modelled

**The quorum lock** (`Redlock`, `RedlockSafety`, `RedlockTiming`, `RedlockLate`, `RedlockProgress`, `RedlockClient`).
Clients, nodes, expiries and the clock are one system of interleaved steps: each SET, GET and DEL, each clock reading
and each expiry is a step of its own. The client class runs the loops of `acquire` and `release` on that system with
the other parties acting before every operation. Assumptions: all clocks run at one rate; a node operation takes
effect, if at all, before the call returns or raises; tokens of different calls differ; a node does not drop an entry
before its expiry. The GET and the DEL of `_release_partial` are separate steps, so mutual exclusion does not hold
unconditionally. Call a DEL late when it takes effect at or after the expiry of the entry that its GET saw. Two quorums
share at least one node of an odd number of nodes and at least two of an even number, and that decides the matter:
mutual exclusion survives late DELs on m nodes for each key if and only if m is smaller than that (`ToleranceIsExact`).
So it holds in every run without late DELs and, on an even number of nodes, also in those with late DELs on one node
only. On an odd number of nodes every single pending DEL can break it (`PendingDeletesBreakExclusion`). As long as no
late DEL came before it on the same node and key, a pending DEL can hit another call's entry exactly when it is late
(`DeleteIsSafeExactlyBeforeExpiry`).

**The plan executor and the retry loop** (`Plan`, `Sorter`, `Executor`, `ExecuteNode`, `GraphRun`, `GraphRunAgreement`,
`References`). Argument strings are sequences of literals and references. The topological sorter is written out with
`prepare`, `get_ready`, `done` and `is_active`. Steps of a batch start and finish in any interleaving; the tool is any
deterministic function from tool name and resolved arguments to a result or an error, and a timeout is an error. Plans
and verdicts are arbitrary inputs of the state machine. Step ids of one plan are distinct. Two points follow the code
where its comments or its names suggest otherwise. The edge from execute to evaluate is unconditional, so a FAILED set
inside execute is overwritten by evaluate; when the critic passes such a run before any plan was ever executed,
evaluation raises, and the run ends in that exception rather than in DONE or FAILED (`StrayReferenceBreaks`; `Run` says
exactly when). `step_outputs` starts empty in each pass while `completed_step_ids` persists, so a reference to a step
completed in an earlier round is not replaced by its output, although the comments say that references to prior steps
are. `RetryLosesOutput` is a run in which a tool is called with such a reference as it is written; `FilledExactly`,
`AllFilledExactly` and, for plans with a cycle, `FilledInPlanOrderExactly` say exactly which references are replaced.

**The stream and the fleet** (`StreamGroup`, `Fleet`, `FleetPoll`, `FleetSubmit`, `FleetWorker`).  A log with one consumer group, and
around it the job records, the worker loops of any number of processes with a semaphore each, and the polling
endpoint.  Every Redis command is one atomic step, and a task may die between any two of its steps, which covers
Redis calls that raise and processes that crash.  `recover` looks at the first ten pending entries only, although its
docstring speaks of all messages idle long enough; `RecoveryIsCompleteExactlyOnFirstPage` says when the two agree,
and `RecoverySkipsEleventh` is a stream on which they do not.

**The scheduler** (`Heap`, `Scheduler`, `SchedulerRuns`, `SchedulerOutcomes`).  The binary heap with its two sifts, proved to be the simple
queue "best first, first come first served among equals"; the inbox; bounded retry.  `stop()` ends the loop at once and
leaves queued tasks where they are, although the docstring of `run` says that it exits once both inbox and heap are
empty (`StopLeavesQueued`).  The contract of `Run` and `LeavesNothingExactly` say when a stopped run does leave both empty.

**Chunks, rankings and statistics** (`Chunker`, `Ranking`, `Fusion`, `Statistics`, `Agreement`, `Breaker`, with order facts
in `Reals`; `Basics` holds what several modules share).  Recall can exceed 1, and does for some set of relevant chunks
exactly when the first k results have a repeat (`RecallIsFractionExactly`).  Numbers are exact reals.  A square root is
any non-negative value with the right square, and the logarithmic discount is any positive, strictly decreasing weight
of the rank.

## Model

| member | source | states |
|---|---|---|
| `RedlockSafety.MutualExclusion` | src/mcp_agent_factory/streams/redlock.py:38-71 | In every state that any interleaving of clients, nodes, expiries, raising operations and clock advances can reach, two acquisitions of one key that are both in force are the same acquisition, provided each DEL took effect before the expiry its GET saw |
| `RedlockSafety.ExclusionWithLateDeletes` | src/mcp_agent_factory/streams/redlock.py:38-101 | The same for every run whose late DELs for that key are confined to fewer nodes than any two quorums share |
| `RedlockLate.ToleranceIsExact` | src/mcp_agent_factory/streams/redlock.py:35-101 | For every positive number of nodes and every m: exclusion holds in all runs with late DELs on at most m nodes for each key if and only if m is below the number of nodes any two quorums share (one if N is odd, two if it is even) |
| `RedlockLate.PendingDeletesBreakExclusion` | src/mcp_agent_factory/streams/redlock.py:89-99 | From any state with that many DELs pending on different nodes, so from any single one when N is odd, there is a run in which no other DEL is late and which ends with two acquisitions of the key in force |
| `RedlockLate.LateDeletesBreakExclusion` | src/mcp_agent_factory/streams/redlock.py:38-101 | On any positive number of nodes such a run exists from the start |
| `RedlockSafety.TrueMeansQuorum` | src/mcp_agent_factory/streams/redlock.py:45-65 | In every run: acquire returns True exactly when the test succeeds; then less than ttl of real time has passed, at least N/2+1 distinct nodes were set, and each of them on which no late DEL for the key took effect stores this token until start + ttl |
| `RedlockSafety.RoundingIsSafe` | src/mcp_agent_factory/streams/redlock.py:47-60 | Both clock readings are rounded down to milliseconds; whenever the validity test passes on the rounded readings, strictly less than ttl has really passed |
| `RedlockSafety.NothingLeftBehind` | src/mcp_agent_factory/streams/redlock.py:66-101 | With no assumption on timing: after False and after release, the token is on no node whose operations for that call all returned; never more than retry_count attempts are made, and False comes after exactly that many |
| `RedlockSafety.QuorumsMeet` | src/mcp_agent_factory/streams/redlock.py:35 | Two lists of distinct nodes of quorum size share a node outside any set of fewer nodes than two quorums must share, for every number of nodes |
| `RedlockSafety.ShapeRun` | src/mcp_agent_factory/streams/redlock.py:38-101 | Every step keeps the books: each stored entry belongs to a known call that still accounts for that node, or the node raised; acquired and target lists are strictly increasing; stored tokens are held calls |
| `RedlockSafety.SafeStep` | src/mcp_agent_factory/streams/redlock.py:50-71 | Every step keeps, outside the slots that late DELs hit, for each held or running acquisition its own unexpired entry on each acquired node, and for each pending DEL the entry its GET saw |
| `RedlockTiming.DeleteIsSafeExactlyBeforeExpiry` | src/mcp_agent_factory/streams/redlock.py:93-99 | In any state reached without an earlier late DEL on the same node and key: a pending DEL cannot hit another call's entry at this moment, whatever timely steps of others come first without time passing, if and only if the time is before the expiry its GET saw |
| `RedlockTiming.TakeOver` | src/mcp_agent_factory/streams/redlock.py:50-54 | Whenever a node stores nothing under a key, another call can fill it before a given call moves (the hard half of the exact condition) |
| `RedlockProgress.AttemptMustSucceed` | src/mcp_agent_factory/streams/redlock.py:46-65 | For every run in which an attempt begins at time b and reaches its second clock reading: if a quorum of nodes were free and answered its SETs and at most ttl - 1 ms have passed since b, acquire returns True with the token stored and the lock counting from b; and it returns True only if a quorum did and less than ttl has passed since b |
| `RedlockProgress.InForceUntilDeadline` | src/mcp_agent_factory/streams/redlock.py:63-65 | An acquisition stays in force until its start + ttl and no longer, whatever happens, unless it is released |
| `RedlockProgress.SetMeans` | src/mcp_agent_factory/streams/redlock.py:52 | SET NX PX never replaces an entry and touches no other; a free node stores this token for ttl unless the operation raised without effect |
| `RedlockProgress.GetAndDeleteMean` | src/mcp_agent_factory/streams/redlock.py:93-99 | A DEL follows exactly when the GET was answered with this token, and frees just that entry unless it raised without effect |
| `RedlockClient.RedlockClient.Acquire` | src/mcp_agent_factory/streams/redlock.py:38-71 | The loops of acquire, with all others acting before every node operation, produce a run of the step system that ends Held with the token stored, or Refused, according to the result; when nobody else acts, ttl and retry_count are positive and a quorum of nodes is free and answers at first, the result is True; when all operations are answered and the result is False, no node stores the token |
| `RedlockClient.RedlockClient.TryOnce` | src/mcp_agent_factory/streams/redlock.py:46-69 | One attempt: either the lock is held with its token stored, or the partial locks have been walked and the call is back at the top of the loop with one more attempt spent; undisturbed, it is held if and only if ttl is positive and at least N/2+1 nodes are free and answer |
| `RedlockClient.RedlockClient.ReleasePartial` | src/mcp_agent_factory/streams/redlock.py:89-101 | Every target is visited exactly once, whatever the nodes answer, and nothing of the call changes but its record of failing nodes, which stays as it is when all operations are answered |
| `RedlockClient.RedlockClient.ReleaseLock` | src/mcp_agent_factory/streams/redlock.py:73-83 | Without a stored token nothing happens at all; with one, the token is given up and every node is visited, and if all operations of the call were answered no node stores the token afterwards |
| `Plan.ResolveReferences` | src/mcp_agent_factory/graph_orchestrator.py:120-135 | The nested loops compute the substitution of every reference by the shown output, leaving references without output and non-string values as they are, in the same key order |
| `Plan.PieceReplaced` | src/mcp_agent_factory/graph_orchestrator.py:127-132 | Wherever a reference stands in a string, it becomes the output it refers to as str shows it, or stays as written if there is none; literals stay; what is before and after is resolved as it would be alone |
| `Plan.ResolveByArgument` | src/mcp_agent_factory/graph_orchestrator.py:125-135 | Keys keep their order, each argument is resolved by itself, values that are not strings stay as they are |
| `Plan.ResolveDependsOnRefs` | src/mcp_agent_factory/graph_orchestrator.py:120-135 | Resolved arguments depend only on the outputs of the steps that the arguments mention |
| `Plan.ValidateStepReferences` | src/mcp_agent_factory/graph_orchestrator.py:138-149 | The errors are exactly the pairs of a step and an unknown id it mentions, and there is none if and only if every reference is known |
| `Plan.BuildDag` | src/mcp_agent_factory/graph_orchestrator.py:152-160 | The graph has one node for each id; with distinct ids each node depends on exactly the steps it mentions |
| `Sorter.AcyclicHasOrder` | src/mcp_agent_factory/graph_orchestrator.py:377-378 | A dependency graph has no cycle if and only if its nodes can be ordered with every node after its dependencies |
| `Sorter.StuckHasCycle` | src/mcp_agent_factory/graph_orchestrator.py:377-378 | If every remaining node waits for another remaining node, a cycle exists |
| `Sorter.TopologicalSorter.Prepare` | src/mcp_agent_factory/graph_orchestrator.py:377-378 | prepare reports a cycle if and only if the graph has one; otherwise the nodes without dependencies are ready |
| `Sorter.TopologicalSorter.GetReady` | src/mcp_agent_factory/graph_orchestrator.py:380-381 | Each handed-out node is new and all its dependencies are finished |
| `Sorter.TopologicalSorter.Done` | src/mcp_agent_factory/graph_orchestrator.py:392 | Finishing a handed-out node keeps the sorter's invariant: a node is ready or handed out exactly when it has no open dependency |
| `Sorter.TopologicalSorter.InactiveMeansFinished` | src/mcp_agent_factory/graph_orchestrator.py:380 | When an acyclic sorter is no longer active every node has been finished |
| `Executor.UniqueSolution` | src/mcp_agent_factory/graph_orchestrator.py:352-374 | An acyclic plan's outcomes are determined: at most one map from step to outcome satisfies every step given the others' outputs |
| `Executor.ScheduleKeepsInv` | src/mcp_agent_factory/graph_orchestrator.py:352-374 | Whatever order steps start and finish in, a recorded outcome is already final, started steps saw all their inputs, and the completed set is the initial one plus the successes |
| `Executor.Confluence` | src/mcp_agent_factory/graph_orchestrator.py:376-397 | For distinct ids, known references and no cycle, any two complete interleavings record the same outcome for every step and the same completed set |
| `ExecuteNode.SequentialIsSolution` | src/mcp_agent_factory/graph_orchestrator.py:394-397 | Running the steps one at a time in an order that respects references yields a solution of the plan |
| `ExecuteNode.SequentialAgrees` | src/mcp_agent_factory/graph_orchestrator.py:376-397 | The sequential run in any order that respects references gives the same map of outcomes as any other complete run |
| `ExecuteNode.RunSequential` | src/mcp_agent_factory/graph_orchestrator.py:393-397 | The sequential branch appends one record for each step of the batch and keeps every earlier record and outcome |
| `ExecuteNode.RunParallel` | src/mcp_agent_factory/graph_orchestrator.py:382-392 | The gathered branch, under any interleaving inside the batch, ends with nothing in flight, appends one record for each step of the batch and keeps every earlier record and outcome |
| `ExecuteNode.RunInPlanOrder` | src/mcp_agent_factory/graph_orchestrator.py:399-403 | On a cycle the steps run once each, in plan order |
| `ExecuteNode.ExecutePass` | src/mcp_agent_factory/graph_orchestrator.py:344-403 | The pass terminates with exactly one record for each step, skips exactly the steps already completed and adds exactly the successes; without a cycle the outcomes are the plan's solution in either mode and each step's record comes after those of all steps it references, with one the steps run in plan order |
| `ExecuteNode.PassIsDetermined` | src/mcp_agent_factory/graph_orchestrator.py:376-403 | Plan, completed steps and tool determine the records of a pass up to their order, with or without a cycle |
| `GraphRun.RunExecute` | src/mcp_agent_factory/graph_orchestrator.py:313-410 | A plan that is missing, empty or has unknown references sets FAILED and keeps the earlier execution result; any other is executed, records every step once with the outcomes that plan, completed steps and tool determine, and calls no completed step |
| `GraphRun.AnotherPass` | src/mcp_agent_factory/graph_orchestrator.py:348-354 | One more pass that calls only steps not yet completed keeps the history of calls free of repeats and the completed set exact |
| `GraphRun.StrayReferenceBreaks` | src/mcp_agent_factory/graph_orchestrator.py:330-536 | Every run whose planner replies first with a plan that cannot be executed (empty, or with an unknown reference), and whose critic passes the first round, ends in an exception after it, with an empty history: the plan is not executed, and the unconditional edge evaluates it all the same |
| `GraphRun.StrayIsNotExecutable` | src/mcp_agent_factory/graph_orchestrator.py:138-149 | One step that refers to an unknown step is such a plan |
| `GraphRun.Round` | src/mcp_agent_factory/graph_orchestrator.py:405-507 | One round: exactly one history entry is added, the phase is DONE if and only if the verdict passed, FAILED only at the iteration limit, and an exception is raised exactly when the verdict passed and no plan so far was executable |
| `GraphRun.Run` | src/mcp_agent_factory/graph_orchestrator.py:219-559 | For every planner, critic, tool, mode and interleaving: at most max(1, max_iterations) evaluations; history entry k holds round k's plan, latest execution and verdict; no earlier verdict passed; DONE if and only if the last one did and some plan was executable; an exception if and only if it did and none was; otherwise FAILED, and then validation or planning failed or all evaluations were used up; each round records what its plan, the steps completed before it and the tool determine; each step id is called successfully at most once over all rounds |
| `GraphRun.LatestNone` | src/mcp_agent_factory/graph_orchestrator.py:415 | There is no execution result to evaluate exactly when no pass so far has executed |
| `GraphRunAgreement.RunTwice` | src/mcp_agent_factory/graph_orchestrator.py:376-410 | Two runs with the same task, planner, critic and tool, each with its own mode and interleavings and for plans with and without cycles, end alike after the same number of evaluations, record the same outcome for every step in every round, and have completed the same steps |
| `GraphRunAgreement.RoundAgrees` | src/mcp_agent_factory/graph_orchestrator.py:344-410 | After passes that recorded the same, the next pass over the same plan records the same |
| `References.FilledExactly` | src/mcp_agent_factory/graph_orchestrator.py:124-134 | In a pass without a cycle a reference is replaced if and only if the step it mentions was not completed in an earlier round and its tool returned something to show |
| `References.AllFilledExactly` | src/mcp_agent_factory/graph_orchestrator.py:347-369 | With a tool that always returns something to show, all references of all called steps are replaced if and only if none is to a step completed in an earlier round |
| `References.FilledInPlanOrderExactly` | src/mcp_agent_factory/graph_orchestrator.py:399-403 | In plan order a reference is replaced if and only if the step it mentions comes earlier in the plan, was not completed in an earlier round, and its tool returned something to show |
| `References.RetryLosesOutput` | src/mcp_agent_factory/graph_orchestrator.py:347-369 | A run whose first round calls step1 and whose second plan adds a step2 referring to it: step1 is skipped, and step2's tool is called with the reference as it is written |
| `References.RoundUsesOutput` | src/mcp_agent_factory/graph_orchestrator.py:352-369 | A run of one round that plans step1 and a step2 referring to it: when step1's tool shows a text, step2's tool is called with that text |
| `StreamGroup.ConservationHolds` | src/mcp_agent_factory/streams/worker.py:38-109 | Under any interleaving of publish, claim, ack and reclaim by any workers, the published entries are exactly the undelivered, pending and acknowledged ones, without overlap, and none of the log, the delivered part and the acknowledged set ever shrinks |
| `StreamGroup.ClaimsInOrder` | src/mcp_agent_factory/streams/worker.py:53-77 | The claims of any run together hand out each next entry exactly once, in publishing order |
| `StreamGroup.AckedNeverReturns` | src/mcp_agent_factory/streams/worker.py:79-109 | No claim and no recovery ever hands out an acknowledged message again |
| `StreamGroup.StreamWorker.PublishTask` | src/mcp_agent_factory/streams/worker.py:38-51 | The task is appended to the log under a new id; nothing else changes |
| `StreamGroup.StreamWorker.AckMessage` | src/mcp_agent_factory/streams/worker.py:79-85 | A pending message leaves the pending list, is recorded as acknowledged, and no other message is touched; acknowledging anything else changes nothing; the partition of the log into undelivered, pending and acknowledged is kept |
| `StreamGroup.StreamWorker.ClaimOne` | src/mcp_agent_factory/streams/worker.py:53-77 | Returns the first undelivered message with its fields and makes it pending for this consumer from now on, or None, changing nothing, exactly when nothing is undelivered |
| `StreamGroup.StreamWorker.Recover` | src/mcp_agent_factory/streams/worker.py:87-109 | The loop claims each of the first ten pending entries once, with the other workers acting in between, and returns exactly those whose XCLAIM found them, as XclaimMeans spells out |
| `StreamGroup.XclaimMeans` | src/mcp_agent_factory/streams/worker.py:98-104 | An entry's own XCLAIM returns it if and only if it is still pending then and was delivered at least min_idle before; it is then delivered anew, now and to the new consumer; nothing else changes |
| `StreamGroup.QuietRecovery` | src/mcp_agent_factory/streams/worker.py:95-109 | Undisturbed, recovery returns exactly the listed entries idle for at least min_idle and changes nothing but their delivery |
| `StreamGroup.RecoveryRedelivers` | src/mcp_agent_factory/streams/worker.py:95-109 | Undisturbed, recover returns exactly those of the first ten pending entries that were delivered at least min_idle ago; these are delivered now to the new consumer and every other entry is as before |
| `StreamGroup.RecentIsNotRecovered` | src/mcp_agent_factory/streams/worker.py:88 | A message delivered less than min_idle ago is never returned and stays with its worker |
| `StreamGroup.SecondRecoveryIsEmpty` | src/mcp_agent_factory/streams/worker.py:87-109 | A second recovery with positive min_idle before any time passes returns nothing |
| `StreamGroup.RecoveryIsCompleteExactlyOnFirstPage` | src/mcp_agent_factory/streams/worker.py:88-97 | Recovery returns every idle entry, as its docstring says, if and only if no entry after the tenth pending one is idle |
| `StreamGroup.RecoverySkipsEleventh` | src/mcp_agent_factory/streams/worker.py:95-97 | On the stream that any more than ten publishes and as many claims leave behind, recover(0) leaves out the eleventh message, although it is pending and idle |
| `StreamGroup.DrainTakesExactlyCeilRounds` | src/mcp_agent_factory/streams/worker.py:79-109 | Repeating recover(0) and acknowledging everything takes ten entries a round, and empties a pending list of n after exactly n/10 rounds, rounded up |
| `StreamGroup.DrainAfterAnyRun` | src/mcp_agent_factory/streams/worker.py:38-109 | The same, for the stream left behind by any commands of any workers |
| `Fleet.InvRun` | src/mcp_agent_factory/gateway/fleet.py:99-204 | Over all runs: published jobs are distinct and recorded, each delivered message has one task for its job, every record fits its task's stage, and a message is acknowledged exactly when its task is gone |
| `Fleet.LifeCycleStep` | src/mcp_agent_factory/gateway/fleet.py:170-203 | No step of any party moves a record other than one place along pending, running, done or failed |
| `Fleet.LifeCycle` | src/mcp_agent_factory/gateway/fleet.py:159-204 | Over any run a record never moves back and a terminal record is never rewritten |
| `Fleet.AckedMeansTerminal` | src/mcp_agent_factory/streams/fleet_worker.py:36-82 | In every reachable state an acknowledged message's job is done or failed, every claimed job has a record, and no two messages carry the same job |
| `Fleet.BoundedConcurrency` | src/mcp_agent_factory/gateway/fleet.py:142-168 | In every reachable state at most FLEET_CONCURRENCY of one process's records are running, not counting tasks that died |
| `Fleet.BoundedRunningRecords` | src/mcp_agent_factory/gateway/fleet.py:142-168 | When no Redis call raises, the bound holds for all running records of the process |
| `FleetWorker.Worker.ProcessJob` | src/mcp_agent_factory/gateway/fleet.py:159-204 | With everybody else acting before each of its operations: the task enters if and only if, when its turn comes, fewer than FLEET_CONCURRENCY tasks of its process hold the semaphore, and then ends with its message acknowledged and its record done or failed as the execution came out |
| `FleetWorker.OneJob` | src/mcp_agent_factory/gateway/fleet.py:99-204 | From submission to end, when nobody else acts and the process has a place free: the job is logged and claimed, its record ends as the execution came out, its message is acknowledged, and no other record changes |
| `FleetSubmit.Gateway.SubmitOne` | src/mcp_agent_factory/gateway/fleet.py:99-128 | With others acting in between, the job is recorded, and on the stream exactly when publishing went well |
| `FleetSubmit.Gateway.SubmitBatch` | src/mcp_agent_factory/gateway/fleet.py:296-306 | With others acting in between, the batch ends up listing just its jobs in order, each recorded, and on the stream exactly when its publishing went well |
| `FleetPoll.FleetApi.GetBatch` | src/mcp_agent_factory/gateway/fleet.py:261-293 | The polling loop reports each job's status, result and error as its record holds them at that job's read, or a failure when there is no record, with the counts of done and failed among the results, at most as many as the total |
| `FleetPoll.JobSettles` | src/mcp_agent_factory/gateway/fleet.py:271-288 | A job reported done or failed is reported with the same status, result and error by every later poll, and its status never moves back |
| `FleetPoll.PollsAreMonotone` | src/mcp_agent_factory/gateway/fleet.py:261-293 | Between two polls of a batch, empty or not, with any activity within and between them, neither count falls and no terminal report changes |
| `Heap.SiftDown` | src/mcp_agent_factory/scheduler.py:83-86 | The sift towards the root restores the heap order and keeps the entries as a multiset |
| `Heap.SiftUp` | src/mcp_agent_factory/scheduler.py:92 | The sift to a leaf and back restores the heap order and keeps the entries as a multiset |
| `Heap.Pop` | src/mcp_agent_factory/scheduler.py:88-93 | Pop returns an entry no other is below, and the rest is a heap of exactly the other entries |
| `Scheduler.LeastIsBest` | src/mcp_agent_factory/scheduler.py:85-86 | Among entries numbered in order of arrival the least by (-priority, counter) is the first of greatest priority |
| `Scheduler.TakeLeast` | src/mcp_agent_factory/scheduler.py:88-93 | Taking the least entry off the heap is taking the best task off the queue in order of arrival |
| `Scheduler.BestIsBest` | src/mcp_agent_factory/scheduler.py:83-93 | The simple queue's choice has the greatest priority and came before every other task of that priority |
| `Scheduler.TaskScheduler.AddTask` | src/mcp_agent_factory/scheduler.py:83-86 | The array heap refines the simple queue: the task joins at the end |
| `Scheduler.TaskScheduler.GetNextTask` | src/mcp_agent_factory/scheduler.py:88-93 | The array heap refines the simple queue: None exactly when it is empty, otherwise its best task, and the others keep their order |
| `Scheduler.TaskScheduler.PassOnce` | src/mcp_agent_factory/scheduler.py:110-128 | One pass of the loop, with tasks arriving before it and during the handler, is one step of the model on the simple queue |
| `SchedulerOutcomes.PassOutcome` | src/mcp_agent_factory/scheduler.py:110-158 | One pass hands the best waiting task to the handler; if it returns the task is completed, if it raises with retries left the task goes to the end of the inbox with one more retry, if it raises without it has failed; nothing else changes |
| `SchedulerOutcomes.OutcomesFollowHandler` | src/mcp_agent_factory/scheduler.py:138-158 | After any run a task is completed if and only if its last attempt did not raise, and failed if and only if it has had all attempts it is allowed and every one raised |
| `Scheduler.TaskScheduler.Run` | src/mcp_agent_factory/scheduler.py:109-132 | The loop makes passes until the first one during which stop is called, and then leaves heap and inbox empty if and only if at most one task was waiting in that pass, none arrived during it and the one dispatched did not come back |
| `Scheduler.StopLeavesQueued` | src/mcp_agent_factory/scheduler.py:99-132 | A run of two waiting tasks in which stop is called during the first pass ends with the second in the heap, whatever the handler does |
| `Scheduler.LeavesNothingExactly` | src/mcp_agent_factory/scheduler.py:104-128 | For every state and every input a pass ends with queue and inbox empty if and only if nothing arrived during it, at most one task was waiting, and it did not raise with retries left |
| `SchedulerRuns.ConservedAndBounded` | src/mcp_agent_factory/scheduler.py:109-158 | After any run every submitted task is in exactly one of inbox, queue, completed and failed; none is dispatched more often than its retries allow; a failed task exactly that often |
| `SchedulerRuns.RunInv` | src/mcp_agent_factory/scheduler.py:109-158 | Every pass keeps the place and the retry count of every task in step with the number of its dispatches |
| `SchedulerRuns.DispatchesAreBounded` | src/mcp_agent_factory/scheduler.py:109-158 | Over any run, dispatches so far plus attempts still left never exceed the attempts granted by the submissions |
| `SchedulerRuns.EverythingSettles` | src/mcp_agent_factory/scheduler.py:109-158 | Once submissions end, as many passes as there are attempts left empty inbox and queue, and every submitted task is completed or failed |
| `Chunker.Overlap` | src/mcp_agent_factory/knowledge/chunker.py:58-66 | The backward loop computes the carried sentences and their summed length |
| `Chunker.CarryIsLongestSuffix` | src/mcp_agent_factory/knowledge/chunker.py:58-66 | What is carried over is the longest suffix within the overlap: a suffix fits if and only if it is no longer than it (nothing for a negative overlap) |
| `Chunker.ChunkSentences` | src/mcp_agent_factory/knowledge/chunker.py:39-77 | The packing loop produces the packed groups joined by spaces, at positions 0, 1, 2, …, or the whole text as one chunk when there are no sentences |
| `Chunker.NothingLost` | src/mcp_agent_factory/knowledge/chunker.py:44-75 | The first chunk and the fresh parts of all others are, in order, exactly the sentences; each chunk after the first is its predecessor's carried tail followed by at least one sentence |
| `Chunker.ChunksAreBounded` | src/mcp_agent_factory/knowledge/chunker.py:44-75 | No chunk's summed sentence length exceeds the larger of chunk_size and overlap plus the longest sentence |
| `Chunker.ChunksAreGreedy` | src/mcp_agent_factory/knowledge/chunker.py:44-69 | Beyond its carried part and one fresh sentence a chunk takes a sentence only while both fit into chunk_size, and a chunk is closed only when the next sentence would not fit |
| `Chunker.TextHolds` | src/mcp_agent_factory/knowledge/chunker.py:47 | A chunk's text is its sentences in order with one space between neighbours: any sentence stands in it between the texts of those before and after |
| `Ranking.DcgAtK` | evals/metrics/ranking.py:64-69 | The accumulating loop sums the discounts of the hits among the first k |
| `Ranking.HitGains` | evals/metrics/ranking.py:66-68 | A hit instead of a miss at a place gains exactly the discount of that place |
| `Ranking.NoHitNoGain` | evals/metrics/ranking.py:65-69 | A list without hits gains nothing |
| `Ranking.RecallCounts` | evals/metrics/ranking.py:49-53 | Recall is the number of hits among the first k over the number of relevant chunks, and 1 when nothing is relevant |
| `Ranking.DcgBelowIdealOfHits` | evals/metrics/ranking.py:64-69 | Hits anywhere gain at most what as many hits at the top gain, with equality exactly when they are at the top |
| `Ranking.NdcgNeedsNoClamp` | evals/metrics/ranking.py:72-79 | When the first k have no repeats DCG at k is at most the ideal DCG, so the clamp changes nothing; they are equal if and only if the first min(relevant, k) places exist and are all hits |
| `Ranking.Ndcg` | evals/metrics/ranking.py:72-79 | The score lies in [0, 1]; when the first k have no repeats it is 1 if and only if the first min(relevant, k) places exist and are all hits; the zero-ideal branch is taken exactly when nothing is relevant or k is 0 |
| `Ranking.RecallGrowsWithinOne` | evals/metrics/ranking.py:47-53 | Recall never falls as k grows; when the first k have no repeats it is in [0, 1], and 1 if and only if every relevant chunk is among them |
| `Ranking.RepeatsBreakRecall` | evals/metrics/ranking.py:52-53 | A chunk at two of the first k places, if it alone is relevant, has recall 2 or more |
| `Ranking.RecallIsFractionExactly` | evals/metrics/ranking.py:47-53 | Recall at k is at most 1 for every set of relevant chunks if and only if the first k have no repeats |
| `Ranking.ReciprocalRank` | evals/metrics/ranking.py:56-61 | The reciprocal of the first hit's place, and 0 exactly when there is no hit |
| `Fusion.RrfFusion` | src/mcp_agent_factory/knowledge/vector_store.py:56-74 | The two loops and the sort give every text of either list once, with the sum of 1/(k + rank) over its places as score, in descending order, cut at top_k |
| `Fusion.ShareIsReciprocal` | src/mcp_agent_factory/knowledge/vector_store.py:69-72 | In a list without repeats a text adds 1/(k + rank), and nothing if it is absent |
| `Fusion.FusionIsMonotone` | src/mcp_agent_factory/knowledge/vector_store.py:56-74 | A text ranked at least as well as another in both lists never scores lower |
| `Fusion.SharedBeatsSingle` | src/mcp_agent_factory/knowledge/vector_store.py:62-66 | When no rank exceeds k + 1, a text in both lists strictly outranks every text in one |
| `Fusion.SharedComeFirst` | src/mcp_agent_factory/knowledge/vector_store.py:158-170 | With the limits of search_hybrid (50 results each, k = 60) all texts found by both searches come before all others |
| `Fusion.InMemoryVectorStore.Upsert` | src/mcp_agent_factory/knowledge/vector_store.py:32-33 | The entry is appended to its owner's list and no other owner's list changes |
| `Fusion.InMemoryVectorStore.Search` | src/mcp_agent_factory/knowledge/vector_store.py:35-53 | Results are the owner's own entries with their similarities in descending order, as many as top_k allows, and none left out is more similar than one returned |
| `Statistics.WilsonIsProper` | evals/metrics/statistics.py:48-67 | For 0 <= successes <= n, n > 0, z > 0 the unclamped bounds lie in [0, 1] and enclose the proportion, so the clamps change nothing, and the width is at most minimum_detectable_effect(n) at the same z |
| `Statistics.BoundsSolveScoreEquation` | evals/metrics/statistics.py:51-67 | Both bounds x solve the score equation (p - x)(p - x) = z*z/n x(1 - x) that defines the Wilson interval |
| `Statistics.EffectSquared` | evals/metrics/statistics.py:75-78 | The minimum detectable effect is the non-negative number whose square is z*z/n, and 1 when n is 0 |
| `Statistics.ProportionIs` | evals/metrics/statistics.py:48-65 | The reported proportion times n is the number of successes, and no trials give the interval [0, 1] |
| `Statistics.Encloses` | evals/metrics/statistics.py:52-58 | The centre minus and plus the spread enclose the proportion, both sides scaled by the denominator |
| `Statistics.WidthBound` | evals/metrics/statistics.py:55-78 | The spread is at most half the detectable effect, scaled by the denominator |
| `Agreement.KappaIsProper` | evals/judge/judge.py:151-176 | For equal-length non-empty lists kappa lies in [-1, 1], is 1 if and only if all verdicts agree (also when p_e = 1), the confusion counts sum to n and accuracy is (tp + tn)/n |
| `Agreement.KappaFromCounts` | evals/judge/judge.py:158-170 | Kappa is 2(tp*tn - fp*fn) over the sum of the products of opposite marginals, and 1 when that sum is 0 |
| `Agreement.CountsAddUp` | evals/judge/judge.py:155-170 | The four counts sum to n and give the marginals and the agreements; there is no false count if and only if the lists are equal |
| `Breaker.CircuitBreaker.Protect` | src/mcp_agent_factory/streams/circuit_breaker.py:29-48 | The call changes the fields as the transition function says, and returns, raises or falls back accordingly |
| `Breaker.StateFollowsHistory` | src/mcp_agent_factory/streams/circuit_breaker.py:29-48 | Between calls the breaker is OPEN if and only if the failures since the last success have reached the threshold, otherwise CLOSED, never HALF_OPEN |
| `Breaker.InvokedExactly` | src/mcp_agent_factory/streams/circuit_breaker.py:30-37 | After any calls the next one invokes the function if and only if the failures since the last success are below the threshold or recovery_timeout has passed since the last invocation failed |
| `Breaker.FailingCallsAreRationed` | src/mcp_agent_factory/streams/circuit_breaker.py:30-43 | Started fresh and failing throughout, within a span of time at most threshold + floor(span / recovery_timeout) invocations of the function start, whenever they fail |

## Left out

- Redlock: nodes that lose keys on restart, and clock drift between clients and nodes; the code does not address them.
- Redlock: clients with different node lists or time-to-live values per attempt; one client object has one of each.
- Plan references at the level of characters: the regular expression is taken as given, and a tool's output is never scanned again.
- Duplicate step ids in a plan: the dictionaries of the code merge them, the model requires distinct ids.
- Sorter.TopologicalSorter.Prepare: does not model the depth-first search by which the library finds a cycle; cycles are found by removing free nodes, with the same verdict. Dependency counters are modelled as sets of open dependencies.
- Sorter.TopologicalSorter.Done: does not model the library's errors for unknown or repeated ids, which the executor never causes.
- Executor: the limit on parallel steps is not modelled; every interleaving it allows is among those covered.
- GraphRun: prompts, model calls, JSON extraction, checkpointing and the text of the final result. Human approval pauses and resumes a node before it changes anything, so it is not a state of its own.
- GraphRun: argument dictionaries that cannot be read as plan steps.
- Fleet: liveness. There is no recovery of pending messages in the fleet path and failed publishing is only logged, so jobs may stay pending or running for ever; only safety is proved.
- Fleet: the payload of a job, timestamps, tracing and logging; all workers share one consumer name, as in the code.
- FleetSubmit.Gateway.SubmitBatch: does not model writes of records that raise, which end the request; a publishing that raises is modelled.
- FleetPoll.FleetApi.GetBatch: does not model Redis calls that raise during a poll, which end the request without an answer.
- Scheduler: tasks are values, so a handler that changes the task it is given is not modelled; the waiting timeout and log lines are not either. Task ids are distinct.
- Heap: the heap list is a sequence that the methods reassign.
- Chunker.ChunkSentences: takes the list of sentences as given; splitting text into paragraphs and sentences is not modelled.
- Ranking: rounding for display, and negative k, for which Python counts from the end of the list.
- Ranking: context precision and the averages over queries, which would add only easy members.
- Fusion.RrfFusion: the order among texts of equal score is left open.
- Fusion.InMemoryVectorStore.Search: similarity is any function of the vector; embeddings, norms and the SQL searches are not modelled.
- Statistics.WilsonIsProper: takes z as given; the table of z scores and McNemar's test are not modelled.
- Agreement.KappaIsProper: lists of different lengths, which the code truncates pairwise, are not modelled.
- Breaker: only failures that are ordinary exceptions, and no call of the breaker from inside the protected function. A threshold below one acts as one.
- Floating-point rounding everywhere.
- Adapters, authentication, telemetry, Kafka and HTTP transports, session handling, auctions and prompt optimisation.
