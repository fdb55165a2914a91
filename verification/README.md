# Weaveflow, verified

A Dafny model of the parts of weaveflow where many things happen at once: the wave scheduler with
its parked joins, the protocols that own and control a run, the concurrency limiter, attempts that
race their deadlines, and the pieces of text processing that have a law to keep. Code that updates
state step by step is modelled by classes and methods with loops, each proved against a
specification function or an outright property; validators and tree recursions are functions.
Interleavings are state machines: a `Step` type, an `Enabled` guard, an `Apply` function, an
invariant that every step keeps, and theorems about every execution.

`dafny verify dfyconfig.toml` checks the whole project.

## What is in it

- **Graphs and joins** (`Topology`, `FanIn`). The breadth-first reachability table, the join set, the
  strict upstream order, and the scheduler object whose ready and parked maps are changed in place.
- **Whole runs** (`Validation`, `Routing`, `Waves`, `Resume`, `ResumeExamples`). Which graphs are
  accepted, what routing can answer on them, every run of the wave loop, and what resuming from a
  checkpoint does to it.
- **Ownership of a run** (`Lease`, `LeaseProtocol`, `Runs`, `RunControl`, `Executions`). Lease validators
  over any history, the runners' lease steps with a clock, pause and cancel racing with the end of a run,
  and the executions that hold a run's lease one after the other.
- **Recovery** (`Effects`, `ChildRuns`, `CancelTree`). Compensating an unknown effect, creating child
  runs, and cancelling a tree of paused runs, with crashes, lost answers and other writers.
- **Concurrency inside a process** (`Limiter`, `Attempts`). Permits handed from one caller to the next,
  and the collector that merges one patch per task while abandoned attempts are still running.
- **Text** (`PromptTrim`, `JsonNumber`, `Expressions`, `Text`). Prompt trimming with stable prefixes,
  the end of a JSON number (section 6 of RFC 8259), and condition expressions.

## What turned out to be false

- *Resuming never changes a run.* It holds for checkpoints taken after a wave
  (`Resume.ResumeAfterWaveIsIdentity`). After a single node, the resumed run starts joins at once that
  the live run would park, takes the routed tasks as they stand where the live run sorts and renumbers
  them, and takes dynamic tasks for joins that the live run refuses. `Resume.ResumeAfterNodeAgrees`,
  `Resume.ResumeAfterNodeExact` and `Resume.ResumeAfterSendsAgrees` say exactly when the nodes and when the
  whole schedules agree. In `ResumeExamples.JoinStartedEarly` a join starts early and executes twice; in
  `ResumeExamples.OrderDiffersOnResume` only the order differs; in `ResumeExamples.JoinSentTwice` the live
  run ends with an error and the resumed run executes a join twice.
- *Resuming before a node loses nothing.* It holds for a node alone in its wave
  (`Resume.ResumeBeforeSingleNode`). In a wave of several nodes only the interrupted task is stored:
  `Resume.ResumeBeforeNodeExact` says when joins are released early, and `Resume.SiblingsLostExactly` when
  the run goes on as the uninterrupted one would, for any wave; `Resume.SiblingsLostAcyclic` is what that
  comes to without cycles. In `ResumeExamples.SiblingLostOnResume` a node is never executed.
- *A run that resumes straight to the end drops nothing.* It holds after a wave
  (`Resume.EndAfterWaveDropsNothing`). After a single node that routes to the end, the live run still
  has work exactly when a join is parked (`Resume.EndAfterNodeDropsParked`); in
  `ResumeExamples.JoinLostOnResume` the join is never executed.
- *A canceled run stays canceled.* It holds for every run that is canceled because a cancel request was
  stored on it, as long as its executions hold its lease (`Executions.CancelWins`). A paused run can be
  canceled over the lease of an execution that is about to resume it (`Executions.CanceledOverLease`), and
  goes on exactly if that execution reads it only afterwards and it was paused after a wave
  (`Executions.CanceledForGood`, `Executions.HolderLeavesCanceledExactly`). A run that is resumed from a terminal status holds no lease:
  acquiring skips terminal runs and the resume goes on without a guard. Such a resume sets a canceled run
  running (`RunControl.CanceledRunIsResumed`), and two of them are not kept apart
  (`RunControl.CanceledRunIsPaused`). `RunControl.CanceledLeftExactly` lists the writers.
- *A cancelled tree stays over.* Exactly if it is over with all children counted that its runs have
  reserved (`CancelTree.StaysOverExactly`): linking a reserved child does not look at the status of its
  parent (`CancelTree.ReservedChildReopens`). What the walk itself has seen is over in any case
  (`CancelTree.CancelService.CancelPausedRun`).
- *Trimming keeps tool results with their calls.* It holds at stable boundaries
  (`PromptTrim.StablePromptIsPaired`). In the fallback `PromptTrim.FallbackPairing` says from the costs
  and roles alone when it fails, and `PromptTrim.LonelyResult` is a whole family of conversations that
  lose the call. The adjustment the fallback makes for this never applies when the last message fits:
  the suffix it starts from cannot be extended.
- *The prompt of a growing conversation keeps its prefix.* While the stable start stays, exactly if the
  new messages do not bring the first human message (`PromptTrim.PromptStaysPrefix`,
  `PromptTrim.LateHumanOccurs`).
- *Reading back a stored expression gives its normal form.* Exactly for the valid ones
  (`Expressions.RoundTrip`). An invalid one can read back as a different, valid expression
  (`Expressions.StrayValueIsForgotten`, `Expressions.InvalidReadsBackValid`), because the stored form
  leaves out the fields of the other kind.
- *Abandoned attempts leave nothing in the collector.* No branch is left
  (`Attempts.NothingLeftBehind`); a mark is, in the case `Attempts.MarksLeftExactly` describes.

## Model

| member | source | states |
|---|---|---|
| `Topology.ReachableFrom` | graph/scheduler.go:1141-1166 | the search marks exactly the nodes a non-empty path of default or conditional edges leads to without passing the end |
| `Topology.CompileReachability` | graph/scheduler.go:1139-1158 | the table has one exact row per node |
| `Topology.CompileJoinNodes` | graph/scheduler.go:1106-1137 | exactly the nodes with two different predecessors, the end excepted |
| `Topology.StrictUpstreamTransitive` | graph/scheduler.go:1058-1063 | strictly upstream is transitive on every graph, cyclic or not |
| `Topology.CycleMembersDoNotBlock` | graph/scheduler.go:1058-1063 | helper: nodes of one cycle never block each other |
| `FanIn.Scheduler.ReleasePendingFanIn` | graph/scheduler.go:1026-1056 | the loop ends, moves whole tasks without changing the union, and releases exactly the parked joins with nothing strictly upstream among ready and parked, whatever the order |
| `FanIn.Scheduler.ValidateNextTasks` | graph/scheduler.go:750-781 | accepts exactly the lists in which every dynamic task for a join has that join to itself: not parked, no other task for it, none strictly upstream of it |
| `FanIn.RefusedExactly` | graph/scheduler.go:750-781 | the same read the other way: a list is refused if and only if a dynamic task in it is for a join that is parked, has another task, or has a task strictly upstream |
| `FanIn.Scheduler.Next` | graph/scheduler.go:980-1001 | the wave and the parked map are the specified split of all static work, dynamic tasks last |
| `FanIn.Scheduler.Resume` | graph/scheduler.go:1003-1024 | the same for a stored schedule, whose tasks start at once together with what is parked for their nodes |
| `FanIn.ScheduleKeepsFailures` | graph/scheduler.go:1300-1305 | in both schedules every static task, ready or parked, is the one to be kept for its node: of the parked task and the arrivals in order the first with a failure, and without one the first |
| `FanIn.ParkedHasReadyBlocker` | graph/scheduler.go:1026-1063 | behind every join that stays parked there is a strictly upstream node, not the end, in the ready part |
| `Validation.ReachableNodes` | graph/validation.go:157-190 | exactly the nodes on a path from the entry, failure routes counted |
| `Validation.TerminalReachableNodes` | graph/validation.go:192-252 | the backward search marks exactly the nodes that lead to one that can end the run |
| `Validation.CheckEdgeRules` | graph/validation.go:23-100 | the loops over the edges accept exactly the graphs that keep the rules, duplicates and fallbacks included |
| `Validation.Validate` | graph/validation.go:38-143 | accepts exactly the graphs that keep the edge rules and whose every node lies between entry and end |
| `Validation.AcceptedExactly` | graph/validation.go:115-143 | lying between means: on a walk along default, conditional or failure edges from the entry to the finish point or to a node with an edge to the end |
| `Routing.TaskOrder` | graph/execution.go:103-116 | the order of dynamic tasks is a strict weak order |
| `Routing.SortTasksCorrect` | graph/execution.go:103-116 | sorting keeps every task and puts them in order |
| `Routing.SortIsStable` | graph/execution.go:103-116 | tasks the order does not tell apart keep their places among each other |
| `Routing.SortedByKeys` | graph/execution.go:103-116 | sorted tasks go by order key first, then by correlation key, then by task id |
| `Routing.FirstMatchDecides` | graph/execution.go:43-63 | the first condition that matches decides: a plain decision leads to the target of that very edge, named targets are taken in their order, sends become one task each, with all their fields, sorted and numbered; an unknown name is refused |
| `Routing.NoMatchTakesFirstDefault` | graph/execution.go:64-72 | if no condition matches, the first default edge is taken, without one the finish point ends the run, and any other node is refused |
| `Routing.NoConditionTakesAllDefaults` | graph/execution.go:73-80 | without conditions all default edges are taken in order, without any the finish point ends the run, and any other node is refused |
| `Routing.FirstFailureIsReported` | graph/execution.go:34-58 | an unknown node is refused; otherwise the first condition or observer that fails ends routing with its own error |
| `Routing.RoutingNeverStuck` | graph/execution.go:26-138 | on an accepted graph routing reports an error of a condition, observer or decision, or names at least one known target; never a missing edge |
| `Routing.PlainRouting` | graph/execution.go:26-80 | when decisions only match or not, every task is static and follows an edge or goes to the end |
| `Waves.NoUpstreamActive` | graph/scheduler.go:139-360 | in every run no node executes while something strictly upstream is in the wave or parked |
| `Waves.ExecutesAtMostOnce` | graph/scheduler.go:139-360 | two tasks of a run for one node are the same task of the same wave: every node executes at most once |
| `Waves.AtMostOnce` | graph/scheduler.go:139-360 | helper: different waves of a run have no node in common |
| `Waves.RunsFollowPaths` | graph/scheduler.go:980-1063 | if one node leads to another and both execute, it executes in an earlier wave |
| `Waves.EndsWithNothingParked` | graph/scheduler.go:151-157 | a run that runs out of tasks has no join parked |
| `Waves.WavesBounded` | graph/scheduler.go:139-360 | a run has at most as many waves as the graph has nodes |
| `Waves.Invoke` | graph/scheduler.go:139-360 | the wave loop produces a run and completes exactly when nothing is left; every wave but the last kept within the super-step, fan-out and node-execution limits, in numbers, and each limit ends the run if and only if its bound is the first to be exceeded in the last wave; without cycles it always completes with nothing parked if the fan-out limit is above the number of nodes and the others are at least that |
| `FanIn.ListedAscends` | graph/scheduler.go:1273-1298 | a map of tasks is listed by node id, ascending, each node once |
| `Resume.ParkedRoundTrip` | graph/scheduler.go:1273-1298 | listing the parked joins and reading the list back gives the same map |
| `Resume.ResumeAfterWaveIsIdentity` | graph/scheduler.go:980-1024 | resuming the schedule stored after a wave gives back that schedule, tasks, order and parked joins |
| `Resume.EndAfterWaveDropsNothing` | runtime/graph_runner.go:1723 | an after-wave schedule that resumes straight to the end has nothing parked |
| `Resume.ResumeBeforeSingleNode` | runtime/graph_runner.go:3039-3047 | resuming before a node that has its wave to itself gives back its task and the parked joins |
| `Resume.ResumeBeforeNodeExact` | runtime/graph_runner.go:2255-2263 | for any wave, the stored task and the parked joins come back unchanged if and only if every parked join still has something strictly upstream among them |
| `Resume.SiblingsLostExactly` | runtime/graph_runner.go:2255-2263 | for any wave, cycles and dynamic tasks included, the run resumed before one of its nodes goes on with the same nodes as the uninterrupted one, running and parked, if and only if nothing the other nodes routed to is lost, every join released early is routed to once more, and those joins routed to nothing new, the end excepted |
| `Resume.SiblingsLostAcyclic` | runtime/graph_runner.go:2255-2263 | on an accepted graph without cycles this comes to: every parked join keeps waiting, and the other nodes routed to nothing new |
| `Resume.ResolveCommands` | graph/scheduler.go:828-953 | the loop over a finished wave whose nodes gave no command gathers what they routed to into the live list |
| `Resume.LiveTasksAre` | graph/scheduler.go:928-953 | that list is one plain task per node by ascending id, then the dynamic tasks by their keys, numbered throughout |
| `Resume.ResumeAfterNodeAgrees` | runtime/graph_runner.go:3055-3067 | after a single node the live run, which sorts, renumbers and checks what was routed, and the resumed run, which takes it as it is, keep the same nodes parked if and only if the live run refuses nothing and no task routed to is a join with something strictly upstream still active, and then run the same nodes |
| `Resume.ResumeAfterNodeExact` | graph/scheduler.go:928-953 | for nodes routed to by edges the two schedules are equal, order included, if and only if moreover the nodes not parked already were routed to in the places of their ids |
| `Resume.ResumeAfterSendsAgrees` | graph/scheduler.go:328 | for dynamic tasks the two schedules are equal if and only if the live run does not refuse the tasks |
| `Routing.RoutedTasksAre` | graph/execution.go:26-138 | routing answers with static tasks numbered as they stand or with dynamic tasks in order, never with a mixture, so the two statements above cover every case |
| `Resume.EndAfterNodeDropsParked` | runtime/graph_runner.go:1723 | when that node routes to the end only, the live run has work left if and only if a join is parked |
| `ResumeExamples.JoinLostOnResume` | runtime/graph_runner.go:1783-1786 | an accepted graph and a run on it that executes a join in its third wave, which the run resumed after the second drops |
| `ResumeExamples.JoinStartedEarly` | runtime/graph_runner.go:3055-3067 | an accepted acyclic graph where the resumed run starts a join together with a node that leads to it, and executes it a second time |
| `ResumeExamples.OrderDiffersOnResume` | runtime/graph_runner.go:3062-3066 | for every node with two edges against the order of their ids, no join and nothing parked, the resumed run numbers its tasks the other way round |
| `ResumeExamples.JoinSentTwice` | graph/scheduler.go:122 | an accepted graph and a run on it whose second node sends two tasks to a join: the live run refuses them, the resumed run executes both |
| `ResumeExamples.SiblingLost` | runtime/graph_runner.go:2255-2263 | helper: if of two nodes in a wave, with nothing parked, one routes on and the other to the end, the run resumed before the second never executes what the first routed to |
| `ResumeExamples.SiblingLostOnResume` | runtime/graph_runner.go:2255-2263 | an accepted graph and a run on it that executes two nodes in its second wave and a third after them, which the run resumed before one of the two never executes |
| `Lease.AcquireExactly` | runtime/execution_lease.go:170-192 | between valid leases, taking one is accepted if and only if it is active with the next epoch and another token, and the old one is released or has run out |
| `Lease.HeartbeatExactly` | runtime/execution_lease.go:193-203 | renewing is accepted if and only if the lease is active, only its heartbeat and expiry change, and neither goes back |
| `Lease.ReleaseExactly` | runtime/execution_lease.go:204-212 | releasing is accepted if and only if the lease was active and keeps its owner, token, epoch and time of acquisition |
| `Lease.OtherWritesExactly` | runtime/execution_lease.go:127-168 | every other write is accepted if and only if it leaves the lease alone and, unless it deletes the run, presents token and epoch of an active one; a commit presents nothing otherwise |
| `Lease.BadLeaseIsRefused` | runtime/execution_lease.go:80-108 | a lease with a bad name, an epoch out of range, a time missing, or its times the wrong way round is refused in every write, as the old one and as the new one |
| `Lease.EpochNeverDecreases` | runtime/execution_lease.go:127-216 | over any history of accepted writes |
| `Lease.GuardNeverReturns` | runtime/execution_lease.go:110-216 | a guard that stopped matching never matches again |
| `Lease.GuardedCommitsInEpochOrder` | runtime/execution_lease.go:127-138 | later guarded commits have a later epoch or the very same guard |
| `Lease.ActiveLeaseFencesWrites` | runtime/execution_lease.go:127-168 | helper: while a lease is active an accepted write carries its token and epoch and leaves it alone |
| `LeaseProtocol.WindowsDoNotOverlap` | runtime/graph_runner_lease.go:31-166 | however runners interleave under a clock that does not go back, validity windows of different epochs are disjoint and in order |
| `LeaseProtocol.ActiveLeaseChangesBy` | runtime/graph_runner_lease.go:31-166 | over every execution an active lease changes only by a heartbeat or release that presents its token and epoch, or after it has run out |
| `LeaseLoops.AcquireExecutionLease` | runtime/graph_runner_lease.go:43-76 | success replaced a record that was neither terminal, held nor being deleted, changed only its lease, and took the next epoch under the given owner, from the moment of the call for the given time; the failures say what they saw; undisturbed over a free lease it succeeds |
| `LeaseLoops.HeartbeatExecutionLease` | runtime/graph_runner_lease.go:94-131 | success moves the times of the caller's own lease to the moment of the call and nothing else; undisturbed it succeeds |
| `LeaseLoops.ReleaseExecutionLease` | runtime/graph_runner_lease.go:133-166 | success leaves the caller's own lease released, at the moment of the call or before, so its guard no longer matches; undisturbed it succeeds |
| `RunControl.CommitRunUpdateWithRetry` | runtime/graph_runner.go:2410-2464 | what is committed is the update of the record it replaces, never of an older one, and under the same lease; undisturbed, with the guard that fits the lease, it commits whatever there is to commit |
| `RunControl.ActiveRunEnds` | runtime/graph_runner.go:2316-2330 | what completing, failing, giving up, pausing and cancelling store over an active run: nothing if it is being deleted, canceled if a cancel was requested; for completing and failing paused if a pause was, which needs a checkpoint; and otherwise completed, failed, failed, paused and canceled |
| `RunControl.ResumeSetsRunning` | runtime/graph_runner.go:1736-1745 | a resume sets the run running if its status is the expected one or active, cancels it if that was requested, and stores nothing otherwise or over a run being deleted |
| `RunControl.RequestsAreStored` | runtime/graph_runtime.go:232-298 | requests are stored on active runs only, and a cancel request takes the place of a pause request |
| `RunControl.OneStatusWriters` | runtime/run_control.go:83-100 | what cancelling a paused run, declaring an execution lost and finishing an effect resolution store, and over which status only |
| `RunControl.StatusChangesAre` | runtime/graph_runner.go:2304-2464 | over every execution a status changes only by a commit of a writer that stands for it: to completed only by completing, to failed only by failing, giving up or a lost execution, to running only by a resume, to pending never |
| `RunControl.CommitKeepsCancel` | runtime/graph_runner.go:2304-2464 | helper: each single commit over a run with a cancel request keeps the request or cancels the run |
| `RunControl.CanceledLeftExactly` | runtime/graph_runner.go:2304-2322 | helper: which writers move a canceled run elsewhere, both directions |
| `RunControl.CancelIsNeverLost` | runtime/graph_runtime.go:149-298 | over all interleavings the first change of status after a committed cancel request is to canceled |
| `Executions.CancelWins` | runtime/graph_runner.go:2882-2921 | from the request on the run is only ever waiting to be canceled or canceled for good, whatever executions, takeovers of the lease, requests, cancelled pauses and second looks at a failed execution race with it |
| `Executions.HolderLeavesCanceledExactly` | runtime/graph_runner.go:1404-1410 | an execution that holds the lease moves a canceled run elsewhere if and only if it read the run as canceled, at an after-wave checkpoint, and there is no cancel request |
| `Executions.CanceledForGood` | runtime/graph_runner_lease.go:78-92 | some continuation leaves the canceled status if and only if the holder of the lease has not read the run yet, or read it as canceled, the last checkpoint was then taken after a wave, and the run has no cancel request and is not being deleted |
| `Executions.CanceledOverLease` | runtime/run_control.go:276-284 | every paused run can be canceled over the lease of an execution that has not read it yet, and can then go on if and only if it was paused after a wave |
| `RunControl.CanceledRunIsResumed` | runtime/graph_runner.go:1404-1410 | any canceled run without open requests can be set running again by a resume |
| `RunControl.CanceledRunIsPaused` | runtime/graph_runner.go:2316-2322 | without a lease, a second resumption that carries a pause request completes a canceled run as paused, both commits being accepted without a guard |
| `RunControl.PauseIsNeverOvertaken` | runtime/graph_runner.go:2666-2805 | after a committed pause request the first change of status is to paused or canceled |
| `Effects.CompensatedAtMostOnce` | runtime/effect_resolution.go:64-139 | over all interleavings, replays, lost answers and crashes compensation is invoked at most once, and a step is marked compensated only if that invocation succeeded |
| `Effects.ResolutionIsFinal` | runtime/effect_resolution.go:233-270 | a resolution keeps its identity for good and never changes once it left the intent |
| `Effects.OneHolder` | runtime/effect_resolution.go:531-552 | two calls never work on a step at the same time |
| `Effects.BadResolutionIsRefused` | runtime/effect_resolution.go:170-231 | a resolution without actor or reason, or whose effect, error or mark does not go with its status, is never stored |
| `Effects.RecoveryGoesByJournal` | runtime/effect_resolution.go:468-516 | a repeated call goes by the last journal entry: nothing means compensate, a success is completed without invoking again, anything else is given up |
| `Effects.CompensationGetsDone` | runtime/effect_resolution.go:296-336 | from every undecided step there is a run of a compensation that invokes it once and ends compensated if it succeeded, and otherwise unknown with the error |
| `Effects.ConfirmationGetsDone` | runtime/effect_resolution.go:64-139 | from every undecided step there is a run of a confirmation that ends with the step marked not applied and no compensation |
| `ChildRuns.PendingChildRunByKey` | runtime/graph_runner.go:932-946 | the count and the last of the reservations with the key |
| `ChildRuns.ReservePendingChildRun` | runtime/graph_runner.go:826-869 | all refusals, the existing reservation, the existing link, or the new reservation |
| `ChildRuns.ReserveUnderNewKey` | runtime/graph_runner.go:826-869 | under a key nobody uses a complete request to a parent that takes it reserves the child or finds it linked, and any other is refused |
| `ChildRuns.ReserveUnderUsedKey` | runtime/graph_runner.go:987-1011 | under the key of a single reservation a complete request to a parent that takes it gets that one if and only if task, graph reference, id, version, both hashes, session, namespace and input are all the same and the child is not linked yet |
| `ChildRuns.FinalizePendingChildRun` | runtime/graph_runner.go:871-930 | all refusals, the existing link, or the reservation turned into a link |
| `ChildRuns.ReserveKeepsChildState` | runtime/run_deletion.go:1098-1130 | reserving keeps links distinct, keys distinct, and links apart from reservations |
| `ChildRuns.FinalizeKeepsChildState` | runtime/run_deletion.go:1098-1130 | linking keeps the same and leaves the child linked |
| `ChildRuns.ReserveThenFinalize` | runtime/graph_runner.go:826-930 | linking a fresh reservation undoes it and adds one link, whatever else is pending |
| `ChildRuns.RepeatedReserve` | runtime/graph_runner.go:826-869 | asking again returns the first reservation if every field but the step is the same, and is refused otherwise |
| `ChildRuns.ChildrenStayConsistent` | runtime/graph_runner.go:651-716 | over any retries, races and crashes no child is created twice, every child is reserved or linked and not both, and every link leads to a child |
| `ChildRuns.ReturnedChildStaysLinked` | runtime/graph_runner.go:651-716 | a call that passed finalize has its child linked exactly once in every later state, unchanged |
| `ChildRuns.LinkedChildIsAskedFor` | runtime/graph_runner.go:651-716 | over every execution the child a call returns has the parent and, field by field, the work that very call began with |
| `ChildRuns.CreatedUnderReservation` | runtime/run_deletion.go:1062-1096 | a child is only ever created under a reservation and a parent that is not being deleted |
| `ChildRuns.RequestGetsDone` | runtime/graph_runner.go:651-716 | a first complete request has a run that ends with its child created from the request and linked, and nothing pending |
| `ChildRuns.RetryGetsDone` | runtime/graph_runner.go:664-684 | a repeated request for a child that exists has a run that ends with that child linked and nothing created |
| `CancelTree.CancelService.CancelPausedRun` | runtime/run_control.go:125-210 | terminates on any child graph, other writers adding links; success means the run is canceled and every line of descent from it ends in a run that is over and meets no run twice, unless it follows a link made out of a reservation after the walk was through with the parent; so everything below is over if nothing was linked since, which holds whenever nobody else writes, and over for good if nothing was reserved; in any case no run was canceled above a linked child that was not over; an orderly tree left alone is always cancelled |
| `CancelTree.CancelService.Cancel` | runtime/run_control.go:140-210 | the recursion with its visit map, retries and other writers: children finish before their parents |
| `CancelTree.FinishedTreeIsOver` | runtime/run_control.go:140-210 | finishing children first, with nothing reserved, implies that every line of descent ends in a run that is over and meets no run twice |
| `CancelTree.StaysOverExactly` | runtime/graph_runner.go:871-930 | a tree is over whatever other writers do from now on if and only if it is over with the reserved children counted as linked |
| `CancelTree.ReservedChildReopens` | runtime/run_deletion.go:1062-1096 | a canceled run with a child reserved that is not over does not stay over |
| `Limiter.ConcurrencyLimiter.TryAcquire` | core/concurrency.go:59-71 | succeeds exactly below the limit and then takes one permit |
| `Limiter.ConcurrencyLimiter.AcquireWaiter` | core/concurrency.go:73-83 | a permit below the limit, otherwise a new waiter at the end of the queue |
| `Limiter.ConcurrencyLimiter.CancelWaiter` | core/concurrency.go:85-97 | takes out that waiter only, and says whether it was still queued |
| `Limiter.ConcurrencyLimiter.Release` | core/concurrency.go:106-117 | hands the permit to the head of the queue or gives it back |
| `Limiter.PermitsAreConserved` | core/concurrency.go:20-117 | over all interleavings, a cancel racing with a hand-over included, the counter is the number of permits out, within the limit, and zero when nobody is left |
| `Limiter.NoOvertaking` | core/concurrency.go:59-83 | while someone is queued an attempt fails and an arrival queues behind |
| `Limiter.FirstComeFirstServed` | core/concurrency.go:106-117 | a returned permit goes to the client queued longest |
| `Attempts.NodeAttempt.TryAccept` | runtime/runner_graph.go:46-62 | accepting is final, repeatable, and fails exactly after an abandonment |
| `Attempts.NodeAttempt.TryAbandon` | runtime/runner_graph.go:65-67 | abandoning succeeds exactly while undecided |
| `Attempts.PatchCollector.RecordPatch` | graph/graph.go:674-707 | nothing is recorded for an abandoned task, otherwise its branch is replaced in place or appended |
| `Attempts.PatchCollector.AbandonTask` | graph/graph.go:709-736 | the task is marked and its branch becomes empty |
| `Attempts.PatchCollector.ReleaseAbandonedTask` | graph/graph.go:738-749 | the mark goes, the branches stay |
| `Attempts.PatchCollector.FindPatch` | graph/graph.go:793-805 | whether the task has a branch |
| `Attempts.PatchCollector.Consume` | graph/graph.go:807-816 | all branches of the wave, and nothing left |
| `Attempts.DeadlineIsFinal` | graph/scheduler.go:486-531 | once the deadline won, the result is never committed, never received and merges as an empty patch, in every later state |
| `Attempts.OnePatchPerTask` | graph/compile.go:155-168 | the merge gets exactly one patch per task: empty if abandoned, the node's own if it completed |
| `Attempts.NothingLeftBehind` | graph/compile.go:110-124 | goroutines that outlive the merge leave no branch behind |
| `Attempts.MarksLeftExactly` | graph/scheduler.go:486-531 | a mark is there while its abandoned worker goes on, and is left behind if and only if that worker was gone before the abandonment was stored |
| `Attempts.RecordedPatchIsKept` | graph/compile.go:110-124 | there is a run of an attempt in time that is committed with what the node recorded, whatever it returned |
| `Attempts.ReturnedPatchIsKept` | graph/compile.go:110-124 | without a record there is one in which the node's result is the patch |
| `Attempts.FailureIsRetried` | graph/scheduler.go:486-531 | there is a run in which a first attempt fails and the record of the second replaces its empty patch |
| `Attempts.InterruptKeepsPatch` | graph/compile.go:110-124 | there are runs in which a node that interrupts the run keeps what it recorded, and one that fails loses it |
| `Attempts.DeadlineAbandons` | graph/scheduler.go:486-531 | there is a run in which the deadline comes first, the task fails with an empty patch, and the mark goes with the worker |
| `PromptTrim.PromptMessageCharCount` | node/message_helpers.go:318-342 | the cost of a message |
| `PromptTrim.StablePromptTrimStart` | node/message_helpers.go:221-246 | the first boundary, counted from the front, whose suffix fits the budget |
| `PromptTrim.BoundariesOnlyGrow` | node/message_helpers.go:218-235 | new messages never move a boundary, they only add some |
| `PromptTrim.SegmentsArePaid` | node/message_helpers.go:225-235 | the boundaries after the first times the segment size are at most the total cost |
| `PromptTrim.StableIndexGrows` | node/message_helpers.go:218-246 | the chosen boundary never moves back |
| `PromptTrim.JumpsArePaid` | node/message_helpers.go:172-246 | over any growing conversation, the changes of the start times the segment size are at most the total cost |
| `PromptTrim.PromptStaysPrefix` | node/message_helpers.go:175-216 | for the whole prompt: while the start stays, the old prompt is a prefix of the new one if and only if the new messages do not bring the first human message; then the start also moves only forward, and otherwise the old prompt is never a prefix |
| `PromptTrim.LateHumanOccurs` | node/message_helpers.go:190-203 | a conversation whose first human message comes late, with stable starts before and after |
| `PromptTrim.TrimLLMPromptMessages` | node/message_helpers.go:175-216 | the kept systems and first human message followed by the chosen suffix, in all cases |
| `PromptTrim.StablePromptFits` | node/message_helpers.go:202-216 | a prompt from a stable boundary costs at most the limit |
| `PromptTrim.AdjustReducerTailStart` | node/message_helpers.go:67-81 | the last clean cut at or before the start |
| `PromptTrim.FittingPromptTailStart` | node/message_helpers.go:257-284 | if the last message fits, the longest suffix that fits; otherwise the last message, with its tool exchange if that fits |
| `PromptTrim.StablePromptIsPaired` | node/message_helpers.go:248-255 | at a stable boundary no tool result loses its call |
| `PromptTrim.StableStartCutsNoExchange` | node/message_helpers.go:248-255 | a stable start after the first message begins with no tool result and follows no message with tool calls |
| `PromptTrim.FallbackPairing` | node/message_helpers.go:257-284 | in the fallback a result loses its call if and only if the room runs out just in front of a result or, when not even the last message fits, that message is a result whose exchange does not fit |
| `PromptTrim.LonelyResult` | node/message_helpers.go:257-284 | every conversation whose result fits and whose call does not keeps the result alone |
| `JsonNumber.JsonNumberEnd` | core/model_execution.go:381-419 | the end of the longest number at the start, and false exactly if there is none |
| `JsonNumber.LongerThan` | core/model_execution.go:381-419 | any reading by the grammar ends no later than the scan |
| `Expressions.NormalizeIdempotent` | builtin/conditions.go:595-610 | normalising twice is normalising once |
| `Expressions.NormalizeIsNormalForm` | builtin/conditions.go:595-610 | normalising trims the texts and lowers the keywords, field by field and in every child, and nothing else |
| `Expressions.ValidateNormalized` | builtin/conditions.go:518-557 | an expression is valid if and only if its normal form is |
| `Expressions.ValidIsWellFormed` | builtin/conditions.go:518-557 | validating the normal form at every level accepts exactly the trees that are well formed as written |
| `Expressions.MatchNormalized` | builtin/conditions.go:673-713 | normalising does not change the value on any state |
| `Expressions.MatchIsMeaning` | builtin/conditions.go:673-789 | the evaluator, which normalises at every level, computes the meaning read off the tree as written, comparisons included: what a path leads to, equal text, an item of a list or a part of a text |
| `Expressions.NegatedOperator` | builtin/conditions.go:700-713 | helper: a negated operator decides the opposite on every state, missing values included |
| `Expressions.ParsedIsNormal` | builtin/conditions.go:612-671 | what the parser accepts is valid and normal |
| `Expressions.RoundTrip` | builtin/conditions.go:559-576 | parsing the stored form gives the normal form if and only if the expression is valid |
| `Expressions.StoredFields` | builtin/conditions.go:559-576 | what is stored of an expression: path, operator and value of a leaf, operator and children of a composite, in normal form, and no other field |
| `Expressions.ParserTakes` | builtin/conditions.go:612-671 | besides stored objects the parser takes expressions, well formed ones only and normalised, and as a list also a list of expressions or nothing |
| `Expressions.StrayValueIsForgotten` | builtin/conditions.go:559-576 | every valid composite that is given a value as well is invalid and reads back as what it was before |
| `Expressions.StrayChildrenAreForgotten` | builtin/conditions.go:559-576 | the same for a valid leaf that is given children |
| `Expressions.InvalidReadsBackValid` | builtin/conditions.go:559-576 | a concrete invalid expression that reads back as a different, valid one |
| `Expressions.ConfigRoundTrip` | builtin/conditions.go:475-516 | the same for whole configurations |
| `Expressions.ValidConfigIs` | builtin/conditions.go:488-506 | a configuration is valid if and only if it has expressions, all well formed, and says all, any or nothing |
| `Expressions.DecisionIsMeaning` | builtin/conditions.go:438-473 | it decides by what its expressions mean as written: one of them for any, all of them otherwise |
| `Expressions.StoredConfigDecidesTheSame` | builtin/conditions.go:438-473 | a valid configuration decides the same on every state after being stored and read back |

## Left out

- Runs with `Send`, `Goto`, `Return`, decision targets or failure routes: `Waves` speaks about routing by default and conditional edges. The scheduler steps and `Resume` do cover dynamic tasks.
- State merge, patches, reducers, contracts and codecs: a patch is an opaque list of changes.
- Store, file, transaction and task-queue implementations: a write is one step that checks the revision and the validators. Deleting runs is left out, except for the flag that refuses writes.
- Resuming a failed or canceled run while its tree is being cancelled: `CancelTree` takes a terminal run as staying so, and parents as fixed. Runs created meanwhile are runs that nobody had linked, finitely many.
- Child runs found under a second parent: a run already visited is not checked against its second parent, so success does not say that every link is mutual.
- The limits on wall time and on the size of the state, and retried attempts, which claim node executions again: `Waves.Invoke` has one attempt per node. Limits are at least one, as the validation of policies demands (runtime/execution_policy.go:96-115). The fan-out limit is left out of `Resume`.
- Checkpoints of agent nodes and the restored command of a node that answered with one.
- Resuming from a chosen older checkpoint: the executions of `Executions` resume from the run's last one.
- Wall-clock time, backoff and jitter: deadlines and retries are steps that may happen at any moment. The clock of the lease protocol does not go back.
- A lease holder whose lease expired and was not taken over may still commit; nothing here says otherwise. The lease validators alone do not tie acquisition times to the clock, so `LeaseProtocol.WindowsDoNotOverlap` is about the runners' steps.
- Declaring an execution lost ignores requests, and giving up on a run that never started ignores pause requests: those writers are excluded from `RunControl.CancelIsNeverLost`, `RunControl.PauseIsNeverOvertaken` and `Executions.CancelWins`. The last is about runs whose executions hold the lease, one execution per lease; so are `Executions.HolderLeavesCanceledExactly` and `Executions.CanceledForGood`.
- Effect resolution in two runners at once: the claim that keeps calls apart lives in one runner's memory. Operations a node journals itself are taken to have other keys than the compensation.
- Finishing an effect resolution without looking at the run's status again: it is modelled as a write over a failed run, since runs with an unresolved effect are not resumed.
- Nested tool permits (`AcquireToolExecution`), event analysis, registries, providers, tools and the web interface: easy members or plumbing.
- `Validation.Validate`: covers the edge rules and the topology; execution policies, condition and failure-route specs and state contracts are not checked.
- `Text.ToLower`: lower-cases only what becomes an ASCII letter, which is all that keywords depend on.
- `PromptTrim.PromptMessageCharCount`: takes the text of a tool result and of unknown parts as given, and role names as ASCII.
- `Routing.SortTasksCorrect`: dynamic task ids are taken as given digests, and the sort is modelled on values, not in place.
- `ChildRuns.ReservePendingChildRun`: request keys are taken as given; the hash behind them and the reservation time are left out.
- `Expressions.NormalizeIdempotent`: rests on `Text.ToLower`, so it says nothing about letters outside ASCII that stay outside.
- `Expressions.MatchIsMeaning`: resolving a path inside a state value is a lookup table, and values are seen as their text and list items.
- A node registered under the name of the end is treated as the end: registration does not refuse it, and the model follows the code.
