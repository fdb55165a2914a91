/** Whole runs of the wave scheduler. The main results speak about every run of a graph without
    cycles whose routing follows its default and conditional edges. */
module Waves {
  import opened Text
  import opened Topology
  import opened FanIn
  import opened Validation
  import opened Routing

  // ----- runs -----

  /** Node ids as AddNode registers them. */
  ghost predicate Registered(g: Graph) {
    forall n :: n in g.nodes ==> n != "" && Trimmed(n)
  }

  ghost predicate Acyclic(g: Graph) {
    forall n :: !Reaches(g, n, n)
  }

  /** How each node's conditions answer in one wave. */
  type Answers = NodeId -> (nat -> Evaluation)

  ghost predicate PlainAnswers(answers: Answers) {
    forall n, i :: Plain(answers(n)(i))
  }

  /** The nodes the wave executes: activeTasks drops the tasks for the end. */
  function Wave(s: Schedule): set<NodeId> {
    set i | 0 <= i < |s.ready| && s.ready[i].nodeId != END :: s.ready[i].nodeId
  }

  ghost function Active(s: Schedule): set<NodeId> {
    Wave(s) + s.parked.Keys
  }

  function TaskNodes(tasks: seq<GraphTask>): set<NodeId> {
    set i | 0 <= i < |tasks| :: tasks[i].nodeId
  }

  function RouteNodes(g: Graph, n: NodeId, evaluate: nat -> Evaluation): set<NodeId> {
    match ResolveNextTasks(g, n, evaluate)
    case Routed(tasks) => TaskNodes(tasks)
    case Rejected(_) => {}
  }

  /** Everything the finished wave routes to. */
  function NextTargets(g: Graph, wave: set<NodeId>, answers: Answers): set<NodeId> {
    set n, t | n in wave && t in RouteNodes(g, n, answers(n)) :: t
  }

  /** resolveCommands without commands: one static task per target, in order of node id. */
  function StaticTasks(ids: seq<NodeId>): (r: seq<GraphTask>)
    ensures |r| == |ids| && forall i :: 0 <= i < |r| ==> r[i] == NewStaticTask(ids[i], i)
  {
    seq(|ids|, i requires 0 <= i < |ids| => NewStaticTask(ids[i], i))
  }

  function Start(t: Tables, g: Graph): Schedule {
    ResumeSchedule(t, [NewStaticTask(g.entry, 0)], map[])
  }

  ghost predicate WaveStep(g: Graph, t: Tables, s: Schedule, s': Schedule, answers: Answers) {
    && Wave(s) != {}
    && PlainAnswers(answers)
    && s' == ScheduleNext(t, StaticTasks(SortedIds(NextTargets(g, Wave(s), answers))), s.parked)
  }

  /** A run: the schedules of its successive waves, under any answers of the conditions. */
  ghost predicate IsRun(g: Graph, t: Tables, run: seq<Schedule>, answers: seq<Answers>) {
    && |run| == |answers| + 1
    && run[0] == Start(t, g)
    && forall i, j :: 0 <= i && j == i + 1 && j < |run| ==> WaveStep(g, t, run[i], run[j], answers[i])
  }

  // ----- one wave, on node sets -----

  /** Nothing active leads to a node of the wave. */
  ghost predicate Frontier(g: Graph, wave: set<NodeId>, active: set<NodeId>) {
    forall r, a :: r in wave && a in active ==> !Reaches(g, a, r)
  }

  /** Nothing active is, or leads to, a node that has been executed. */
  ghost predicate Past(g: Graph, executed: set<NodeId>, active: set<NodeId>) {
    forall h, a :: h in executed && a in active ==> a != h && !Reaches(g, a, h)
  }

  ghost predicate FollowsEdges(g: Graph, wave: set<NodeId>, targets: set<NodeId>) {
    forall x :: x in targets && x != END ==> exists w :: w in wave && Edge(g, w, x)
  }

  /** Routing only moves forward: a new active node leads to something only if the wave did. */
  lemma ActiveComesFrom(g: Graph, wave: set<NodeId>, parked: set<NodeId>, targets: set<NodeId>, a: NodeId, x: NodeId)
    requires FollowsEdges(g, wave, targets)
    requires a in targets && a != END && (a == x || Reaches(g, a, x))
    ensures exists w :: w in wave && Reaches(g, w, x)
  {
    var w :| w in wave && Edge(g, w, a);
    EdgeReaches(g, w, a);
    if a != x { ReachesTransitive(g, w, a, x); }
  }

  lemma PastStep(
    g: Graph, executed: set<NodeId>, wave: set<NodeId>, parked: set<NodeId>, targets: set<NodeId>)
    requires wave !! parked && Frontier(g, wave, wave + parked) && Past(g, executed, wave + parked)
    requires FollowsEdges(g, wave, targets)
    ensures Past(g, executed + wave, parked + (targets - {END}))
  {
    forall h, a | h in executed + wave && a in parked + (targets - {END})
      ensures a != h && !Reaches(g, a, h)
    {
      if a in targets && (a == h || Reaches(g, a, h)) {
        ActiveComesFrom(g, wave, parked, targets, a, h);
      }
    }
  }

  /** A node with one predecessor is reached only through it. */
  lemma SinglePredecessor(g: Graph, w: NodeId, r: NodeId, a: NodeId)
    requires !IsJoin(g, r) && Edge(g, w, r) && Reaches(g, a, r)
    ensures a == w || Reaches(g, a, w)
  {
    var m := LastEdge(g, a, r);
  }

  lemma StrictUpstreamAcyclic(g: Graph, t: Tables, a: NodeId, b: NodeId)
    requires Compiled(g, t) && Acyclic(g) && a in g.nodes && a != "" && a != END
    ensures IsStrictUpstream(t.reach, a, b) <==> Reaches(g, a, b)
  {
    if Reaches(g, a, b) && b in t.reach && a in t.reach[b] {
      ReachesTransitive(g, a, b, a);
    }
  }

  lemma FrontierStep(
    g: Graph, t: Tables, wave: set<NodeId>, parked: set<NodeId>, targets: set<NodeId>)
    requires Compiled(g, t) && Acyclic(g) && Registered(g)
    requires parked <= t.joins && parked + targets <= g.nodes + {END} && END !in parked
    requires wave !! parked && Frontier(g, wave, wave + parked)
    requires FollowsEdges(g, wave, targets)
    ensures Frontier(g, ReadyNodes(t, parked + targets) - {END}, parked + (targets - {END}))
  {
    forall r, a | r in ReadyNodes(t, parked + targets) - {END} && a in parked + (targets - {END})
      ensures !Reaches(g, a, r)
    {
      if Reaches(g, a, r) {
        if r in t.joins {
          StrictUpstreamAcyclic(g, t, a, r);
          assert Blocked(t, r, parked + targets);
        } else {
          var w :| w in wave && Edge(g, w, r);
          SinglePredecessor(g, w, r, a);
          if a in targets {
            ActiveComesFrom(g, wave, parked, targets, a, w);
          }
        }
      }
    }
  }

  // ----- one wave, on schedules -----

  /** What holds between waves. */
  ghost predicate RunInvariant(g: Graph, t: Tables, executed: set<NodeId>, s: Schedule) {
    && Keyed(s.parked) && s.parked.Keys <= t.joins && END !in s.parked
    && Active(s) <= g.nodes && executed <= g.nodes
    && Wave(s) !! s.parked.Keys
    && Frontier(g, Wave(s), Active(s))
    && Past(g, executed, Active(s))
    && forall n :: n in s.parked ==> exists r :: r in Wave(s) && IsStrictUpstream(t.reach, r, n)
  }

  lemma ListedNodes(m: TaskMap)
    requires Keyed(m)
    ensures TaskNodes(Listed(m)) == m.Keys
  {
    var ids := SortedIds(m.Keys);
    forall n | n in m ensures n in TaskNodes(Listed(m)) {
      var i :| 0 <= i < |ids| && ids[i] == n;
      assert Listed(m)[i].nodeId == n;
    }
  }

  lemma {:induction false} NoDynamics(tasks: seq<GraphTask>)
    requires forall i :: 0 <= i < |tasks| ==> !tasks[i].dynamic
    ensures Dynamics(tasks) == []
  {
    if tasks != [] {
      NoDynamics(tasks[..|tasks| - 1]);
    }
  }

  /** A scheduling step on node sets: who runs next and who stays parked. */
  lemma ScheduledNodes(t: Tables, targets: set<NodeId>, parked: TaskMap)
    requires Keyed(parked)
    ensures var s := ScheduleNext(t, StaticTasks(SortedIds(targets)), parked);
            var now := ReadyNodes(t, parked.Keys + targets);
            && Wave(s) == now - {END}
            && s.parked.Keys == parked.Keys + targets - now
            && Keyed(s.parked)
  {
    hide Blocked, Merge, SortedIds, StaticNodes, Dynamics;
    var tasks := StaticTasks(SortedIds(targets));
    var all := Merge(tasks, parked);
    MergeKeys(tasks, parked);
    StaticTaskNodes(SortedIds(targets));
    assert all.Keys == parked.Keys + targets;
    var now := ReadyNodes(t, all.Keys);
    NoDynamics(tasks);
    ListedNodes(Restrict(all, now));
    var s := ScheduleNext(t, tasks, parked);
    assert s.ready == Listed(Restrict(all, now));
    WaveOf(s);
  }

  lemma WaveOf(s: Schedule)
    ensures Wave(s) == TaskNodes(s.ready) - {END}
  {
  }

  lemma StaticTaskNodes(ids: seq<NodeId>)
    ensures forall n :: n in StaticNodes(StaticTasks(ids)) <==> n in ids
  {
    var tasks := StaticTasks(ids);
    forall n | n in ids ensures n in StaticNodes(tasks) {
      var i :| 0 <= i < |ids| && ids[i] == n;
      assert tasks[i].nodeId == n && !tasks[i].dynamic;
    }
  }

  lemma TargetsFollowEdges(g: Graph, wave: set<NodeId>, answers: Answers)
    requires Accepted(g) && Registered(g) && wave <= g.nodes && PlainAnswers(answers)
    ensures FollowsEdges(g, wave, NextTargets(g, wave, answers))
    ensures NextTargets(g, wave, answers) <= g.nodes + {END}
  {
    forall x | x in NextTargets(g, wave, answers) && x != END
      ensures x in g.nodes && exists w :: w in wave && Edge(g, w, x)
    {
      var w :| w in wave && x in RouteNodes(g, w, answers(w));
      PlainRouting(g, w, answers(w));
      EdgesOfAccepted(g, w);
      assert Edge(g, w, x);
    }
  }

  lemma WaveKeepsInvariant(g: Graph, t: Tables, executed: set<NodeId>, s: Schedule, s': Schedule, answers: Answers)
    requires Accepted(g) && Registered(g) && Acyclic(g) && Compiled(g, t)
    requires RunInvariant(g, t, executed, s) && WaveStep(g, t, s, s', answers)
    ensures RunInvariant(g, t, executed + Wave(s), s')
  {
    hide Accepted, Registered, Acyclic, Compiled, Frontier, Past, FollowsEdges, Blocked, IsStrictUpstream, PlainAnswers,
      Wave, NextTargets, ScheduleNext, Keyed, StaticTasks;
    var wave, parked := Wave(s), s.parked.Keys;
    var targets := NextTargets(g, wave, answers);
    TargetsFollowEdges(g, wave, answers);
    ScheduledNodes(t, targets, s.parked);
    EndIsNoJoin(g, t);
    assert Active(s') == parked + (targets - {END});
    FrontierStep(g, t, wave, parked, targets);
    PastStep(g, executed, wave, parked, targets);
    forall n | n in s'.parked ensures exists r :: r in Wave(s') && IsStrictUpstream(t.reach, r, n) {
      var r := ParkedHasReadyBlocker(g, t, parked + targets, n);
      assert r in Wave(s');
    }
  }

  lemma EndIsNoJoin(g: Graph, t: Tables)
    requires Compiled(g, t)
    ensures END !in t.joins
  {
  }

  lemma StartSchedule(t: Tables, g: Graph)
    ensures Start(t, g) == Schedule([NewStaticTask(g.entry, 0)], map[])
  {
    hide Blocked, IsStrictUpstream;
    var task := NewStaticTask(g.entry, 0);
    var none: TaskMap := map[];
    assert none.Keys == {};
    assert StaticNodes([task]) == {g.entry} by {
      assert [task][0].nodeId == g.entry;
    }
    var one: TaskMap := map[g.entry := task];
    assert Merge([task], none) == one;
    assert ResumeNodes(t, {g.entry}, {}) == {g.entry};
    assert Restrict(one, {g.entry}) == one && Without(one, {g.entry}) == none;
    NoDynamics([task]);
    assert one.Keys == {g.entry};
    SortedSingleton(g.entry);
    assert Listed(one) == [task];
  }

  lemma StartInvariant(g: Graph, t: Tables)
    requires Accepted(g) && Acyclic(g)
    ensures RunInvariant(g, t, {}, Start(t, g))
  {
    StartSchedule(t, g);
    SingleTaskInvariant(g, t, Start(t, g));
  }

  lemma SingleTaskInvariant(g: Graph, t: Tables, s: Schedule)
    requires g.entry in g.nodes && Acyclic(g)
    requires s == Schedule([NewStaticTask(g.entry, 0)], map[])
    ensures RunInvariant(g, t, {}, s)
  {
    hide IsStrictUpstream, Reaches;
    assert s.parked.Keys == {};
    assert Wave(s) <= {g.entry};
  }

  // ----- whole runs -----

  ghost function Executed(run: seq<Schedule>, k: nat): set<NodeId>
    requires k <= |run|
  {
    if k == 0 then {} else Executed(run, k - 1) + Wave(run[k - 1])
  }

  lemma {:induction false} ExecutedContains(run: seq<Schedule>, k: nat, i: nat)
    requires i < k <= |run|
    ensures Wave(run[i]) <= Executed(run, k)
  {
    if i < k - 1 {
      ExecutedContains(run, k - 1, i);
    }
  }

  /** The invariant holds at every point of every run. */
  lemma {:induction false} RunKeepsInvariant(g: Graph, t: Tables, run: seq<Schedule>, answers: seq<Answers>, k: nat)
    requires Accepted(g) && Registered(g) && Acyclic(g) && Compiled(g, t)
    requires IsRun(g, t, run, answers) && k < |run|
    ensures RunInvariant(g, t, Executed(run, k), run[k])
  {
    hide Accepted, Registered, Acyclic, Compiled, RunInvariant, Wave, WaveStep, Start;
    if k == 0 {
      StartInvariant(g, t);
    } else {
      RunKeepsInvariant(g, t, run, answers, k - 1);
      WaveKeepsInvariant(g, t, Executed(run, k - 1), run[k - 1], run[k], answers[k - 1]);
    }
  }

  /** No node runs while something strictly upstream of it is in the same wave or parked. */
  lemma NoUpstreamActive(g: Graph, t: Tables, run: seq<Schedule>, answers: seq<Answers>, k: nat, n: NodeId, a: NodeId)
    requires Accepted(g) && Registered(g) && Acyclic(g) && Compiled(g, t)
    requires IsRun(g, t, run, answers) && k < |run|
    requires n in Wave(run[k]) && a in Active(run[k])
    ensures !IsStrictUpstream(t.reach, a, n)
  {
    RunKeepsInvariant(g, t, run, answers, k);
  }

  /** Every node runs in at most one wave. */
  lemma AtMostOnce(g: Graph, t: Tables, run: seq<Schedule>, answers: seq<Answers>, i: nat, j: nat)
    requires Accepted(g) && Registered(g) && Acyclic(g) && Compiled(g, t)
    requires IsRun(g, t, run, answers) && i < j < |run|
    ensures Wave(run[i]) !! Wave(run[j])
  {
    hide Accepted, Registered, Acyclic, Compiled, IsRun, Frontier, Wave, Reaches, IsStrictUpstream;
    RunKeepsInvariant(g, t, run, answers, j);
    ExecutedContains(run, j, i);
  }

  /** No node has two tasks in the wave. */
  ghost predicate OnePerNode(s: Schedule) {
    forall i, j :: 0 <= i < j < |s.ready| ==> s.ready[i].nodeId != s.ready[j].nodeId
  }

  lemma ScheduledOnce(t: Tables, targets: set<NodeId>, parked: TaskMap)
    requires Keyed(parked)
    ensures OnePerNode(ScheduleNext(t, StaticTasks(SortedIds(targets)), parked))
  {
    hide Merge, Listed, Dynamics, ReadyNodes, SortedIds, StaticNodes;
    var tasks := StaticTasks(SortedIds(targets));
    var all := Merge(tasks, parked);
    MergeKeys(tasks, parked);
    NoDynamics(tasks);
    ListedAscends(Restrict(all, ReadyNodes(t, all.Keys)));
  }

  lemma WaveListsOnce(g: Graph, t: Tables, run: seq<Schedule>, answers: seq<Answers>, k: nat)
    requires Accepted(g) && Registered(g) && Acyclic(g) && Compiled(g, t)
    requires IsRun(g, t, run, answers) && k < |run|
    ensures OnePerNode(run[k])
  {
    hide Accepted, Registered, Acyclic, Compiled, ScheduleNext, Start, OnePerNode, NextTargets, Wave;
    if k == 0 {
      StartSchedule(t, g);
      SingleIsOnce(run[0]);
    } else {
      RunKeepsInvariant(g, t, run, answers, k - 1);
      var last, current := run[k - 1], run[k];
      assert WaveStep(g, t, last, current, answers[k - 1]);
      ScheduledOnce(t, NextTargets(g, Wave(last), answers[k - 1]), last.parked);
    }
  }

  lemma SingleIsOnce(s: Schedule)
    requires |s.ready| == 1
    ensures OnePerNode(s)
  {
  }

  /** Every node executes at most once: two tasks of a run for one node are the same task of the same wave. */
  lemma ExecutesAtMostOnce(
    g: Graph, t: Tables, run: seq<Schedule>, answers: seq<Answers>, i: nat, j: nat, a: nat, b: nat)
    requires Accepted(g) && Registered(g) && Acyclic(g) && Compiled(g, t)
    requires IsRun(g, t, run, answers) && i <= j < |run| && a < |run[i].ready| && b < |run[j].ready|
    requires run[i].ready[a].nodeId == run[j].ready[b].nodeId != END
    ensures i == j && a == b
  {
    hide Accepted, Registered, Acyclic, Compiled, IsRun;
    var n := run[i].ready[a].nodeId;
    assert n in Wave(run[i]) && n in Wave(run[j]);
    if i < j {
      AtMostOnce(g, t, run, answers, i, j);
    } else {
      WaveListsOnce(g, t, run, answers, i);
    }
  }

  /** Executions follow the graph: if u leads to v and both run, u runs in an earlier wave. So a
      join sees everything that will ever run upstream of it. */
  lemma RunsFollowPaths(
    g: Graph, t: Tables, run: seq<Schedule>, answers: seq<Answers>, i: nat, j: nat, u: NodeId, v: NodeId)
    requires Accepted(g) && Registered(g) && Acyclic(g) && Compiled(g, t)
    requires IsRun(g, t, run, answers) && i < |run| && j < |run|
    requires u in Wave(run[i]) && v in Wave(run[j]) && Reaches(g, u, v)
    ensures i < j
  {
    hide Accepted, Registered, Acyclic, Compiled, IsRun, Wave, Reaches, IsStrictUpstream;
    RunKeepsInvariant(g, t, run, answers, i);
    if j < i {
      ExecutedContains(run, i, j);
    }
  }

  /** A run that has nothing left to execute has no join parked. */
  lemma EndsWithNothingParked(g: Graph, t: Tables, run: seq<Schedule>, answers: seq<Answers>)
    requires Accepted(g) && Registered(g) && Acyclic(g) && Compiled(g, t)
    requires IsRun(g, t, run, answers) && Wave(run[|run| - 1]) == {}
    ensures run[|run| - 1].parked == map[]
  {
    hide Accepted, Registered, Acyclic, Compiled, Frontier, Past, Keyed;
    RunKeepsInvariant(g, t, run, answers, |run| - 1);
  }

  /** Pairwise disjoint non-empty parts of a set are no more than its elements. */
  lemma {:induction false} DisjointParts<T>(parts: seq<set<T>>, whole: set<T>)
    requires forall i :: 0 <= i < |parts| ==> parts[i] != {} && parts[i] <= whole
    requires forall i, j :: 0 <= i < j < |parts| ==> parts[i] !! parts[j]
    ensures |parts| <= |whole|
  {
    if parts != [] {
      var last := parts[|parts| - 1];
      DisjointParts(parts[..|parts| - 1], whole - last);
      assert |whole - last| == |whole| - |last|;
    }
  }

  lemma WaveIsWork(g: Graph, t: Tables, run: seq<Schedule>, answers: seq<Answers>, k: nat)
    requires Accepted(g) && Registered(g) && Acyclic(g) && Compiled(g, t)
    requires IsRun(g, t, run, answers) && k < |answers|
    ensures Wave(run[k]) != {} && Wave(run[k]) <= g.nodes
  {
    hide Accepted, Registered, Acyclic, Compiled, Wave, Frontier, IsStrictUpstream, Reaches, ScheduleNext, Start;
    RunKeepsInvariant(g, t, run, answers, k);
    assert WaveStep(g, t, run[k], run[k + 1], answers[k]);
  }

  /** A run takes at most as many waves as the graph has nodes. */
  lemma WavesBounded(g: Graph, t: Tables, run: seq<Schedule>, answers: seq<Answers>)
    requires Accepted(g) && Registered(g) && Acyclic(g) && Compiled(g, t)
    requires IsRun(g, t, run, answers)
    ensures |answers| <= |g.nodes|
  {
    hide Accepted, Registered, Acyclic, Compiled, Wave, WaveStep, Start;
    var waves := seq(|answers|, i requires 0 <= i < |answers| => Wave(run[i]));
    forall i | 0 <= i < |waves| ensures waves[i] != {} && waves[i] <= g.nodes {
      WaveIsWork(g, t, run, answers, i);
    }
    forall i, j | 0 <= i < j < |waves| ensures waves[i] !! waves[j] {
      AtMostOnce(g, t, run, answers, i, j);
    }
    DisjointParts(waves, g.nodes);
  }

  // ----- the wave loop -----

  /** A policy with a limit below one is not valid. */
  type Limit = n: nat | 0 < n witness 1

  datatype Limits = Limits(superSteps: Limit, fanOut: Limit, nodeExecutions: Limit)

  datatype Outcome = Completed | SuperStepLimitExceeded | FanOutLimitExceeded | NodeExecutionLimitExceeded

  /** How many node executions the first k waves claim; a wave has one task per node. */
  function ExecutionCount(run: seq<Schedule>, k: nat): nat
    requires k <= |run|
  {
    if k == 0 then 0 else ExecutionCount(run, k - 1) + |Wave(run[k - 1])|
  }

  /** The limit that stops a run in one of its waves, in the order they are looked at: waves so far, tasks
      of this wave, executions claimed by it, tasks of the next. */
  function LimitHit(limits: Limits, waves: nat, tasks: nat, executions: nat, next: nat): Outcome {
    if waves > limits.superSteps then SuperStepLimitExceeded
    else if tasks > limits.fanOut then FanOutLimitExceeded
    else if executions > limits.nodeExecutions then NodeExecutionLimitExceeded
    else if next > limits.fanOut then FanOutLimitExceeded
    else Completed
  }

  /** The wave is among the first superSteps ones and no larger than the fan-out. */
  ghost predicate StartsWithin(limits: Limits, run: seq<Schedule>, k: nat)
    requires k < |run|
  {
    k + 1 <= limits.superSteps && |Wave(run[k])| <= limits.fanOut
  }

  /** With this wave no more nodes were executed than allowed, and it routes to no more than the fan-out. */
  ghost predicate GoesOnWithin(g: Graph, limits: Limits, run: seq<Schedule>, answer: nat -> Answers, k: nat)
    requires k < |run|
  {
    ExecutionCount(run, k + 1) <= limits.nodeExecutions && |NextTargets(g, Wave(run[k]), answer(k))| <= limits.fanOut
  }

  /** Each limit ends a run exactly if its bound is the first to be exceeded in the last wave. */
  ghost predicate EndsBy(g: Graph, limits: Limits, run: seq<Schedule>, answer: nat -> Answers, outcome: Outcome)
    requires run != []
  {
    var k := |run| - 1;
    && (outcome.SuperStepLimitExceeded? <==> k + 1 > limits.superSteps)
    && (outcome.NodeExecutionLimitExceeded? <==> StartsWithin(limits, run, k) && ExecutionCount(run, k + 1) > limits.nodeExecutions)
    && (outcome.FanOutLimitExceeded? <==>
          && k + 1 <= limits.superSteps
          && (|| |Wave(run[k])| > limits.fanOut
              || (ExecutionCount(run, k + 1) <= limits.nodeExecutions && |NextTargets(g, Wave(run[k]), answer(k))| > limits.fanOut)))
  }

  ghost function StopAt(g: Graph, limits: Limits, run: seq<Schedule>, answer: nat -> Answers, k: nat): Outcome
    requires k < |run|
  {
    LimitHit(limits, k + 1, |Wave(run[k])|, ExecutionCount(run, k + 1), |NextTargets(g, Wave(run[k]), answer(k))|)
  }

  lemma {:induction false} CountOfPrefix(run: seq<Schedule>, s: Schedule, k: nat)
    requires k <= |run|
    ensures ExecutionCount(run + [s], k) == ExecutionCount(run, k)
  {
    if k > 0 {
      CountOfPrefix(run, s, k - 1);
      assert (run + [s])[k - 1] == run[k - 1];
    }
  }

  lemma WaveIsNew(g: Graph, t: Tables, executed: set<NodeId>, s: Schedule)
    requires RunInvariant(g, t, executed, s)
    ensures |executed + Wave(s)| == |executed| + |Wave(s)| && executed + Wave(s) <= g.nodes
  {
    hide Frontier, Wave, Reaches, IsStrictUpstream, Keyed;
    assert executed !! Wave(s);
  }

  lemma {:induction false} CountIsExecuted(
    g: Graph, t: Tables, run: seq<Schedule>, answers: seq<Answers>, k: nat)
    requires Accepted(g) && Registered(g) && Acyclic(g) && Compiled(g, t)
    requires IsRun(g, t, run, answers) && k <= |run|
    ensures ExecutionCount(run, k) == |Executed(run, k)| && Executed(run, k) <= g.nodes
  {
    hide Accepted, Registered, Acyclic, Compiled, IsRun, Wave, RunInvariant;
    if k > 0 {
      CountIsExecuted(g, t, run, answers, k - 1);
      RunKeepsInvariant(g, t, run, answers, k - 1);
      WaveIsNew(g, t, Executed(run, k - 1), run[k - 1]);
    }
  }

  /** The answers used by the first k waves. */
  ghost function Given(answer: nat -> Answers, k: nat): seq<Answers> {
    seq(k, i requires 0 <= i < k => answer(i))
  }

  lemma ExtendRun(g: Graph, t: Tables, run: seq<Schedule>, answer: nat -> Answers, s: Schedule)
    requires run != [] && IsRun(g, t, run, Given(answer, |run| - 1))
    requires WaveStep(g, t, run[|run| - 1], s, answer(|run| - 1))
    ensures IsRun(g, t, run + [s], Given(answer, |run|))
  {
    hide WaveStep, Start;
    var longer, given := run + [s], Given(answer, |run|);
    forall i, j | 0 <= i && j == i + 1 && j < |longer| ensures WaveStep(g, t, longer[i], longer[j], given[i]) {
      if j < |run| {
        assert WaveStep(g, t, run[i], run[j], Given(answer, |run| - 1)[i]);
      }
    }
  }

  lemma ParkedAreJoins(t: Tables, next: seq<GraphTask>, parked: TaskMap)
    ensures ScheduleNext(t, next, parked).parked.Keys <= t.joins
  {
  }

  lemma StartRun(g: Graph, t: Tables, s: Schedule, answer: nat -> Answers)
    requires s == Start(t, g)
    ensures IsRun(g, t, [s], Given(answer, 0)) && s.parked == map[]
  {
    StartSchedule(t, g);
  }

  /** Limits that never stop a run on a graph without cycles; the fan-out counts the end beside the nodes. */
  predicate Generous(g: Graph, limits: Limits) {
    |g.nodes| <= limits.superSteps && |g.nodes| < limits.fanOut && |g.nodes| <= limits.nodeExecutions
  }

  lemma UnfinishedRunIsShort(g: Graph, t: Tables, run: seq<Schedule>, answer: nat -> Answers)
    requires Accepted(g) && Registered(g) && Acyclic(g) && Compiled(g, t)
    requires run != [] && IsRun(g, t, run, Given(answer, |run| - 1))
    requires PlainAnswers(answer(|run| - 1)) && Wave(run[|run| - 1]) != {}
    ensures |run| <= |g.nodes|
  {
    hide Accepted, Registered, Acyclic, Compiled, Wave, ScheduleNext, NextTargets, StaticTasks, SortedIds, PlainAnswers, IsRun;
    var last := run[|run| - 1];
    var s := ScheduleNext(t, StaticTasks(SortedIds(NextTargets(g, Wave(last), answer(|run| - 1)))), last.parked);
    assert WaveStep(g, t, last, s, answer(|run| - 1));
    ExtendRun(g, t, run, answer, s);
    WavesBounded(g, t, run + [s], Given(answer, |run|));
    RunLength(g, t, run + [s], Given(answer, |run|));
  }

  lemma RunLength(g: Graph, t: Tables, run: seq<Schedule>, answers: seq<Answers>)
    requires IsRun(g, t, run, answers)
    ensures |run| == |answers| + 1
  {
  }

  lemma NotStopped(g: Graph, t: Tables, limits: Limits, run: seq<Schedule>, answer: nat -> Answers)
    requires Accepted(g) && Registered(g) && Acyclic(g) && Compiled(g, t) && Generous(g, limits)
    requires run != [] && IsRun(g, t, run, Given(answer, |run| - 1))
    requires PlainAnswers(answer(|run| - 1)) && Wave(run[|run| - 1]) != {}
    ensures StopAt(g, limits, run, answer, |run| - 1).Completed?
  {
    hide Accepted, Registered, Acyclic, Compiled, Wave, NextTargets, PlainAnswers, IsRun, Frontier, Past, Keyed, Given;
    var k := |run| - 1;
    UnfinishedRunIsShort(g, t, run, answer);
    CountIsExecuted(g, t, run, Given(answer, k), |run|);
    SubsetSize(Executed(run, |run|), g.nodes);
    RunKeepsInvariant(g, t, run, Given(answer, k), k);
    SubsetSize(Wave(run[k]), g.nodes);
    TargetsFollowEdges(g, Wave(run[k]), answer(k));
    SubsetSize(NextTargets(g, Wave(run[k]), answer(k)), g.nodes + {END});
    SubsetSize(g.nodes, g.nodes + {END});
    assert |g.nodes + {END}| <= |g.nodes| + 1;
  }

  /** The wave loop of invokeWithConfig: one scheduling step per wave under the limits. */
  method Invoke(g: Graph, answer: nat -> Answers, limits: Limits)
    returns (outcome: Outcome, run: seq<Schedule>, tables: Tables)
    requires Accepted(g) && Registered(g)
    requires forall k: nat :: PlainAnswers(answer(k))
    ensures Compiled(g, tables)
    ensures run != [] && IsRun(g, tables, run, Given(answer, |run| - 1))
    ensures outcome.Completed? <==> Wave(run[|run| - 1]) == {}
    ensures forall k :: 0 <= k < |run| - 1 ==> StartsWithin(limits, run, k) && GoesOnWithin(g, limits, run, answer, k)
    ensures !outcome.Completed? ==> EndsBy(g, limits, run, answer, outcome)
    ensures Acyclic(g) && Generous(g, limits) ==> outcome.Completed? && run[|run| - 1].parked == map[]
  {
    hide Accepted, Registered, Acyclic, IsRun, Wave, NextTargets, StaticTasks, Start, PlainAnswers,
      Given, ResumeSchedule, ScheduleNext, SortedIds, TableExact, IsJoin, LimitHit, Generous, StartsWithin, GoesOnWithin, EndsBy;
    var joins := CompileJoinNodes(g);
    var reach := CompileReachability(g);
    tables := Tables(joins, reach);
    assert Compiled(g, tables);
    var scheduler := new Scheduler(tables);
    var ready := scheduler.Resume([NewStaticTask(g.entry, 0)]);
    var s := Schedule(ready, scheduler.pendingFanIn);
    StartIs(tables, g);
    StartRun(g, tables, s, answer);
    run := [s];
    var executions := 0;
    while Wave(run[|run| - 1]) != {}
      invariant scheduler.tables == tables
      invariant run != [] && IsRun(g, tables, run, Given(answer, |run| - 1))
      invariant scheduler.pendingFanIn == run[|run| - 1].parked && scheduler.pendingFanIn.Keys <= tables.joins
      invariant executions == ExecutionCount(run, |run| - 1) && |run| - 1 <= limits.superSteps
      invariant forall k :: 0 <= k < |run| - 1 ==> StartsWithin(limits, run, k) && GoesOnWithin(g, limits, run, answer, k)
      decreases limits.superSteps + 1 - |run|
    {
      var last := run[|run| - 1];
      var targets := NextTargets(g, Wave(last), answer(|run| - 1));
      executions := executions + |Wave(last)|;
      outcome := LimitHit(limits, |run|, |Wave(last)|, executions, |targets|);
      assert outcome == StopAt(g, limits, run, answer, |run| - 1);
      if !outcome.Completed? {
        if Acyclic(g) && Generous(g, limits) {
          NotStopped(g, tables, limits, run, answer);
        }
        StopEnds(g, limits, run, answer);
        return;
      }
      AllWithin(g, limits, run, answer, |run| - 1);
      StepsLeft(limits, |run|, |Wave(last)|, executions, |targets|);
      var tasks := StaticTasks(SortedIds(targets));
      ready := scheduler.Next(tasks);
      ParkedAreJoins(tables, tasks, last.parked);
      s := Schedule(ready, scheduler.pendingFanIn);
      ExtendRun(g, tables, run, answer, s);
      WithinOfPrefix(g, limits, run, s, answer);
      run := run + [s];
    }
    outcome := Completed;
    if Acyclic(g) {
      EndsWithNothingParked(g, tables, run, Given(answer, |run| - 1));
    }
  }

  lemma AllWithin(g: Graph, limits: Limits, run: seq<Schedule>, answer: nat -> Answers, k: nat)
    requires k < |run| && StopAt(g, limits, run, answer, k).Completed?
    ensures StartsWithin(limits, run, k) && GoesOnWithin(g, limits, run, answer, k)
  {
    hide Wave, NextTargets, ExecutionCount;
  }

  lemma StopEnds(g: Graph, limits: Limits, run: seq<Schedule>, answer: nat -> Answers)
    requires run != [] && !StopAt(g, limits, run, answer, |run| - 1).Completed?
    ensures EndsBy(g, limits, run, answer, StopAt(g, limits, run, answer, |run| - 1))
  {
    hide Wave, NextTargets, ExecutionCount;
  }

  lemma StepsLeft(limits: Limits, waves: nat, tasks: nat, executions: nat, next: nat)
    requires LimitHit(limits, waves, tasks, executions, next).Completed?
    ensures waves <= limits.superSteps
  {
  }

  lemma WithinOfPrefix(g: Graph, limits: Limits, run: seq<Schedule>, s: Schedule, answer: nat -> Answers)
    requires forall k :: 0 <= k < |run| ==> StartsWithin(limits, run, k) && GoesOnWithin(g, limits, run, answer, k)
    ensures forall k :: 0 <= k < |run| ==> StartsWithin(limits, run + [s], k) && GoesOnWithin(g, limits, run + [s], answer, k)
    ensures ExecutionCount(run + [s], |run|) == ExecutionCount(run, |run|)
  {
    hide Wave, NextTargets, ExecutionCount;
    CountOfPrefix(run, s, |run|);
    forall k | 0 <= k < |run| ensures StartsWithin(limits, run + [s], k) && GoesOnWithin(g, limits, run + [s], answer, k) {
      assert StartsWithin(limits, run, k) && GoesOnWithin(g, limits, run, answer, k);
      CountOfPrefix(run, s, k + 1);
    }
  }

  lemma StartIs(t: Tables, g: Graph)
    ensures Start(t, g) == ResumeSchedule(t, [NewStaticTask(g.entry, 0)], map[])
  {
  }
}
