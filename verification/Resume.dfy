/** Resuming a run from a checkpoint: when the rebuilt schedule is the one the live run had. */
module Resume {
  import opened Common
  import opened Text
  import opened Topology
  import opened FanIn
  import opened Validation
  import opened Routing
  import opened Waves

  // ----- storing the parked joins -----

  /** taskMapByNodeID: rebuilding the map from the stored list. */
  function TaskMapByNodeId(tasks: seq<GraphTask>): TaskMap {
    if tasks == [] then map[]
    else
      var m := TaskMapByNodeId(tasks[..|tasks| - 1]);
      var t := tasks[|tasks| - 1];
      if t.nodeId == "" then m else StorePreferred(m, t)
  }

  lemma {:induction false} TaskMapIsMerge(tasks: seq<GraphTask>)
    requires forall i :: 0 <= i < |tasks| ==> !tasks[i].dynamic && tasks[i].nodeId != ""
    ensures TaskMapByNodeId(tasks) == Merge(tasks, map[])
  {
    if tasks != [] {
      TaskMapIsMerge(tasks[..|tasks| - 1]);
    }
  }

  /** A stored task without a node is not read back. */
  lemma {:induction false} NamelessIsDropped(tasks: seq<GraphTask>)
    ensures "" !in TaskMapByNodeId(tasks)
  {
    if tasks != [] {
      NamelessIsDropped(tasks[..|tasks| - 1]);
    }
  }

  /** Static tasks for different nodes, none of them parked. */
  ghost predicate Fresh(tasks: seq<GraphTask>, parked: TaskMap) {
    && (forall i :: 0 <= i < |tasks| ==> !tasks[i].dynamic && tasks[i].nodeId !in parked)
    && (forall i, j :: 0 <= i < j < |tasks| ==> tasks[i].nodeId != tasks[j].nodeId)
  }

  lemma {:induction false} MergeFresh(tasks: seq<GraphTask>, parked: TaskMap)
    requires Fresh(tasks, parked)
    ensures var m := Merge(tasks, parked);
            && (forall n :: n in parked ==> n in m && m[n] == parked[n])
            && (forall i :: 0 <= i < |tasks| ==> tasks[i].nodeId in m && m[tasks[i].nodeId] == tasks[i])
  {
    if tasks != [] {
      var init := tasks[..|tasks| - 1];
      MergeFresh(init, parked);
      MergeKeys(init, parked);
      var last := tasks[|tasks| - 1];
      assert last.nodeId !in StaticNodes(init);
      forall i | 0 <= i < |init|
        ensures tasks[i].nodeId in Merge(tasks, parked) && Merge(tasks, parked)[tasks[i].nodeId] == tasks[i]
      {
        assert init[i] == tasks[i];
      }
    }
  }

  lemma ListedFresh(m: TaskMap, parked: TaskMap)
    requires Keyed(m) && m.Keys !! parked.Keys
    ensures Fresh(Listed(m), parked)
    ensures StaticNodes(Listed(m)) == m.Keys
    ensures forall i :: 0 <= i < |Listed(m)| ==> Listed(m)[i].nodeId in m && Listed(m)[i] == m[Listed(m)[i].nodeId]
  {
    var ids, list := SortedIds(m.Keys), Listed(m);
    forall i | 0 <= i < |list| ensures list[i].nodeId in m && list[i] == m[list[i].nodeId] && list[i].nodeId == ids[i] {
      assert ids[i] in m;
    }
    ListedNodes(m);
    assert StaticNodes(list) == TaskNodes(list);
  }

  lemma ListedSplits(ready: TaskMap, parked: TaskMap)
    requires Keyed(ready) && ready.Keys !! parked.Keys
    ensures Splits(Merge(Listed(ready), parked), ready, parked)
  {
    var list := Listed(ready);
    ListedFresh(ready, parked);
    MergeFresh(list, parked);
    MergeKeys(list, parked);
    var m := Merge(list, parked);
    forall n | n in ready ensures m[n] == ready[n] {
      assert n in StaticNodes(list);
      var i :| 0 <= i < |list| && list[i].nodeId == n;
    }
  }

  /** Listing the parked joins for a checkpoint and reading them back gives the same map. */
  lemma ParkedRoundTrip(m: TaskMap)
    requires Keyed(m) && "" !in m
    ensures TaskMapByNodeId(Listed(m)) == m
  {
    hide SortedIds, Merge, Listed;
    var none: TaskMap := map[];
    ListedFresh(m, none);
    TaskMapIsMerge(Listed(m));
    ListedSplits(m, none);
  }

  // ----- checkpoints taken after a wave -----

  lemma {:induction false} AppendDynamics(tasks: seq<GraphTask>, extra: seq<GraphTask>, parked: TaskMap)
    requires forall i :: 0 <= i < |extra| ==> extra[i].dynamic
    ensures Merge(tasks + extra, parked) == Merge(tasks, parked)
    ensures Dynamics(tasks + extra) == Dynamics(tasks) + extra
    ensures StaticNodes(tasks + extra) == StaticNodes(tasks)
  {
    hide Merge, Dynamics, StaticNodes;
    if extra == [] {
      assert tasks + extra == tasks;
      assert Dynamics(tasks) + extra == Dynamics(tasks);
    } else {
      var init, last := extra[..|extra| - 1], extra[|extra| - 1];
      AppendDynamics(tasks, init, parked);
      AppendDynamic(tasks + init, last, parked);
      assert tasks + extra == (tasks + init) + [last];
      assert Dynamics(tasks) + init + [last] == Dynamics(tasks) + extra;
    }
  }

  lemma AppendDynamic(tasks: seq<GraphTask>, last: GraphTask, parked: TaskMap)
    requires last.dynamic
    ensures Merge(tasks + [last], parked) == Merge(tasks, parked)
    ensures Dynamics(tasks + [last]) == Dynamics(tasks) + [last]
    ensures StaticNodes(tasks + [last]) == StaticNodes(tasks)
  {
    hide StaticNodes;
    assert (tasks + [last])[..|tasks|] == tasks;
    StaticNodesSplit(tasks, last);
  }

  /** What the stored list of a wave says about its static part. */
  lemma ListedWave(ready: TaskMap, dynamics: seq<GraphTask>, parked: TaskMap)
    requires Keyed(ready) && ready.Keys !! parked.Keys
    requires forall i :: 0 <= i < |dynamics| ==> dynamics[i].dynamic
    ensures var list := Listed(ready) + dynamics;
            && StaticNodes(list) == ready.Keys
            && Dynamics(list) == dynamics
            && Splits(Merge(list, parked), ready, parked)
  {
    hide SortedIds, Merge, Listed, StaticNodes;
    var list := Listed(ready);
    ListedFresh(ready, parked);
    NoDynamics(list);
    AppendDynamics(list, dynamics, parked);
    ListedSplits(ready, parked);
    assert Dynamics(list) + dynamics == dynamics;
  }

  /** A split of the active nodes into ready and blocked ones resumes to itself. */
  lemma ResumeOfSplit(t: Tables, all: TaskMap, ready: TaskMap, dynamics: seq<GraphTask>, parked: TaskMap)
    requires Splits(all, ready, parked) && Keyed(ready)
    requires forall i :: 0 <= i < |dynamics| ==> dynamics[i].dynamic
    requires forall n :: n in parked ==> Blocked(t, n, all.Keys)
    ensures ResumeSchedule(t, Listed(ready) + dynamics, parked) == Schedule(Listed(ready) + dynamics, parked)
  {
    hide SortedIds, Merge, Listed, StaticNodes, Blocked, Dynamics;
    var list := Listed(ready) + dynamics;
    ListedWave(ready, dynamics, parked);
    assert ready.Keys + parked.Keys == all.Keys;
    assert ResumeNodes(t, ready.Keys, parked.Keys) == ready.Keys;
    var merged := Merge(list, parked);
    assert Restrict(merged, ready.Keys) == ready;
    assert Without(merged, ready.Keys) == parked;
  }

  /** Resuming from the schedule stored after a wave changes nothing: same tasks in the same order,
      same joins parked, and nothing released that the live run had kept waiting. */
  lemma ResumeAfterWaveIsIdentity(t: Tables, next: seq<GraphTask>, parked: TaskMap)
    requires Keyed(parked)
    ensures var s := ScheduleNext(t, next, parked); ResumeSchedule(t, s.ready, s.parked) == s
  {
    hide SortedIds, Merge, Listed, Blocked, Dynamics, ResumeSchedule;
    var s := ScheduleNext(t, next, parked);
    var all := Merge(next, parked);
    var now := ReadyNodes(t, all.Keys);
    MergeKeys(next, parked);
    DynamicsAreDynamic(next);
    var ready := Restrict(all, now);
    assert Splits(all, ready, s.parked);
    ResumeOfSplit(t, all, ready, Dynamics(next), s.parked);
  }

  lemma StillBlocked(t: Tables, active: set<NodeId>)
    ensures forall n :: n in active && n !in ReadyNodes(t, active) ==> Blocked(t, n, active)
  {
  }

  lemma ListedHolds(m: TaskMap, n: NodeId)
    requires Keyed(m) && n in m
    ensures exists i :: 0 <= i < |Listed(m)| && Listed(m)[i].nodeId == n
  {
    var ids := SortedIds(m.Keys);
    var i :| 0 <= i < |ids| && ids[i] == n;
    assert Listed(m)[i].nodeId == n;
  }

  /** resolvedToEnd: the run is completed without entering the wave loop. */
  predicate ResolvesToEnd(start: seq<GraphTask>) {
    start == [] || (|start| == 1 && start[0].nodeId == END)
  }

  /** An after-wave schedule that resumes straight to the end has no parked join to drop. */
  lemma EndAfterWaveDropsNothing(g: Graph, t: Tables, next: seq<GraphTask>, parked: TaskMap)
    requires Compiled(g, t) && Keyed(parked)
    requires ResolvesToEnd(ScheduleNext(t, next, parked).ready)
    ensures ScheduleNext(t, next, parked).parked == map[]
  {
    hide Compiled;
    var s := ScheduleNext(t, next, parked);
    var all := Merge(next, parked);
    var now := ReadyNodes(t, all.Keys);
    MergeKeys(next, parked);
    if s.parked != map[] {
      var n :| n in s.parked;
      StillBlocked(t, all.Keys);
      var r := ParkedHasReadyBlocker(g, t, all.Keys, n);
      ListedHolds(Restrict(all, now), r);
    }
  }

  // ----- checkpoints taken before a node -----

  /** Every parked join keeps waiting if of the wave only this task is left. */
  predicate AllWaiting(t: Tables, task: GraphTask, parked: TaskMap) {
    forall n | n in parked :: Blocked(t, n, parked.Keys + StaticNodes([task]))
  }

  /** The checkpoint before a node stores that node's task alone. Resuming it gives that task and the parked
      joins back exactly if they all wait for it or for each other; otherwise joins are released that
      waited for the other tasks of the wave. */
  lemma ResumeBeforeNodeExact(t: Tables, task: GraphTask, parked: TaskMap)
    requires Keyed(parked) && (task.dynamic || task.nodeId !in parked)
    ensures ResumeSchedule(t, [task], parked) == Schedule([task], parked) <==> AllWaiting(t, task, parked)
  {
    hide Merge, Listed, Blocked, Dynamics, StaticNodes;
    OneTask(task);
    MergeKeys([task], parked);
    var now := ResumeNodes(t, StaticNodes([task]), parked.Keys);
    assert StaticNodes([task]) + parked.Keys == parked.Keys + StaticNodes([task]);
    if AllWaiting(t, task, parked) {
      var ready: TaskMap := if task.dynamic then map[] else map[task.nodeId := task];
      var dynamics := if task.dynamic then [task] else [];
      var all := ready + parked;
      assert all.Keys == parked.Keys + StaticNodes([task]);
      ResumeOfSplit(t, all, ready, dynamics, parked);
      ListedOne(task, ready);
      assert Listed(ready) + dynamics == [task];
    } else {
      var n :| n in parked && !Blocked(t, n, parked.Keys + StaticNodes([task]));
      assert n in now;
      assert n !in ResumeSchedule(t, [task], parked).parked;
    }
  }

  lemma OneTask(task: GraphTask)
    ensures StaticNodes([task]) == (if task.dynamic then {} else {task.nodeId})
  {
    assert [task][0] == task;
  }

  lemma ListedOne(task: GraphTask, ready: TaskMap)
    requires ready == if task.dynamic then map[] else map[task.nodeId := task]
    ensures Listed(ready) == if task.dynamic then [] else [task]
  {
    if !task.dynamic {
      assert ready.Keys == {task.nodeId};
      SortedSingleton(task.nodeId);
    }
  }

  /** For a task that has the wave to itself nothing changes. */
  lemma ResumeBeforeSingleNode(t: Tables, next: seq<GraphTask>, parked: TaskMap, i: nat)
    requires Keyed(parked) && i < |ScheduleNext(t, next, parked).ready|
    requires forall k :: 0 <= k < |ScheduleNext(t, next, parked).ready| && k != i ==>
               ScheduleNext(t, next, parked).ready[k].nodeId == END
    ensures var s := ScheduleNext(t, next, parked); ResumeSchedule(t, [s.ready[i]], s.parked) == Schedule([s.ready[i]], s.parked)
  {
    hide ResumeSchedule, ScheduleNext;
    var s := ScheduleNext(t, next, parked);
    LeftWaiting(t, next, parked, i);
    ResumeBeforeNodeExact(t, s.ready[i], s.parked);
  }

  lemma LeftWaiting(t: Tables, next: seq<GraphTask>, parked: TaskMap, i: nat)
    requires Keyed(parked) && i < |ScheduleNext(t, next, parked).ready|
    requires forall k :: 0 <= k < |ScheduleNext(t, next, parked).ready| && k != i ==>
               ScheduleNext(t, next, parked).ready[k].nodeId == END
    ensures var s := ScheduleNext(t, next, parked);
            && Keyed(s.parked) && AllWaiting(t, s.ready[i], s.parked)
            && (s.ready[i].dynamic || s.ready[i].nodeId !in s.parked)
  {
    hide Merge, Listed, Dynamics, StaticNodes;
    var s := ScheduleNext(t, next, parked);
    var all := Merge(next, parked);
    var now := ReadyNodes(t, all.Keys);
    MergeKeys(next, parked);
    var ready := Restrict(all, now);
    OneTask(s.ready[i]);
    DynamicsAreDynamic(next);
    ListedFresh(ready, map[]);
    if !s.ready[i].dynamic {
      assert i < |Listed(ready)| && s.ready[i] == Listed(ready)[i];
    }
    forall n | n in s.parked ensures Blocked(t, n, s.parked.Keys + StaticNodes([s.ready[i]])) {
      var a :| a in all.Keys && IsStrictUpstream(t.reach, a, n);
      if a in ready {
        ListedHolds(ready, a);
        var k :| 0 <= k < |Listed(ready)| && Listed(ready)[k].nodeId == a;
        assert s.ready[k].nodeId == a && a != END && k == i;
        assert !s.ready[i].dynamic;
      }
      assert a in s.parked.Keys + StaticNodes([s.ready[i]]);
    }
  }

  /** The parked joins that a run resumed before this task releases at once: what they waited for were the
      other tasks of the wave. */
  function ReleasedEarly(t: Tables, task: GraphTask, parked: set<NodeId>): set<NodeId> {
    set n | n in parked && !Blocked(t, n, parked + StaticNodes([task]))
  }

  lemma ResumedBeforeNode(t: Tables, task: GraphTask, parked: TaskMap)
    requires Keyed(parked) && (task.dynamic || task.nodeId !in parked) && task.nodeId != END && END !in parked
    ensures var first, early := ResumeSchedule(t, [task], parked), ReleasedEarly(t, task, parked.Keys);
            Wave(first) == {task.nodeId} + early && first.parked.Keys == parked.Keys - early && Keyed(first.parked)
  {
    hide Merge, Listed, Blocked, Dynamics, StaticNodes, ResumeSchedule, Wave;
    OneTask(task);
    OneDynamic(task);
    ResumedWave(t, [task], parked);
    ResumedKeyed(t, [task], parked);
    var early, own := ReleasedEarly(t, task, parked.Keys), StaticNodes([task]);
    assert own + parked.Keys == parked.Keys + own;
    assert ResumeNodes(t, own, parked.Keys) == own + early;
    assert {task.nodeId} + early - {END} == {task.nodeId} + early;
  }

  lemma OneDynamic(task: GraphTask)
    ensures TaskNodes(Dynamics([task])) == (if task.dynamic then {task.nodeId} else {})
  {
    assert Dynamics([]) == [];
    assert [task][..0] == [];
    assert Dynamics([task]) == (if task.dynamic then [task] else []);
    assert task.dynamic ==> Dynamics([task])[0].nodeId == task.nodeId;
  }

  lemma ResumedKeyed(t: Tables, start: seq<GraphTask>, parked: TaskMap)
    requires Keyed(parked)
    ensures Keyed(ResumeSchedule(t, start, parked).parked)
  {
    hide Merge, Listed, Blocked, Dynamics, StaticNodes;
    MergeKeys(start, parked);
  }

  /** Nothing the other nodes of the wave routed to is lost, every join released early is routed to once
      more, and those joins routed to nothing new; the end excepted. */
  ghost predicate GoesOnAlike(
    g: Graph, wave: set<NodeId>, n: NodeId, early: set<NodeId>, answers: Answers, parked: set<NodeId>)
  {
    var resumed := NextTargets(g, {n} + early, answers);
    && NextTargets(g, wave - {n}, answers) - {END} <= resumed + (parked - early)
    && early <= resumed
    && NextTargets(g, early, answers) - {END} <= NextTargets(g, wave, answers) + parked
  }

  /** In a wave of several nodes the others have finished when the run stops before one of them, and what
      they routed to is not stored; joins that waited for them are released beside it. For any wave, this
      is exactly when the resumed run goes on from there with the same nodes, running and parked. */
  lemma SiblingsLostExactly(g: Graph, t: Tables, wave: set<NodeId>, task: GraphTask, answers: Answers, parked: TaskMap)
    requires Compiled(g, t) && Keyed(parked) && END !in parked
    requires task.nodeId in wave && task.nodeId != END && (task.dynamic || task.nodeId !in parked)
    ensures var first := ResumeSchedule(t, [task], parked);
            var live := ScheduleNext(t, StaticTasks(SortedIds(NextTargets(g, wave, answers))), parked);
            var resumed := ScheduleNext(t, StaticTasks(SortedIds(NextTargets(g, Wave(first), answers))), first.parked);
            Wave(live) == Wave(resumed) && live.parked.Keys == resumed.parked.Keys
            <==> GoesOnAlike(g, wave, task.nodeId, ReleasedEarly(t, task, parked.Keys), answers, parked.Keys)
  {
    hide ScheduleNext, ResumeSchedule, ReleasedEarly, Wave, NextTargets, Compiled, Blocked, SortedIds, StaticTasks, Keyed, ReadyNodes;
    ResumedBeforeNode(t, task, parked);
    var first, early, n := ResumeSchedule(t, [task], parked), ReleasedEarly(t, task, parked.Keys), task.nodeId;
    var all, again := NextTargets(g, wave, answers), NextTargets(g, {n} + early, answers);
    ScheduledNodes(t, all, parked);
    ScheduledNodes(t, again, first.parked);
    EndIsNoJoin(g, t);
    SameReady(t, parked.Keys + all, first.parked.Keys + again);
    SameReady(t, first.parked.Keys + again, parked.Keys + all);
    TargetsSplit(g, wave, {n}, answers);
    EarlyAreParked(t, task, parked.Keys);
    TargetsJoined(g, n, early, answers);
    SameActive(parked.Keys, early, NextTargets(g, {n}, answers), NextTargets(g, early, answers),
               NextTargets(g, wave - {n}, answers), END);
  }

  lemma EarlyAreParked(t: Tables, task: GraphTask, parked: set<NodeId>)
    ensures ReleasedEarly(t, task, parked) <= parked
  {
  }

  lemma TargetsJoined(g: Graph, n: NodeId, early: set<NodeId>, answers: Answers)
    ensures NextTargets(g, {n} + early, answers) == NextTargets(g, {n}, answers) + NextTargets(g, early, answers)
  {
    hide RouteNodes;
  }

  /** The two runs have the same active nodes: those parked, and what n, the early joins and the siblings
      routed to. */
  lemma SameActive<T>(parked: set<T>, early: set<T>, own: set<T>, more: set<T>, others: set<T>, end: T)
    requires early <= parked && end !in parked
    ensures parked + (own + others) - {end} == parked - early + (own + more) - {end}
            <==> && others - {end} <= own + more + (parked - early)
                 && early <= own + more
                 && more - {end} <= own + others + parked
  {
    var live, resumed := parked + (own + others) - {end}, parked - early + (own + more) - {end};
    if live == resumed {
      assert forall x :: x in others - {end} ==> x in live;
      assert forall x :: x in early ==> x in live;
      assert forall x :: x in more - {end} ==> x in resumed;
    } else if others - {end} <= own + more + (parked - early) && early <= own + more && more - {end} <= own + others + parked {
      forall x ensures x in live <==> x in resumed {
        assert x in others && x != end ==> x in others - {end};
        assert x in more && x != end ==> x in more - {end};
      }
    }
  }

  /** On a graph without cycles, where routing follows the edges, a join that is released early is never
      routed to again by what runs beside it. So the resumed run goes on alike exactly if every parked join
      keeps waiting and the other nodes of the wave routed to nothing new. */
  lemma SiblingsLostAcyclic(g: Graph, t: Tables, wave: set<NodeId>, task: GraphTask, answers: Answers, parked: TaskMap)
    requires Accepted(g) && Registered(g) && Acyclic(g) && Compiled(g, t) && PlainAnswers(answers)
    requires Keyed(parked) && END !in parked && parked.Keys <= g.nodes && wave <= g.nodes
    requires task.nodeId in wave && task.nodeId != END && !task.dynamic && task.nodeId !in parked
    ensures GoesOnAlike(g, wave, task.nodeId, ReleasedEarly(t, task, parked.Keys), answers, parked.Keys)
            <==> && AllWaiting(t, task, parked)
                 && NextTargets(g, wave - {task.nodeId}, answers) - {END} <= NextTargets(g, {task.nodeId}, answers) + parked.Keys
  {
    hide NextTargets, Accepted, Registered, Acyclic, Compiled, PlainAnswers, Blocked, StaticNodes, Keyed;
    var early, n := ReleasedEarly(t, task, parked.Keys), task.nodeId;
    OneTask(task);
    if early != {} {
      var m :| m in early;
      if m in NextTargets(g, {n} + early, answers) {
        NotRoutedAgain(g, t, parked.Keys + {n}, {n} + early, answers, m);
      }
    } else {
      assert {n} + early == {n} && parked.Keys - early == parked.Keys;
      NoTargets(g, answers);
      assert early == {};
    }
  }

  lemma NoTargets(g: Graph, answers: Answers)
    ensures NextTargets(g, {}, answers) == {}
  {
  }

  lemma NotRoutedAgain(g: Graph, t: Tables, active: set<NodeId>, wave: set<NodeId>, answers: Answers, m: NodeId)
    requires Accepted(g) && Registered(g) && Acyclic(g) && Compiled(g, t) && PlainAnswers(answers)
    requires wave <= active && wave <= g.nodes && END !in wave && m in NextTargets(g, wave, answers) && m != END
    ensures Blocked(t, m, active)
  {
    hide NextTargets, Accepted, Acyclic, Compiled, PlainAnswers, Edge, IsStrictUpstream;
    TargetsFollowEdges(g, wave, answers);
    var w :| w in wave && Edge(g, w, m);
    EdgeReaches(g, w, m);
    StrictUpstreamAcyclic(g, t, w, m);
  }

  lemma TargetsSplit(g: Graph, wave: set<NodeId>, part: set<NodeId>, answers: Answers)
    requires part <= wave
    ensures NextTargets(g, wave, answers) == NextTargets(g, part, answers) + NextTargets(g, wave - part, answers)
  {
    hide RouteNodes;
  }

  /** The end neither blocks nor waits: it makes no difference to the rest. */
  lemma SameReady(t: Tables, active: set<NodeId>, other: set<NodeId>)
    requires END !in t.joins
    ensures ReadyNodes(t, active) - {END} + (active - ReadyNodes(t, active)) == active - {END}
    ensures active - {END} == other - {END} ==>
              && ReadyNodes(t, active) - {END} == ReadyNodes(t, other) - {END}
              && active - ReadyNodes(t, active) == other - ReadyNodes(t, other)
  {
    if active - {END} == other - {END} {
      forall n ensures Blocked(t, n, active) <==> Blocked(t, n, other) {
        assert forall a :: a in active && a != END ==> a in other - {END};
        assert forall a :: a in other && a != END ==> a in active - {END};
      }
    }
  }

  // ----- checkpoints taken after a single node -----

  function NumberedFrom(s: seq<GraphTask>, k: nat): seq<GraphTask> {
    seq(|s|, i requires 0 <= i < |s| => s[i].(order := k + i))
  }

  /** resolveCommands for one finished task without a command: the live run goes on with the routed nodes
      in order of their ids, each once, and with the dynamic tasks sorted and numbered after them. A
      resumed run takes the tasks as they were routed. */
  function LiveTasks(routed: seq<GraphTask>): seq<GraphTask> {
    var statics := StaticTasks(SortedIds(StaticNodes(routed)));
    statics + NumberedFrom(SortTasks(Dynamics(routed)), |statics|)
  }

  function Joined(routes: seq<seq<GraphTask>>): seq<GraphTask> {
    if routes == [] then [] else Joined(routes[..|routes| - 1]) + routes[|routes| - 1]
  }

  /** appendResolvedRouteTasks: the nodes of the static tasks as a set, the dynamic tasks as they come. */
  method AppendResolvedRouteTasks(tasks: seq<GraphTask>, nodes: set<NodeId>, dynamics: seq<GraphTask>, ghost before: seq<GraphTask>)
    returns (nodes': set<NodeId>, dynamics': seq<GraphTask>)
    requires nodes == StaticNodes(before) && dynamics == Dynamics(before)
    ensures nodes' == StaticNodes(before + tasks) && dynamics' == Dynamics(before + tasks)
  {
    hide StaticNodes, Dynamics;
    nodes', dynamics' := nodes, dynamics;
    assert before + tasks[..0] == before;
    for i := 0 to |tasks|
      invariant nodes' == StaticNodes(before + tasks[..i]) && dynamics' == Dynamics(before + tasks[..i])
    {
      assert before + tasks[..i + 1] == (before + tasks[..i]) + [tasks[i]];
      StaticNodesSplit(before + tasks[..i], tasks[i]);
      DynamicsSplit(before + tasks[..i], tasks[i]);
      if tasks[i].dynamic {
        dynamics' := dynamics' + [tasks[i]];
      } else {
        nodes' := nodes' + {tasks[i].nodeId};
      }
    }
    assert tasks[..|tasks|] == tasks;
  }

  lemma DynamicsSplit(init: seq<GraphTask>, task: GraphTask)
    ensures Dynamics(init + [task]) == Dynamics(init) + (if task.dynamic then [task] else [])
  {
    assert (init + [task])[..|init|] == init;
  }

  /** resolveCommands for a wave whose nodes gave no commands: what they routed to, one list per node. */
  method ResolveCommands(routes: seq<seq<GraphTask>>) returns (tasks: seq<GraphTask>)
    ensures tasks == LiveTasks(Joined(routes))
  {
    hide StaticNodes, Dynamics, SortTasks, SortedIds;
    var nodes: set<NodeId>, dynamics: seq<GraphTask> := {}, [];
    NothingJoined();
    for i := 0 to |routes|
      invariant nodes == StaticNodes(Joined(routes[..i])) && dynamics == Dynamics(Joined(routes[..i]))
    {
      assert routes[..i + 1][..i] == routes[..i];
      nodes, dynamics := AppendResolvedRouteTasks(routes[i], nodes, dynamics, Joined(routes[..i]));
    }
    assert routes[..|routes|] == routes;
    var ids := SortedIds(nodes);
    tasks := [];
    for order := 0 to |ids|
      invariant tasks == StaticTasks(ids)[..order]
    {
      tasks := tasks + [NewStaticTask(ids[order], order)];
    }
    var sorted := SortTasks(dynamics);
    ghost var statics := tasks;
    for index := 0 to |sorted|
      invariant tasks == statics + NumberedFrom(sorted, |statics|)[..index]
    {
      tasks := tasks + [sorted[index].(order := |ids| + index)];
    }
  }

  lemma NothingJoined()
    ensures StaticNodes(Joined([])) == {} && Dynamics(Joined([])) == []
  {
  }

  /** One plain task for each of these nodes, by ascending id. */
  ghost predicate ListsNodes(tasks: seq<GraphTask>, nodes: set<NodeId>) {
    && (forall i :: 0 <= i < |tasks| ==> IsPlainTask(tasks[i], tasks[i].nodeId, i))
    && (forall i, j :: 0 <= i < j < |tasks| ==> LexLeq(tasks[i].nodeId, tasks[j].nodeId) && tasks[i].nodeId != tasks[j].nodeId)
    && TaskNodes(tasks) == nodes
  }

  /** These tasks in any order before, now by their keys and numbered from `k` on. */
  ghost predicate ListsSends(tasks: seq<GraphTask>, sends: seq<GraphTask>, k: nat) {
    && (forall i :: 0 <= i < |tasks| ==> tasks[i].order == k + i)
    && (forall i, j :: 0 <= i < j < |tasks| ==> InKeyOrder(tasks[i], tasks[j]))
    && SameButOrder(tasks, sends)
  }

  lemma StaticsListNodes(nodes: set<NodeId>)
    ensures ListsNodes(StaticTasks(SortedIds(nodes)), nodes)
  {
    hide SortedIds, LexLeq;
    var ids := SortedIds(nodes);
    SortedIdsAscend(nodes);
    var tasks := StaticTasks(ids);
    forall n | n in nodes ensures n in TaskNodes(tasks) {
      assert n in ids;
      var i :| 0 <= i < |ids| && ids[i] == n;
      assert tasks[i].nodeId == n;
    }
    forall i | 0 <= i < |ids| ensures tasks[i].nodeId in nodes {
      assert ids[i] in ids;
    }
  }

  lemma NumberedListsSends(sends: seq<GraphTask>, k: nat)
    ensures ListsSends(NumberedFrom(SortTasks(sends), k), sends, k)
  {
    hide SortTasks, InKeyOrder;
    SortTasksCorrect(sends);
    SortedByKeys(sends);
    var sorted, tasks := SortTasks(sends), NumberedFrom(SortTasks(sends), k);
    assert SameButOrder(tasks, sends);
    forall i, j | 0 <= i < j < |tasks| ensures InKeyOrder(tasks[i], tasks[j]) {
      KeysOnly(sorted[i], sorted[j], tasks[i], tasks[j]);
    }
  }

  /** The live list: first one plain task per node routed to, by ascending id, then the dynamic tasks by their
      keys; all of it numbered from zero. */
  lemma LiveTasksAre(routed: seq<GraphTask>)
    ensures var tasks, m := LiveTasks(routed), |SortedIds(StaticNodes(routed))|;
            && m <= |tasks| && ListsNodes(tasks[..m], StaticNodes(routed)) && ListsSends(tasks[m..], Dynamics(routed), m)
  {
    hide StaticNodes, Dynamics, SortTasks, SortedIds, ListsNodes, ListsSends;
    var ids := SortedIds(StaticNodes(routed));
    StaticsListNodes(StaticNodes(routed));
    NumberedListsSends(Dynamics(routed), |ids|);
    assert LiveTasks(routed)[..|ids|] == StaticTasks(ids);
    assert LiveTasks(routed)[|ids|..] == NumberedFrom(SortTasks(Dynamics(routed)), |ids|);
  }

  /** How the live run goes on: it ends with an error if a dynamic task may not start its join. */
  function LiveSchedule(t: Tables, routed: seq<GraphTask>, parked: TaskMap): Option<Schedule> {
    if NextTasksAllowed(t, LiveTasks(routed), parked.Keys) then Some(ScheduleNext(t, LiveTasks(routed), parked)) else None
  }

  /** No task routed to is a join with something strictly upstream still active. */
  predicate NoneBlocked(t: Tables, routed: seq<GraphTask>, parked: set<NodeId>) {
    forall n | n in StaticNodes(routed) && n in t.joins :: !Blocked(t, n, parked + StaticNodes(routed))
  }

  lemma NumberedDynamics(s: seq<GraphTask>, k: nat)
    requires forall i :: 0 <= i < |s| ==> s[i].dynamic
    ensures var r := NumberedFrom(SortTasks(s), k);
            (forall i :: 0 <= i < |r| ==> r[i].dynamic) && TaskNodes(r) == TaskNodes(s)
  {
    hide SortTasks;
    var sorted := SortTasks(s);
    SortTasksCorrect(s);
    forall i | 0 <= i < |sorted| ensures sorted[i] in s {
      assert sorted[i] in multiset(sorted);
    }
    forall i | 0 <= i < |s| ensures s[i] in sorted {
      assert s[i] in multiset(s);
    }
    var r := NumberedFrom(sorted, k);
    forall n | n in TaskNodes(s) ensures n in TaskNodes(r) {
      var i :| 0 <= i < |s| && s[i].nodeId == n;
      var j :| 0 <= j < |sorted| && sorted[j] == s[i];
      assert r[j].nodeId == n;
    }
  }

  /** The three folds of the live task list. */
  lemma LiveFolds(routed: seq<GraphTask>, parked: TaskMap)
    ensures var statics := StaticTasks(SortedIds(StaticNodes(routed)));
            && StaticNodes(LiveTasks(routed)) == StaticNodes(routed)
            && Merge(LiveTasks(routed), parked) == Merge(statics, parked)
            && Dynamics(LiveTasks(routed)) == NumberedFrom(SortTasks(Dynamics(routed)), |statics|)
            && TaskNodes(Dynamics(LiveTasks(routed))) == TaskNodes(Dynamics(routed))
  {
    hide SortTasks, SortedIds, Merge, StaticNodes, Dynamics, TaskNodes;
    var ids := SortedIds(StaticNodes(routed));
    var statics := StaticTasks(ids);
    DynamicsAreDynamic(routed);
    NumberedDynamics(Dynamics(routed), |statics|);
    var extra := NumberedFrom(SortTasks(Dynamics(routed)), |statics|);
    AppendDynamics(statics, extra, parked);
    NoDynamics(statics);
    StaticTaskNodes(ids);
    assert StaticNodes(statics) == StaticNodes(routed);
    assert [] + extra == extra;
  }

  lemma ListedAndMore(m: TaskMap, extra: seq<GraphTask>, parked: TaskMap)
    requires Keyed(m)
    ensures Wave(Schedule(Listed(m) + extra, parked)) == m.Keys + TaskNodes(extra) - {END}
  {
    hide Listed, TaskNodes, Wave;
    ListedNodes(m);
    TaskNodesAppend(Listed(m), extra);
    WaveOf(Schedule(Listed(m) + extra, parked));
  }

  lemma TaskNodesAppend(a: seq<GraphTask>, b: seq<GraphTask>)
    ensures TaskNodes(a + b) == TaskNodes(a) + TaskNodes(b)
  {
    var all := a + b;
    forall n | n in TaskNodes(a) ensures n in TaskNodes(all) {
      var i :| 0 <= i < |a| && a[i].nodeId == n;
      assert all[i].nodeId == n;
    }
    forall n | n in TaskNodes(b) ensures n in TaskNodes(all) {
      var i :| 0 <= i < |b| && b[i].nodeId == n;
      assert all[|a| + i].nodeId == n;
    }
  }

  lemma LiveNodes(t: Tables, routed: seq<GraphTask>, parked: TaskMap)
    requires Keyed(parked)
    ensures var live := ScheduleNext(t, LiveTasks(routed), parked);
            var now := ReadyNodes(t, parked.Keys + StaticNodes(routed));
            && Wave(live) == now + TaskNodes(Dynamics(routed)) - {END}
            && live.parked.Keys == parked.Keys + StaticNodes(routed) - now
  {
    hide LiveTasks, Merge, Listed, Dynamics, StaticNodes, ReadyNodes, Wave, TaskNodes;
    LiveFolds(routed, parked);
    var tasks := LiveTasks(routed);
    var all := Merge(tasks, parked);
    MergeKeys(tasks, parked);
    NowIsActive(t, all.Keys);
    var now := ReadyNodes(t, all.Keys);
    assert Restrict(all, now).Keys == now;
    ListedAndMore(Restrict(all, now), Dynamics(tasks), Without(all, now));
  }

  lemma NowIsActive(t: Tables, active: set<NodeId>)
    ensures ReadyNodes(t, active) <= active
  {
  }

  lemma ResumedWave(t: Tables, start: seq<GraphTask>, parked: TaskMap)
    requires Keyed(parked)
    ensures var resumed := ResumeSchedule(t, start, parked);
            var now := ResumeNodes(t, StaticNodes(start), parked.Keys);
            && Wave(resumed) == now + TaskNodes(Dynamics(start)) - {END}
            && resumed.parked.Keys == parked.Keys + StaticNodes(start) - now
  {
    hide Merge, Listed, Dynamics, StaticNodes, Wave, TaskNodes, Blocked;
    var all := Merge(start, parked);
    MergeKeys(start, parked);
    var now := ResumeNodes(t, StaticNodes(start), parked.Keys);
    assert now <= all.Keys;
    assert Restrict(all, now).Keys == now;
    ListedAndMore(Restrict(all, now), Dynamics(start), Without(all, now));
  }

  /** The two runs release different nodes exactly if a join routed to is blocked. */
  lemma SameNodesIff(t: Tables, routed: seq<GraphTask>, parked: set<NodeId>)
    requires parked <= t.joins
    ensures ReadyNodes(t, parked + StaticNodes(routed)) == ResumeNodes(t, StaticNodes(routed), parked)
            <==> NoneBlocked(t, routed, parked)
  {
    hide Blocked, StaticNodes;
    var start := StaticNodes(routed);
    var active := parked + start;
    assert start + parked == active;
    var live, resumed := ReadyNodes(t, active), ResumeNodes(t, start, parked);
    if n :| n in start && n in t.joins && Blocked(t, n, active) {
      assert n in resumed && n !in live;
    } else {
      assert live == resumed;
    }
  }

  /** After a node that was alone in its wave, the live run parks joins that a resumed run starts at
      once, and refuses dynamic tasks that a resumed run takes. Both go on with the same nodes, running
      and parked, exactly when the live run refuses nothing and no task routed to is a join with something
      strictly upstream still active. */
  lemma ResumeAfterNodeAgrees(t: Tables, routed: seq<GraphTask>, parked: TaskMap)
    requires Keyed(parked) && parked.Keys <= t.joins
    ensures var live, resumed := LiveSchedule(t, routed, parked), ResumeSchedule(t, routed, parked);
            var agree := NextTasksAllowed(t, LiveTasks(routed), parked.Keys) && NoneBlocked(t, routed, parked.Keys);
            && (live.Some? && live.value.parked.Keys == resumed.parked.Keys <==> agree)
            && (agree ==> Wave(live.value) == Wave(resumed))
  {
    hide ScheduleNext, ResumeSchedule, LiveTasks, StaticNodes, Dynamics, TaskNodes, Wave, NoneBlocked, ReadyNodes, ResumeNodes,
      NextTasksAllowed;
    LiveNodes(t, routed, parked);
    ResumedWave(t, routed, parked);
    SameNodesIff(t, routed, parked.Keys);
    NodesAreActive(t, routed, parked.Keys);
  }

  lemma NodesAreActive(t: Tables, routed: seq<GraphTask>, parked: set<NodeId>)
    ensures ReadyNodes(t, parked + StaticNodes(routed)) <= parked + StaticNodes(routed)
    ensures ResumeNodes(t, StaticNodes(routed), parked) <= parked + StaticNodes(routed)
  {
  }

  // ----- and in the same order -----

  ghost predicate PlainTasks(tasks: seq<GraphTask>) {
    forall i :: 0 <= i < |tasks| ==> !tasks[i].dynamic && tasks[i].failure.None?
  }

  lemma {:induction false} MergeKeepsParked(tasks: seq<GraphTask>, parked: TaskMap, n: NodeId)
    requires PlainTasks(tasks) && n in parked
    ensures n in Merge(tasks, parked) && Merge(tasks, parked)[n] == parked[n]
  {
    if tasks != [] {
      MergeKeepsParked(tasks[..|tasks| - 1], parked, n);
    }
  }

  lemma {:induction false} MergeOfFirst(tasks: seq<GraphTask>, parked: TaskMap, i: nat)
    requires PlainTasks(tasks) && i < |tasks| && IsFirst(tasks, i) && tasks[i].nodeId !in parked
    ensures tasks[i].nodeId in Merge(tasks, parked) && Merge(tasks, parked)[tasks[i].nodeId] == tasks[i]
  {
    var init := tasks[..|tasks| - 1];
    if i < |init| {
      MergeOfFirst(init, parked, i);
    } else {
      MergeKeys(init, parked);
      assert tasks[i].nodeId !in StaticNodes(init);
    }
  }

  /** The first task for a node stands for it; what is parked stays. */
  lemma MergeKeepsFirst(tasks: seq<GraphTask>, parked: TaskMap)
    requires PlainTasks(tasks)
    ensures var m := Merge(tasks, parked);
            && (forall n :: n in parked ==> n in m && m[n] == parked[n])
            && (forall i :: 0 <= i < |tasks| && IsFirst(tasks, i) && tasks[i].nodeId !in parked ==>
                  tasks[i].nodeId in m && m[tasks[i].nodeId] == tasks[i])
  {
    hide Merge, IsFirst, PlainTasks;
    var m := Merge(tasks, parked);
    forall n | n in parked ensures n in m && m[n] == parked[n] {
      MergeKeepsParked(tasks, parked, n);
    }
    forall i | 0 <= i < |tasks| && IsFirst(tasks, i) && tasks[i].nodeId !in parked
      ensures tasks[i].nodeId in m && m[tasks[i].nodeId] == tasks[i]
    {
      MergeOfFirst(tasks, parked, i);
    }
  }

  ghost predicate IsFirst(tasks: seq<GraphTask>, i: nat)
    requires i < |tasks|
  {
    forall j :: 0 <= j < i ==> tasks[j].nodeId != tasks[i].nodeId
  }

  /** The nodes that are not parked already were routed to in the places of their ids. */
  ghost predicate InPlace(targets: seq<NodeId>, parked: set<NodeId>) {
    var ids := SortedIds(set n | n in targets);
    forall i :: 0 <= i < |targets| && targets[i] !in targets[..i] && targets[i] !in parked ==> i < |ids| && ids[i] == targets[i]
  }

  lemma RouteValues(targets: seq<NodeId>, parked: TaskMap, i: nat)
    requires i < |targets| && targets[i] !in targets[..i] && targets[i] !in parked
    ensures targets[i] in Merge(StaticRouteTasks(targets), parked)
    ensures Merge(StaticRouteTasks(targets), parked)[targets[i]] == NewStaticTask(targets[i], i)
  {
    hide Merge;
    var tasks := StaticRouteTasks(targets);
    MergeKeepsFirst(tasks, parked);
    forall j | 0 <= j < i ensures tasks[j].nodeId != tasks[i].nodeId {
      assert targets[j] in targets[..i];
    }
    assert IsFirst(tasks, i) && tasks[i].nodeId == targets[i];
  }

  lemma SortedValues(targets: set<NodeId>, parked: TaskMap, k: nat)
    requires k < |SortedIds(targets)| && SortedIds(targets)[k] !in parked
    ensures var n := SortedIds(targets)[k];
            n in Merge(StaticTasks(SortedIds(targets)), parked) && Merge(StaticTasks(SortedIds(targets)), parked)[n] == NewStaticTask(n, k)
  {
    hide Merge, SortedIds;
    var ids := SortedIds(targets);
    var tasks := StaticTasks(ids);
    MergeKeepsFirst(tasks, parked);
    assert IsFirst(tasks, k) && tasks[k].nodeId == ids[k];
  }

  lemma SameTasksInPlace(targets: seq<NodeId>, parked: TaskMap)
    requires Merge(StaticTasks(SortedIds(set n | n in targets)), parked) == Merge(StaticRouteTasks(targets), parked)
    ensures InPlace(targets, parked.Keys)
  {
    hide Merge, SortedIds;
    var nodes := set n | n in targets;
    var ids := SortedIds(nodes);
    forall i | 0 <= i < |targets| && targets[i] !in targets[..i] && targets[i] !in parked
      ensures i < |ids| && ids[i] == targets[i]
    {
      RouteValues(targets, parked, i);
      assert targets[i] in ids;
      var k :| 0 <= k < |ids| && ids[k] == targets[i];
      SortedValues(nodes, parked, k);
    }
  }

  lemma SameTaskAt(targets: seq<NodeId>, parked: TaskMap, n: NodeId)
    requires InPlace(targets, parked.Keys) && (n in targets || n in parked)
    ensures var live, resumed := Merge(StaticTasks(SortedIds(set n | n in targets)), parked), Merge(StaticRouteTasks(targets), parked);
            n in live && n in resumed && live[n] == resumed[n]
  {
    hide Merge, SortedIds;
    var nodes := set n | n in targets;
    if n in parked {
      MergeKeepsParked(StaticTasks(SortedIds(nodes)), parked, n);
      MergeKeepsParked(StaticRouteTasks(targets), parked, n);
    } else {
      var i := FirstIndex(targets, n);
      RouteValues(targets, parked, i);
      SortedValues(nodes, parked, i);
    }
  }

  /** Both lists give each node the same task exactly if the nodes were routed to in place. */
  lemma SameTasksIff(targets: seq<NodeId>, parked: TaskMap)
    ensures Merge(StaticTasks(SortedIds(set n | n in targets)), parked) == Merge(StaticRouteTasks(targets), parked)
            <==> InPlace(targets, parked.Keys)
  {
    hide Merge, SortedIds, InPlace, StaticRouteTasks;
    var live, resumed := Merge(StaticTasks(SortedIds(set n | n in targets)), parked), Merge(StaticRouteTasks(targets), parked);
    if live == resumed {
      SameTasksInPlace(targets, parked);
    }
    if InPlace(targets, parked.Keys) {
      MergedNodes(targets, parked);
      forall n | n in live ensures n in resumed && live[n] == resumed[n] {
        SameTaskAt(targets, parked, n);
      }
    }
  }

  lemma MergedNodes(targets: seq<NodeId>, parked: TaskMap)
    ensures var nodes := set n | n in targets;
            && StaticNodes(StaticRouteTasks(targets)) == nodes
            && Merge(StaticTasks(SortedIds(nodes)), parked).Keys == parked.Keys + nodes
            && Merge(StaticRouteTasks(targets), parked).Keys == parked.Keys + nodes
  {
    hide Merge, SortedIds;
    var nodes := set n | n in targets;
    var ids := SortedIds(nodes);
    StaticTaskNodes(ids);
    StaticTaskNodes(targets);
    assert StaticTasks(targets) == StaticRouteTasks(targets);
    MergeKeys(StaticTasks(ids), parked);
    MergeKeys(StaticRouteTasks(targets), parked);
    assert StaticNodes(StaticTasks(ids)) == nodes;
    assert StaticNodes(StaticRouteTasks(targets)) == nodes;
  }

  lemma ListedTells(m: TaskMap, n: TaskMap)
    requires Keyed(m) && m.Keys == n.Keys && Listed(m) == Listed(n)
    ensures m == n
  {
    hide SortedIds;
    var ids := SortedIds(m.Keys);
    forall x | x in m ensures m[x] == n[x] {
      assert x in ids;
      var i :| 0 <= i < |ids| && ids[i] == x;
      assert Listed(m)[i] == m[x] && Listed(n)[i] == n[x];
    }
  }

  /** A schedule tells the tasks it was made from. */
  lemma ScheduleTells(all: TaskMap, other: TaskMap, now: set<NodeId>)
    requires Keyed(all) && all.Keys == other.Keys && now <= all.Keys
    ensures Schedule(Listed(Restrict(all, now)), Without(all, now)) == Schedule(Listed(Restrict(other, now)), Without(other, now))
            <==> all == other
  {
    hide Listed;
    var a, b := Restrict(all, now), Restrict(other, now);
    assert a.Keys == b.Keys;
    if Listed(a) == Listed(b) && Without(all, now) == Without(other, now) {
      ListedTells(a, b);
      forall n | n in all ensures all[n] == other[n] {
        if n in now {
          assert a[n] == b[n];
        } else {
          assert Without(all, now)[n] == Without(other, now)[n];
        }
      }
    }
  }

  /** For nodes routed to by edges the two schedules are equal, order included, exactly when none of them
      is a blocked join and those not parked already were routed to in the places of their ids. */
  lemma ResumeAfterNodeExact(t: Tables, targets: seq<NodeId>, parked: TaskMap)
    requires Keyed(parked) && parked.Keys <= t.joins
    ensures var routed := StaticRouteTasks(targets);
            LiveSchedule(t, routed, parked) == Some(ResumeSchedule(t, routed, parked))
            <==> NoneBlocked(t, routed, parked.Keys) && InPlace(targets, parked.Keys)
  {
    hide NextTasksAllowed, Merge, SortedIds, Listed, Blocked, ReadyNodes, ResumeNodes, StaticNodes, NoneBlocked, InPlace, Wave, Dynamics, SortTasks;
    var routed := StaticRouteTasks(targets);
    var nodes := set n | n in targets;
    MergedNodes(targets, parked);
    ResumeAfterNodeAgrees(t, routed, parked);
    SameTasksIff(targets, parked);
    SameNodesIff(t, routed, parked.Keys);
    NodesAreActive(t, routed, parked.Keys);
    LiveIsSorted(targets);
    var statics := StaticTasks(SortedIds(nodes));
    StaticsAreAllowed(t, statics, parked.Keys);
    NoDynamics(statics);
    NoDynamics(routed);
    MergeKeys(statics, parked);
    if NoneBlocked(t, routed, parked.Keys) {
      var now := ReadyNodes(t, parked.Keys + nodes);
      ScheduleTells(Merge(statics, parked), Merge(routed, parked), now);
      WithoutDynamics(t, statics, routed, parked, now);
    }
  }

  /** Static tasks are never refused. */
  lemma StaticsAreAllowed(t: Tables, tasks: seq<GraphTask>, parked: set<NodeId>)
    requires forall i :: 0 <= i < |tasks| ==> !tasks[i].dynamic
    ensures NextTasksAllowed(t, tasks, parked)
  {
  }

  lemma LiveIsSorted(targets: seq<NodeId>)
    ensures LiveTasks(StaticRouteTasks(targets)) == StaticTasks(SortedIds(set n | n in targets))
  {
    hide SortedIds;
    var routed := StaticRouteTasks(targets);
    NoDynamics(routed);
    MergedNodes(targets, map[]);
    assert SortTasks([]) == [];
    assert NumberedFrom([], |StaticTasks(SortedIds(StaticNodes(routed)))|) == [];
  }

  lemma WithoutDynamics(t: Tables, live: seq<GraphTask>, resumed: seq<GraphTask>, parked: TaskMap, now: set<NodeId>)
    requires Dynamics(live) == [] && Dynamics(resumed) == []
    requires now == ReadyNodes(t, Merge(live, parked).Keys) == ResumeNodes(t, StaticNodes(resumed), parked.Keys)
    ensures ScheduleNext(t, live, parked) == Schedule(Listed(Restrict(Merge(live, parked), now)), Without(Merge(live, parked), now))
    ensures ResumeSchedule(t, resumed, parked)
            == Schedule(Listed(Restrict(Merge(resumed, parked), now)), Without(Merge(resumed, parked), now))
  {
    hide Merge, Listed, Dynamics, ReadyNodes, ResumeNodes, StaticNodes;
    var a, b := Listed(Restrict(Merge(live, parked), now)), Listed(Restrict(Merge(resumed, parked), now));
    assert a + [] == a && b + [] == b;
  }

  /** Dynamic tasks were sorted and numbered when they were routed, and doing it again changes nothing. So
      the two schedules are equal exactly if the live run does not refuse the tasks: a resumed run never
      asks. */
  lemma ResumeAfterSendsAgrees(t: Tables, sends: seq<GraphTask>, parked: TaskMap)
    requires Keyed(parked) && parked.Keys <= t.joins && forall i :: 0 <= i < |sends| ==> sends[i].dynamic
    ensures var routed := Renumber(SortTasks(sends));
            LiveSchedule(t, routed, parked) == Some(ResumeSchedule(t, routed, parked))
            <==> NextTasksAllowed(t, routed, parked.Keys)
  {
    hide ScheduleNext, ResumeSchedule, SortTasks, Renumber, NextTasksAllowed, LiveTasks;
    LiveSends(sends);
    SendsScheduled(t, sends, parked);
  }

  lemma SendsScheduled(t: Tables, sends: seq<GraphTask>, parked: TaskMap)
    requires Keyed(parked) && parked.Keys <= t.joins && forall i :: 0 <= i < |sends| ==> sends[i].dynamic
    ensures var routed := Renumber(SortTasks(sends));
            ScheduleNext(t, routed, parked) == ResumeSchedule(t, routed, parked)
  {
    hide Merge, Listed, Blocked, ReadyNodes, ResumeNodes, SortTasks, SortedIds, StaticNodes, Dynamics, Renumber, NoneBlocked;
    var routed := Renumber(SortTasks(sends));
    SendsStayDynamic(sends);
    AppendDynamics([], routed, parked);
    assert [] + routed == routed;
    EmptyMerge(parked);
    SameNodesIff(t, routed, parked.Keys);
    assert NoneBlocked(t, routed, parked.Keys) by { NothingToBlock(t, routed, parked.Keys); }
    assert parked.Keys + {} == parked.Keys;
  }

  lemma NothingToBlock(t: Tables, routed: seq<GraphTask>, parked: set<NodeId>)
    requires StaticNodes(routed) == {}
    ensures NoneBlocked(t, routed, parked)
  {
  }

  lemma SendsStayDynamic(sends: seq<GraphTask>)
    requires forall i :: 0 <= i < |sends| ==> sends[i].dynamic
    ensures var routed := Renumber(SortTasks(sends));
            (forall i :: 0 <= i < |routed| ==> routed[i].dynamic) && StaticNodes(routed) == {}
  {
    hide SortTasks;
    SortedSame(sends);
    var sorted, routed := SortTasks(sends), Renumber(SortTasks(sends));
    forall i | 0 <= i < |routed| ensures routed[i].dynamic {
      assert sorted[i] in sorted && sorted[i] in sends;
    }
  }

  lemma LiveSends(sends: seq<GraphTask>)
    requires forall i :: 0 <= i < |sends| ==> sends[i].dynamic
    ensures LiveTasks(Renumber(SortTasks(sends))) == Renumber(SortTasks(sends))
  {
    hide SortTasks, Dynamics, StaticNodes, SortedIds;
    var routed := Renumber(SortTasks(sends));
    SendsStayDynamic(sends);
    AllDynamic(routed);
    SortedAgain(sends);
    NoStatics();
    assert NumberedFrom(routed, 0) == routed;
    assert [] + routed == routed;
  }

  lemma NoStatics()
    ensures StaticTasks(SortedIds({})) == []
  {
  }

  lemma EmptyMerge(parked: TaskMap)
    ensures Merge([], parked) == parked
  {
  }

  lemma {:induction false} AllDynamic(tasks: seq<GraphTask>)
    requires forall i :: 0 <= i < |tasks| ==> tasks[i].dynamic
    ensures Dynamics(tasks) == tasks
  {
    if tasks != [] {
      AllDynamic(tasks[..|tasks| - 1]);
      assert tasks == tasks[..|tasks| - 1] + [tasks[|tasks| - 1]];
    }
  }

  lemma SortedAgain(sends: seq<GraphTask>)
    ensures SortTasks(Renumber(SortTasks(sends))) == Renumber(SortTasks(sends))
  {
    hide SortTasks;
    SortTasksCorrect(sends);
    var sorted := SortTasks(sends);
    var routed := Renumber(sorted);
    forall i, j | 0 <= i < j < |routed| ensures !TaskLess(routed[j], routed[i]) {
      assert !TaskLess(sorted[j], sorted[i]);
    }
    SortOrdered(routed);
  }

  /** When the node routed to the end only, the live run still has work exactly when a join is
      parked; a resumed run is completed at once and that join is never run. */
  lemma EndAfterNodeDropsParked(g: Graph, t: Tables, parked: TaskMap)
    requires Compiled(g, t) && Keyed(parked) && END !in parked
    ensures var next := [NewStaticTask(END, 0)];
            && ResolvesToEnd(next)
            && (Wave(ScheduleNext(t, next, parked)) != {} <==> parked != map[])
  {
    SortedSingleton(END);
    assert StaticTasks(SortedIds({END})) == [NewStaticTask(END, 0)];
    ScheduledNodes(t, {END}, parked);
    var active := parked.Keys + {END};
    if parked != map[] {
      var n :| n in parked;
      if Blocked(t, n, active) {
        var r := ParkedHasReadyBlocker(g, t, active, n);
        assert r in ReadyNodes(t, active) - {END};
      } else {
        assert n in ReadyNodes(t, active) - {END};
      }
    }
  }
}
