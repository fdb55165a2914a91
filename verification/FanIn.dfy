/** The fan-in part of the scheduler: parking joins, releasing them, computing the next wave
    and rebuilding a wave from a stored schedule. */
module FanIn {
  import opened Common
  import opened Text
  import opened Topology

  /** A scheduled task. The input patch and the failure details are carried along unread. */
  datatype GraphTask = GraphTask(
    taskId: string,
    nodeId: NodeId,
    input: string,
    correlationKey: string,
    orderKey: string,
    order: int,
    dynamic: bool,
    failure: Option<string>)

  type TaskMap = map<NodeId, GraphTask>

  /** The tables the scheduler compiles once per graph. */
  datatype Tables = Tables(joins: set<NodeId>, reach: map<NodeId, set<NodeId>>)

  ghost predicate Compiled(g: Graph, t: Tables) {
    TableExact(g, t.reach) && forall n :: n in t.joins <==> IsJoin(g, n)
  }

  function NewStaticTask(n: NodeId, order: int): GraphTask {
    GraphTask(n, n, "", "", "", order, false, None)
  }

  /** Every entry is a static task stored under its own node. */
  ghost predicate Keyed(m: TaskMap) {
    forall n :: n in m ==> m[n].nodeId == n && !m[n].dynamic
  }

  /** storePreferred: the first task for a node stays unless a failure task replaces a plain one. */
  function StorePreferred(m: TaskMap, t: GraphTask): TaskMap {
    if t.nodeId !in m || (m[t.nodeId].failure.None? && t.failure.Some?) then m[t.nodeId := t] else m
  }

  // ----- specification of a scheduling step -----

  /** All static work known after the tasks arrive: what was parked, merged with the arrivals. */
  function Merge(tasks: seq<GraphTask>, parked: TaskMap): TaskMap {
    if tasks == [] then parked
    else
      var m := Merge(tasks[..|tasks| - 1], parked);
      var t := tasks[|tasks| - 1];
      if t.dynamic then m else StorePreferred(m, t)
  }

  function StaticNodes(tasks: seq<GraphTask>): set<NodeId> {
    set i | 0 <= i < |tasks| && !tasks[i].dynamic :: tasks[i].nodeId
  }

  function Dynamics(tasks: seq<GraphTask>): seq<GraphTask> {
    if tasks == [] then []
    else
      Dynamics(tasks[..|tasks| - 1])
      + (if tasks[|tasks| - 1].dynamic then [tasks[|tasks| - 1]] else [])
  }

  /** Some static node, ready or parked, lies strictly upstream of n. */
  predicate Blocked(t: Tables, n: NodeId, active: set<NodeId>) {
    exists a | a in active :: IsStrictUpstream(t.reach, a, n)
  }

  /** The nodes of the next wave among all active ones: every node that is not a join, and
      the joins nothing active is strictly upstream of. */
  function ReadyNodes(t: Tables, active: set<NodeId>): set<NodeId> {
    set n | n in active && (n !in t.joins || !Blocked(t, n, active))
  }

  function Restrict(m: TaskMap, keys: set<NodeId>): TaskMap {
    map n | n in m && n in keys :: m[n]
  }

  function Without(m: TaskMap, keys: set<NodeId>): TaskMap {
    map n | n in m && n !in keys :: m[n]
  }

  function InOrder(ids: seq<NodeId>, m: TaskMap): (r: seq<GraphTask>)
    requires forall n :: n in ids ==> n in m
    ensures |r| == |ids| && forall i :: 0 <= i < |ids| ==> r[i] == m[ids[i]]
  {
    seq(|ids|, i requires 0 <= i < |ids| => m[ids[i]])
  }

  /** sortedTasksByNodeID: how a map of tasks is listed, both for running and for storing. */
  function Listed(m: TaskMap): (r: seq<GraphTask>)
    ensures |r| == |SortedIds(m.Keys)|
  {
    InOrder(SortedIds(m.Keys), m)
  }

  /** The list goes by node id, ascending, and names every node once. */
  lemma ListedAscends(m: TaskMap)
    requires Keyed(m)
    ensures forall i, j :: 0 <= i < j < |Listed(m)| ==>
              LexLeq(Listed(m)[i].nodeId, Listed(m)[j].nodeId) && Listed(m)[i].nodeId != Listed(m)[j].nodeId
  {
    hide SortedIds;
    SortedIdsAscend(m.Keys);
    var ids := SortedIds(m.Keys);
    assert forall i :: 0 <= i < |ids| ==> ids[i] in m && Listed(m)[i].nodeId == ids[i];
  }

  datatype Schedule = Schedule(ready: seq<GraphTask>, parked: TaskMap)

  function ScheduleNext(t: Tables, next: seq<GraphTask>, parked: TaskMap): Schedule {
    var all := Merge(next, parked);
    var now := ReadyNodes(t, all.Keys);
    Schedule(Listed(Restrict(all, now)) + Dynamics(next), Without(all, now))
  }

  /** On resume the given static tasks run at once, whether or not they are joins; of the parked
      ones only those without a blocker are added. */
  function ResumeNodes(t: Tables, start: set<NodeId>, parked: set<NodeId>): set<NodeId> {
    start + set n | n in parked && n !in start && !Blocked(t, n, start + parked)
  }

  function ResumeSchedule(t: Tables, start: seq<GraphTask>, parked: TaskMap): Schedule {
    var all := Merge(start, parked);
    var now := ResumeNodes(t, StaticNodes(start), parked.Keys);
    Schedule(Listed(Restrict(all, now)) + Dynamics(start), Without(all, now))
  }

  // ----- dynamic tasks for joins -----

  predicate IsDynamicJoin(t: Tables, task: GraphTask) {
    task.dynamic && task.nodeId in t.joins
  }

  /** The join of task i is not parked, no other task is for it, and none is strictly upstream of it. */
  predicate StandsAlone(t: Tables, tasks: seq<GraphTask>, parked: set<NodeId>, i: nat)
    requires i < |tasks|
  {
    && tasks[i].nodeId !in parked
    && forall j :: 0 <= j < |tasks| && j != i ==>
         tasks[j].nodeId != tasks[i].nodeId && !IsStrictUpstream(t.reach, tasks[j].nodeId, tasks[i].nodeId)
  }

  /** validateNextTasks: a dynamic task may start a join only if nothing else is going on around it. */
  predicate NextTasksAllowed(t: Tables, tasks: seq<GraphTask>, parked: set<NodeId>) {
    forall i :: 0 <= i < |tasks| && IsDynamicJoin(t, tasks[i]) ==> StandsAlone(t, tasks, parked, i)
  }

  lemma {:induction false} MergeKeys(tasks: seq<GraphTask>, parked: TaskMap)
    ensures Merge(tasks, parked).Keys == parked.Keys + StaticNodes(tasks)
    ensures Keyed(parked) ==> Keyed(Merge(tasks, parked))
  {
    if tasks != [] {
      var init, t := tasks[..|tasks| - 1], tasks[|tasks| - 1];
      MergeKeys(init, parked);
      StaticNodesSplit(init, t);
      assert init + [t] == tasks;
    }
  }

  /** Refused are exactly the lists with a dynamic task for a join that is parked, that another task is for,
      or that another task is strictly upstream of; static tasks and tasks for other nodes never matter. */
  lemma RefusedExactly(t: Tables, tasks: seq<GraphTask>, parked: set<NodeId>)
    ensures !NextTasksAllowed(t, tasks, parked)
            <==> exists i :: 0 <= i < |tasks| && tasks[i].dynamic && tasks[i].nodeId in t.joins
                   && (|| tasks[i].nodeId in parked
                       || exists j :: 0 <= j < |tasks| && j != i
                            && (tasks[j].nodeId == tasks[i].nodeId || IsStrictUpstream(t.reach, tasks[j].nodeId, tasks[i].nodeId)))
  {
    hide IsStrictUpstream;
  }

  // ----- which task stands for a node -----

  /** The static tasks for a node, in order. */
  function Arrivals(tasks: seq<GraphTask>, n: NodeId): seq<GraphTask> {
    if tasks == [] then []
    else
      var last := tasks[|tasks| - 1];
      Arrivals(tasks[..|tasks| - 1], n) + if !last.dynamic && last.nodeId == n then [last] else []
  }

  /** All tasks for a node: the parked one, then the arrivals. */
  function Offers(tasks: seq<GraphTask>, parked: TaskMap, n: NodeId): seq<GraphTask> {
    (if n in parked then [parked[n]] else []) + Arrivals(tasks, n)
  }

  /** The first task with a failure is kept, and without one the first task. */
  ghost predicate IsKept(offers: seq<GraphTask>, task: GraphTask) {
    if forall k :: 0 <= k < |offers| ==> offers[k].failure.None? then offers != [] && task == offers[0]
    else exists i :: 0 <= i < |offers| && task == offers[i] && task.failure.Some? && forall k :: 0 <= k < i ==> offers[k].failure.None?
  }

  lemma KeptOfMore(offers: seq<GraphTask>, kept: GraphTask, task: GraphTask)
    requires IsKept(offers, kept)
    ensures IsKept(offers + [task], if kept.failure.None? && task.failure.Some? then task else kept)
  {
    var more := offers + [task];
    assert forall k :: 0 <= k < |offers| ==> more[k] == offers[k];
    assert more[|offers|] == task;
  }

  /** Merging keeps for each node that has a task the first one with a failure, otherwise the first, whatever
      was parked and whatever arrives. */
  lemma {:induction false} MergeKeepsFailures(tasks: seq<GraphTask>, parked: TaskMap, n: NodeId)
    ensures n in Merge(tasks, parked) <==> Offers(tasks, parked, n) != []
    ensures n in Merge(tasks, parked) ==> IsKept(Offers(tasks, parked, n), Merge(tasks, parked)[n])
  {
    hide IsKept;
    if tasks == [] {
      if n in parked {
        assert Offers(tasks, parked, n) == [parked[n]];
        OneIsKept(parked[n]);
      }
    } else {
      var init, last := tasks[..|tasks| - 1], tasks[|tasks| - 1];
      MergeKeepsFailures(init, parked, n);
      var before := Offers(init, parked, n);
      if !last.dynamic && last.nodeId == n {
        assert Offers(tasks, parked, n) == before + [last];
        if n in Merge(init, parked) {
          KeptOfMore(before, Merge(init, parked)[n], last);
        } else {
          assert before + [last] == [last];
          OneIsKept(last);
        }
      } else {
        assert Offers(tasks, parked, n) == before;
      }
    }
  }

  /** Every static task of a schedule is the one to be kept for its node. */
  ghost predicate TasksAreKept(s: Schedule, tasks: seq<GraphTask>, parked: TaskMap) {
    && (forall n :: n in s.parked ==> IsKept(Offers(tasks, parked, n), s.parked[n]))
    && (forall i :: 0 <= i < |s.ready| && !s.ready[i].dynamic ==> IsKept(Offers(tasks, parked, s.ready[i].nodeId), s.ready[i]))
  }

  lemma ScheduleKeepsFailures(t: Tables, tasks: seq<GraphTask>, parked: TaskMap)
    requires Keyed(parked)
    ensures TasksAreKept(ScheduleNext(t, tasks, parked), tasks, parked)
    ensures TasksAreKept(ResumeSchedule(t, tasks, parked), tasks, parked)
  {
    hide ReadyNodes, ResumeNodes, Merge, Listed, SortedIds, Dynamics, IsKept, Offers, StaticNodes;
    var all := Merge(tasks, parked);
    MergeKeys(tasks, parked);
    forall n | n in all ensures IsKept(Offers(tasks, parked, n), all[n]) {
      MergeKeepsFailures(tasks, parked, n);
    }
    DynamicsAreDynamic(tasks);
    ListedFrom(Restrict(all, ReadyNodes(t, all.Keys)));
    ListedFrom(Restrict(all, ResumeNodes(t, StaticNodes(tasks), parked.Keys)));
  }

  lemma ListedFrom(m: TaskMap)
    requires Keyed(m)
    ensures forall i :: 0 <= i < |Listed(m)| ==> Listed(m)[i].nodeId in m && Listed(m)[i] == m[Listed(m)[i].nodeId]
  {
    hide SortedIds;
    var ids := SortedIds(m.Keys);
    forall i | 0 <= i < |ids| ensures Listed(m)[i].nodeId in m && Listed(m)[i] == m[Listed(m)[i].nodeId] {
      assert ids[i] in m;
    }
  }

  lemma {:induction false} DynamicsAreDynamic(tasks: seq<GraphTask>)
    ensures forall i :: 0 <= i < |Dynamics(tasks)| ==> Dynamics(tasks)[i].dynamic
  {
    if tasks != [] {
      DynamicsAreDynamic(tasks[..|tasks| - 1]);
    }
  }

  lemma OneIsKept(task: GraphTask)
    ensures IsKept([task], task)
  {
    assert [task][0] == task;
  }

  lemma StaticNodesSplit(init: seq<GraphTask>, t: GraphTask)
    ensures StaticNodes(init + [t]) == StaticNodes(init) + (if t.dynamic then {} else {t.nodeId})
  {
    var tasks := init + [t];
    forall n | n in StaticNodes(init) ensures n in StaticNodes(tasks) {
      var i :| 0 <= i < |init| && !init[i].dynamic && init[i].nodeId == n;
      assert tasks[i] == init[i];
    }
    if !t.dynamic {
      assert tasks[|init|] == t;
    }
  }

  /** What one more task adds to the three folds. */
  lemma PrefixStep(tasks: seq<GraphTask>, i: nat, parked: TaskMap)
    requires i < |tasks|
    ensures var t := tasks[i];
            && Merge(tasks[..i + 1], parked)
               == (if t.dynamic then Merge(tasks[..i], parked) else StorePreferred(Merge(tasks[..i], parked), t))
            && Dynamics(tasks[..i + 1]) == Dynamics(tasks[..i]) + (if t.dynamic then [t] else [])
            && StaticNodes(tasks[..i + 1]) == StaticNodes(tasks[..i]) + (if t.dynamic then {} else {t.nodeId})
  {
    assert tasks[..i + 1][..i] == tasks[..i];
    assert tasks[..i + 1] == tasks[..i] + [tasks[i]];
    StaticNodesSplit(tasks[..i], tasks[i]);
  }

  // ----- the release loop -----

  /** The parked nodes nothing active is strictly upstream of. */
  ghost function Free(t: Tables, parked: set<NodeId>, active: set<NodeId>): set<NodeId> {
    set n | n in parked && !Blocked(t, n, active)
  }

  /** The tasks of `moved` went from parked to ready, and nothing else happened. */
  ghost predicate Moved(ready0: TaskMap, parked0: TaskMap, moved: set<NodeId>, ready: TaskMap, parked: TaskMap) {
    && moved <= parked0.Keys
    && parked.Keys == parked0.Keys - moved
    && (forall n :: n in parked ==> parked[n] == parked0[n])
    && ready.Keys == ready0.Keys + moved
    && (forall n :: n in ready ==> ready[n] == if n in moved then parked0[n] else ready0[n])
  }

  predicate HasUpstreamBlocker(t: Tables, n: NodeId, ready: TaskMap, parked: TaskMap) {
    || (exists a | a in ready.Keys :: IsStrictUpstream(t.reach, a, n))
    || (exists a | a in parked.Keys :: a != n && IsStrictUpstream(t.reach, a, n))
  }

  /** Moving tasks never changes who is blocked: only the union of the two maps matters. */
  lemma BlockerFromUnion(
    t: Tables, ready0: TaskMap, parked0: TaskMap, moved: set<NodeId>, ready: TaskMap, parked: TaskMap, n: NodeId)
    requires Moved(ready0, parked0, moved, ready, parked) && n in parked
    ensures HasUpstreamBlocker(t, n, ready, parked) <==> n !in Free(t, parked0.Keys, ready0.Keys + parked0.Keys)
  {
    assert ready0.Keys + parked0.Keys == ready.Keys + parked.Keys;
    assert HasUpstreamBlocker(t, n, ready, parked) <==> Blocked(t, n, ready.Keys + parked.Keys);
  }

  lemma MoveOne(ready0: TaskMap, parked0: TaskMap, moved: set<NodeId>, ready: TaskMap, parked: TaskMap, n: NodeId)
    requires Moved(ready0, parked0, moved, ready, parked) && n in parked
    ensures Moved(ready0, parked0, moved + {n}, ready[n := parked[n]], Without(parked, {n}))
  {
  }

  /** The scheduler's mutable state during one scheduling step. */
  class Scheduler {
    const tables: Tables
    var readyStatic: TaskMap
    var pendingFanIn: TaskMap

    constructor (tables: Tables)
      ensures this.tables == tables && readyStatic == map[] && pendingFanIn == map[]
    {
      this.tables := tables;
      readyStatic := map[];
      pendingFanIn := map[];
    }

    /** Moves one parked task to the ready ones. */
    method ReleaseTask(ghost ready0: TaskMap, ghost parked0: TaskMap, ghost freed: set<NodeId>, id: NodeId)
      requires Moved(ready0, parked0, freed, readyStatic, pendingFanIn) && id in pendingFanIn
      modifies this
      ensures Moved(ready0, parked0, freed + {id}, readyStatic, pendingFanIn)
      ensures pendingFanIn.Keys == old(pendingFanIn.Keys) - {id}
    {
      MoveOne(ready0, parked0, freed, readyStatic, pendingFanIn, id);
      var task := pendingFanIn[id];
      pendingFanIn := Without(pendingFanIn, {id});
      readyStatic := readyStatic[id := task];
    }

    /** One pass over the parked nodes in ascending order; `free` are those without a blocker. */
    method ReleasePass(ghost ready0: TaskMap, ghost parked0: TaskMap, ghost freed0: set<NodeId>, ghost free: set<NodeId>)
      returns (released: bool, ghost freed: set<NodeId>)
      requires free == Free(tables, parked0.Keys, ready0.Keys + parked0.Keys)
      requires Moved(ready0, parked0, freed0, readyStatic, pendingFanIn) && freed0 <= free
      modifies this
      ensures Moved(ready0, parked0, freed, readyStatic, pendingFanIn) && freed <= free
      ensures pendingFanIn.Keys <= old(pendingFanIn.Keys)
      ensures released ==> pendingFanIn.Keys != old(pendingFanIn.Keys)
      ensures pendingFanIn.Keys !! free
    {
      hide Free;
      hide HasUpstreamBlocker;
      hide Moved;
      released, freed := false, freed0;
      ghost var kept: set<NodeId> := {};
      var ids := SortedIds(pendingFanIn.Keys);
      for i := 0 to |ids|
        invariant Moved(ready0, parked0, freed, readyStatic, pendingFanIn) && freed <= free
        invariant pendingFanIn.Keys <= old(pendingFanIn.Keys)
        invariant forall k :: i <= k < |ids| ==> ids[k] in pendingFanIn
        invariant released ==> pendingFanIn.Keys != old(pendingFanIn.Keys)
        invariant kept !! free
        invariant forall k :: 0 <= k < i && ids[k] in pendingFanIn ==> ids[k] in kept
      {
        var id := ids[i];
        BlockerFromUnion(tables, ready0, parked0, freed, readyStatic, pendingFanIn, id);
        if !HasUpstreamBlocker(tables, id, readyStatic, pendingFanIn) {
          ReleaseTask(ready0, parked0, freed, id);
          freed := freed + {id};
          released := true;
        } else {
          kept := kept + {id};
        }
      }
    }

    /** Releases exactly the parked nodes that nothing ready or parked is strictly upstream of.
        The outcome is stated from the entry state alone, so the visiting order does not matter. */
    method ReleasePendingFanIn()
      modifies this
      ensures var active := old(readyStatic.Keys + pendingFanIn.Keys);
              Moved(old(readyStatic), old(pendingFanIn), Free(tables, old(pendingFanIn.Keys), active),
                    readyStatic, pendingFanIn)
    {
      ghost var ready0, parked0 := readyStatic, pendingFanIn;
      ghost var free := Free(tables, parked0.Keys, ready0.Keys + parked0.Keys);
      ghost var freed: set<NodeId> := {};
      var released := true;
      while released
        invariant Moved(ready0, parked0, freed, readyStatic, pendingFanIn) && freed <= free
        invariant !released ==> pendingFanIn.Keys !! free
        decreases pendingFanIn.Keys, released
      {
        released, freed := ReleasePass(ready0, parked0, freed, free);
      }
      assert freed == free;
    }

    /** Whether no other task is for the same node or strictly upstream of it. */
    method StandsClear(tasks: seq<GraphTask>, index: nat) returns (ok: bool)
      requires index < |tasks|
      ensures ok <==> forall j :: 0 <= j < |tasks| && j != index ==>
                tasks[j].nodeId != tasks[index].nodeId && !IsStrictUpstream(tables.reach, tasks[j].nodeId, tasks[index].nodeId)
    {
      hide IsStrictUpstream;
      var n := tasks[index].nodeId;
      for other := 0 to |tasks|
        invariant forall j :: 0 <= j < other && j != index ==>
                    tasks[j].nodeId != n && !IsStrictUpstream(tables.reach, tasks[j].nodeId, n)
      {
        if other != index && (tasks[other].nodeId == n || IsStrictUpstream(tables.reach, tasks[other].nodeId, n)) {
          return false;
        }
      }
      return true;
    }

    /** The dynamic tasks for joins by their join, unless two share one or the join is parked. */
    method DynamicJoinTasks(tasks: seq<GraphTask>) returns (ok: bool, indexes: map<NodeId, nat>)
      ensures !ok ==> !NextTasksAllowed(tables, tasks, pendingFanIn.Keys)
      ensures ok ==>
                && (forall n :: n in indexes ==>
                      && indexes[n] < |tasks| && n !in pendingFanIn
                      && tasks[indexes[n]].nodeId == n && IsDynamicJoin(tables, tasks[indexes[n]]))
                && (forall i :: 0 <= i < |tasks| && IsDynamicJoin(tables, tasks[i]) ==>
                      tasks[i].nodeId in indexes && indexes[tasks[i].nodeId] == i)
    {
      hide IsStrictUpstream;
      indexes := map[];
      for i := 0 to |tasks|
        invariant forall n :: n in indexes ==>
                    && indexes[n] < i && n !in pendingFanIn
                    && tasks[indexes[n]].nodeId == n && IsDynamicJoin(tables, tasks[indexes[n]])
        invariant forall k :: 0 <= k < i && IsDynamicJoin(tables, tasks[k]) ==>
                    tasks[k].nodeId in indexes && indexes[tasks[k].nodeId] == k
      {
        var n := tasks[i].nodeId;
        if IsDynamicJoin(tables, tasks[i]) {
          if n in indexes || n in pendingFanIn {
            assert !StandsAlone(tables, tasks, pendingFanIn.Keys, i) by {
              assert n in indexes ==> indexes[n] != i && tasks[indexes[n]].nodeId == n;
            }
            return false, indexes;
          }
          indexes := indexes[n := i];
        }
      }
      ok := true;
    }

    /** Whether the run goes on with these tasks or ends with an error. */
    method ValidateNextTasks(tasks: seq<GraphTask>) returns (ok: bool)
      ensures ok <==> NextTasksAllowed(tables, tasks, pendingFanIn.Keys)
    {
      hide IsStrictUpstream;
      var indexes;
      ok, indexes := DynamicJoinTasks(tasks);
      if !ok {
        return;
      }
      var ids := SortedIds(indexes.Keys);
      for k := 0 to |ids|
        invariant forall l :: 0 <= l < k ==> StandsAlone(tables, tasks, pendingFanIn.Keys, indexes[ids[l]])
      {
        var clear := StandsClear(tasks, indexes[ids[k]]);
        if !clear {
          assert !StandsAlone(tables, tasks, pendingFanIn.Keys, indexes[ids[k]]);
          return false;
        }
      }
      forall i | 0 <= i < |tasks| && IsDynamicJoin(tables, tasks[i])
        ensures StandsAlone(tables, tasks, pendingFanIn.Keys, i)
      {
        assert tasks[i].nodeId in ids;
      }
    }

    /** The wave that follows the given tasks. */
    method Next(next: seq<GraphTask>) returns (ready: seq<GraphTask>)
      requires pendingFanIn.Keys <= tables.joins
      modifies this
      ensures Schedule(ready, pendingFanIn) == ScheduleNext(tables, next, old(pendingFanIn))
    {
      readyStatic := map[];
      var readyDynamic: seq<GraphTask> := [];
      for i := 0 to |next|
        invariant readyStatic.Keys !! tables.joins && pendingFanIn.Keys <= tables.joins
        invariant Splits(Merge(next[..i], old(pendingFanIn)), readyStatic, pendingFanIn)
        invariant readyDynamic == Dynamics(next[..i])
      {
        var task := next[i];
        PrefixStep(next, i, old(pendingFanIn));
        if task.dynamic {
          readyDynamic := readyDynamic + [task];
        } else if task.nodeId in tables.joins {
          pendingFanIn := StorePreferred(pendingFanIn, task);
        } else {
          readyStatic := StorePreferred(readyStatic, task);
        }
      }
      assert next[..|next|] == next;
      ghost var ready0, parked0 := readyStatic, pendingFanIn;
      ReleasePendingFanIn();
      NextNodes(tables, ready0.Keys, parked0.Keys);
      MovedSplit(Merge(next, old(pendingFanIn)), ReadyNodes(tables, ready0.Keys + parked0.Keys), ready0, parked0,
                 Free(tables, parked0.Keys, ready0.Keys + parked0.Keys), readyStatic, pendingFanIn);
      ready := Listed(readyStatic) + readyDynamic;
    }

    /** A static task of a stored schedule is ready; what is parked for its node joins it. */
    method ResumeTask(task: GraphTask)
      requires Keyed(pendingFanIn)
      modifies this
      ensures readyStatic == Resumed(old(readyStatic), old(pendingFanIn), task)
      ensures pendingFanIn == Without(old(pendingFanIn), {task.nodeId})
    {
      WithoutOne(pendingFanIn, task.nodeId);
      if task.nodeId in pendingFanIn {
        var pendingTask := pendingFanIn[task.nodeId];
        pendingFanIn := Without(pendingFanIn, {task.nodeId});
        readyStatic := StorePreferred(readyStatic, pendingTask);
      }
      readyStatic := StorePreferred(readyStatic, task);
    }

    /** Rebuilds a wave from a stored schedule. */
    method Resume(start: seq<GraphTask>) returns (ready: seq<GraphTask>)
      requires Keyed(pendingFanIn)
      modifies this
      ensures Schedule(ready, pendingFanIn) == ResumeSchedule(tables, start, old(pendingFanIn))
    {
      hide Splits, Merge, StaticNodes, Dynamics, Keyed, Resumed, Without, StorePreferred;
      readyStatic := map[];
      var readyDynamic: seq<GraphTask> := [];
      NothingResumed(pendingFanIn);
      assert start[..0] == [];
      for i := 0 to |start|
        invariant Keyed(pendingFanIn)
        invariant readyStatic.Keys == StaticNodes(start[..i])
        invariant pendingFanIn.Keys == old(pendingFanIn.Keys) - StaticNodes(start[..i])
        invariant Splits(Merge(start[..i], old(pendingFanIn)), readyStatic, pendingFanIn)
        invariant readyDynamic == Dynamics(start[..i])
      {
        var task := start[i];
        PrefixStep(start, i, old(pendingFanIn));
        if task.dynamic {
          readyDynamic := readyDynamic + [task];
        } else {
          ResumeStep(Merge(start[..i], old(pendingFanIn)), readyStatic, pendingFanIn, task);
          WithoutOne(pendingFanIn, task.nodeId);
          ResumeTask(task);
        }
      }
      assert start[..|start|] == start;
      ready := Finish(start, old(pendingFanIn), readyDynamic);
    }

    /** The last part of a resumption: release what nothing blocks and list the wave. */
    method Finish(start: seq<GraphTask>, ghost parked: TaskMap, readyDynamic: seq<GraphTask>) returns (ready: seq<GraphTask>)
      requires Keyed(pendingFanIn)
      requires readyStatic.Keys == StaticNodes(start) && pendingFanIn.Keys == parked.Keys - StaticNodes(start)
      requires Splits(Merge(start, parked), readyStatic, pendingFanIn) && readyDynamic == Dynamics(start)
      modifies this
      ensures Schedule(ready, pendingFanIn) == ResumeSchedule(tables, start, parked)
    {
      hide Splits, Merge, StaticNodes, Dynamics, Keyed;
      ghost var ready0, parked0 := readyStatic, pendingFanIn;
      ReleasePendingFanIn();
      ResumedNodes(tables, StaticNodes(start), parked.Keys);
      MovedSplit(Merge(start, parked), ResumeNodes(tables, StaticNodes(start), parked.Keys),
                 ready0, parked0, Free(tables, parked0.Keys, ready0.Keys + parked0.Keys), readyStatic, pendingFanIn);
      ready := Listed(readyStatic) + readyDynamic;
    }
  }

  /** A map cut into two parts. */
  ghost predicate Splits(all: TaskMap, left: TaskMap, right: TaskMap) {
    && left.Keys !! right.Keys
    && all.Keys == left.Keys + right.Keys
    && (forall n :: n in left ==> left[n] == all[n])
    && (forall n :: n in right ==> right[n] == all[n])
  }

  lemma NothingResumed(parked: TaskMap)
    ensures Splits(Merge([], parked), map[], parked) && StaticNodes([]) == {} && Dynamics([]) == []
  {
  }

  lemma PreferredKeys(m: TaskMap, task: GraphTask)
    ensures StorePreferred(m, task).Keys == m.Keys + {task.nodeId}
    ensures forall n :: n in m && n != task.nodeId ==> StorePreferred(m, task)[n] == m[n]
  {
  }

  lemma WithoutOne(m: TaskMap, n: NodeId)
    requires Keyed(m)
    ensures Keyed(Without(m, {n})) && Without(m, {n}).Keys == m.Keys - {n}
    ensures n !in m ==> Without(m, {n}) == m
  {
    assert n !in m ==> Without(m, {n}).Keys == m.Keys;
  }

  /** What the ready part becomes when a static task resumes: its parked version comes first. */
  function Resumed(ready: TaskMap, parked: TaskMap, task: GraphTask): TaskMap {
    StorePreferred(if task.nodeId in parked then StorePreferred(ready, parked[task.nodeId]) else ready, task)
  }

  lemma ResumedKeys(ready: TaskMap, parked: TaskMap, task: GraphTask)
    requires Keyed(parked)
    ensures Resumed(ready, parked, task).Keys == ready.Keys + {task.nodeId}
    ensures forall n :: n in ready && n != task.nodeId ==> Resumed(ready, parked, task)[n] == ready[n]
  {
    hide StorePreferred;
    var n := task.nodeId;
    if n in parked {
      PreferredKeys(ready, parked[n]);
      PreferredKeys(StorePreferred(ready, parked[n]), task);
    } else {
      PreferredKeys(ready, task);
    }
  }

  /** For its own node it does not matter whether the task meets the parked one before or after the split. */
  lemma ResumedValue(all: TaskMap, ready: TaskMap, parked: TaskMap, task: GraphTask)
    requires Splits(all, ready, parked) && Keyed(parked)
    ensures task.nodeId in Resumed(ready, parked, task) && task.nodeId in StorePreferred(all, task)
    ensures Resumed(ready, parked, task)[task.nodeId] == StorePreferred(all, task)[task.nodeId]
  {
  }

  /** A resumed static task takes its node out of the parked part. */
  lemma ResumeStep(all: TaskMap, ready: TaskMap, parked: TaskMap, task: GraphTask)
    requires Splits(all, ready, parked) && Keyed(parked) && !task.dynamic
    ensures Splits(StorePreferred(all, task), Resumed(ready, parked, task), Without(parked, {task.nodeId}))
    ensures Resumed(ready, parked, task).Keys == ready.Keys + {task.nodeId}
  {
    hide StorePreferred, Resumed, Keyed;
    WithoutOne(parked, task.nodeId);
    PreferredKeys(all, task);
    ResumedKeys(ready, parked, task);
    ResumedValue(all, ready, parked, task);
  }

  /** Moving part of a split map leaves it split, along the enlarged left side. */
  lemma MovedSplit(
    all: TaskMap, now: set<NodeId>, ready0: TaskMap, parked0: TaskMap, moved: set<NodeId>, ready1: TaskMap, parked1: TaskMap)
    requires Splits(all, ready0, parked0)
    requires Moved(ready0, parked0, moved, ready1, parked1)
    requires now == ready0.Keys + moved
    ensures ready1 == Restrict(all, now) && parked1 == Without(all, now)
  {
    assert ready1.Keys == Restrict(all, now).Keys;
    assert parked1.Keys == Without(all, now).Keys;
  }

  lemma NextNodes(t: Tables, ready: set<NodeId>, parked: set<NodeId>)
    requires ready !! t.joins && parked <= t.joins
    ensures ReadyNodes(t, ready + parked) == ready + Free(t, parked, ready + parked)
  {
  }

  lemma ResumedNodes(t: Tables, start: set<NodeId>, parked: set<NodeId>)
    ensures ResumeNodes(t, start, parked) == start + Free(t, parked - start, start + (parked - start))
  {
    assert start + (parked - start) == start + parked;
  }

  // ----- no join is left waiting for nothing -----

  /** After a release every parked node has a strictly upstream node among the ready ones:
      following blockers upwards cannot end in a parked node. */
  lemma {:induction false} ParkedHasReadyBlocker(g: Graph, t: Tables, active: set<NodeId>, n: NodeId) returns (r: NodeId)
    requires Compiled(g, t)
    requires n in active && Blocked(t, n, active)
    ensures r in active && r != END && IsStrictUpstream(t.reach, r, n) && !Blocked(t, r, active)
    decreases |set a | a in active && IsStrictUpstream(t.reach, a, n)|
  {
    var a :| a in active && IsStrictUpstream(t.reach, a, n);
    if !Blocked(t, a, active) {
      r := a;
    } else {
      var above := set x | x in active && IsStrictUpstream(t.reach, x, a);
      var below := set x | x in active && IsStrictUpstream(t.reach, x, n);
      forall x | x in above ensures x in below {
        StrictUpstreamTransitive(g, t.reach, x, a, n);
      }
      assert a in below && a !in above;
      assert |below - above| == |below| - |above|;
      r := ParkedHasReadyBlocker(g, t, active, a);
      StrictUpstreamTransitive(g, t.reach, r, a, n);
    }
  }
}
