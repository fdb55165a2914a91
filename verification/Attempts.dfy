/** Node attempts racing their deadlines, and the collector that gathers one state patch per task. */
module Attempts {
  import opened Common

  type TaskId = string
  type NodeId = string

  /** The identity of the state object a wave starts from; every wave has its own. */
  type Base = nat

  /** A state patch as a list of changes; what the changes are does not matter here. */
  type Patch = seq<string>

  const EMPTY_PATCH: Patch := []

  datatype Task = Task(id: TaskId, node: NodeId, order: int, dynamic: bool)

  datatype Branch = Branch(task: TaskId, node: NodeId, order: int, patch: Patch)

  // ----- the decision cell -----

  datatype Decision = Pending | Accepted | Abandoned

  /** The atomic cell that decides between a result and its deadline. */
  class NodeAttempt {
    var decision: Decision

    constructor ()
      ensures decision == Pending
    {
      decision := Pending;
    }

    method CompareAndSwap(expected: Decision, next: Decision) returns (swapped: bool)
      modifies this
      ensures swapped <==> old(decision) == expected
      ensures decision == if swapped then next else old(decision)
    {
      swapped := decision == expected;
      if swapped {
        decision := next;
      }
    }

    /** Accepting is final and can be repeated; it fails exactly after an abandonment. */
    method TryAccept() returns (ok: bool)
      modifies this
      ensures ok <==> old(decision) != Abandoned
      ensures decision == if ok then Accepted else Abandoned
    {
      if decision == Accepted {
        return true;
      }
      if decision == Abandoned {
        return false;
      }
      ok := CompareAndSwap(Pending, Accepted);
    }

    method TryAbandon() returns (ok: bool)
      modifies this
      ensures ok <==> old(decision) == Pending
      ensures decision == if ok then Abandoned else old(decision)
    {
      ok := CompareAndSwap(Pending, Abandoned);
    }
  }

  // ----- the collector -----

  datatype Collector = Collector(
    orders: map<NodeId, int>, patches: map<Base, seq<Branch>>, abandoned: map<Base, set<TaskId>>)

  function Branches(c: Collector, base: Base): seq<Branch> {
    if base in c.patches then c.patches[base] else []
  }

  function Marks(c: Collector, base: Base): set<TaskId> {
    if base in c.abandoned then c.abandoned[base] else {}
  }

  function Position(branches: seq<Branch>, id: TaskId): (i: nat)
    ensures i <= |branches|
    ensures i < |branches| ==> branches[i].task == id
    ensures forall k :: 0 <= k < i ==> branches[k].task != id
  {
    if branches == [] || branches[0].task == id then 0 else 1 + Position(branches[1..], id)
  }

  /** Replace the task's branch where it stands, or append it. */
  function Upsert(branches: seq<Branch>, b: Branch): seq<Branch> {
    var i := Position(branches, b.task);
    if i < |branches| then branches[i := b] else branches + [b]
  }

  function WithOrder(orders: map<NodeId, int>, task: Task): map<NodeId, int> {
    if task.dynamic || task.node in orders then orders else orders[task.node := |orders|]
  }

  function Put(c: Collector, base: Base, task: Task, patch: Patch): Collector {
    var orders := WithOrder(c.orders, task);
    var order := if task.dynamic then task.order else orders[task.node];
    c.(orders := orders, patches := c.patches[base := Upsert(Branches(c, base), Branch(task.id, task.node, order, patch))])
  }

  /** Nothing a worker records counts once its task was abandoned. */
  function Record(c: Collector, base: Base, task: Task, patch: Patch): Collector {
    if task.id in Marks(c, base) then c else Put(c, base, task, patch)
  }

  function Abandon(c: Collector, base: Base, task: Task): Collector {
    Put(c.(abandoned := c.abandoned[base := Marks(c, base) + {task.id}]), base, task, EMPTY_PATCH)
  }

  function ReleaseMark(c: Collector, base: Base, id: TaskId): Collector {
    var rest := Marks(c, base) - {id};
    c.(abandoned := if rest == {} then c.abandoned - {base} else c.abandoned[base := rest])
  }

  predicate HasPatch(c: Collector, base: Base, id: TaskId) {
    exists i :: 0 <= i < |Branches(c, base)| && Branches(c, base)[i].task == id
  }

  function Forget(c: Collector, base: Base): Collector {
    c.(patches := c.patches - {base})
  }

  /** compilePatchCollector; every method runs under its mutex. */
  class PatchCollector {
    var orders: map<NodeId, int>
    var patches: map<Base, seq<Branch>>
    var abandoned: map<Base, set<TaskId>>

    function Value(): Collector
      reads this
    {
      Collector(orders, patches, abandoned)
    }

    constructor (orders: map<NodeId, int>)
      ensures Value() == Collector(orders, map[], map[])
    {
      this.orders, patches, abandoned := orders, map[], map[];
    }

    /** The part Record and AbandonTask share: the task's order, then its place among the branches. */
    method Store(base: Base, task: Task, patch: Patch)
      modifies this
      ensures Value() == Put(old(Value()), base, task, patch)
    {
      var order := task.order;
      if !task.dynamic {
        if task.node !in orders {
          orders := orders[task.node := |orders|];
        }
        order := orders[task.node];
      }
      var branch := Branch(task.id, task.node, order, patch);
      var branches := if base in patches then patches[base] else [];
      for i := 0 to |branches|
        invariant Value() == old(Value()).(orders := WithOrder(old(orders), task))
        invariant forall k :: 0 <= k < i ==> branches[k].task != task.id
      {
        if branches[i].task == task.id {
          patches := patches[base := branches[i := branch]];
          return;
        }
      }
      patches := patches[base := branches + [branch]];
    }

    method RecordPatch(base: Base, task: Task, patch: Patch)
      modifies this
      ensures Value() == Record(old(Value()), base, task, patch)
    {
      if base in abandoned && task.id in abandoned[base] {
        return;
      }
      Store(base, task, patch);
    }

    method AbandonTask(base: Base, task: Task)
      modifies this
      ensures Value() == Abandon(old(Value()), base, task)
    {
      if base !in abandoned {
        abandoned := abandoned[base := {}];
      }
      abandoned := abandoned[base := abandoned[base] + {task.id}];
      Store(base, task, EMPTY_PATCH);
    }

    method ReleaseAbandonedTask(base: Base, id: TaskId)
      modifies this
      ensures Value() == ReleaseMark(old(Value()), base, id)
    {
      var tasks := if base in abandoned then abandoned[base] - {id} else {};
      if |tasks| == 0 {
        abandoned := abandoned - {base};
      } else {
        abandoned := abandoned[base := tasks];
      }
    }

    method FindPatch(base: Base, id: TaskId) returns (found: bool)
      ensures found <==> HasPatch(Value(), base, id)
    {
      var branches := if base in patches then patches[base] else [];
      for i := 0 to |branches|
        invariant forall k :: 0 <= k < i ==> branches[k].task != id
      {
        if branches[i].task == id {
          assert Branches(Value(), base)[i].task == id;
          return true;
        }
      }
      return false;
    }

    method Consume(base: Base) returns (branches: seq<Branch>)
      modifies this
      ensures branches == Branches(old(Value()), base)
      ensures Value() == Forget(old(Value()), base)
    {
      branches := if base in patches then patches[base] else [];
      patches := patches - {base};
    }
  }

  // ----- one wave -----

  datatype Outcome = Good(patch: Patch) | Bad(interrupt: bool)

  /** The goroutine that executes the node: running, about to store a patch, about to decide,
      result sent, gone. */
  datatype Worker = NotStarted | Running | Storing(patch: Patch, good: bool) | Returned(good: bool) | Sent(good: bool) | Ended(good: bool)

  /** The scheduler's goroutine for the task. */
  datatype Main =
    | Preparing
    | Waiting
    | MustReceive
    | Abandoning
    | TimedOut
    | Received(good: bool)
    | Failing(interrupt: bool)
    | FailStoring
    | Finished(good: bool)

  /** `recorded` is what the node itself last recorded in this attempt, `committed` whether the attempt
      passed the point of its durable commit, `endedFirst` whether the worker was gone when its
      abandonment was stored. */
  datatype TaskState = TaskState(
    task: Task, decision: Decision, worker: Worker, main: Main, recorded: Option<Patch>, committed: bool, endedFirst: bool)

  datatype Wave = Wave(base: Base, collector: Collector, tasks: map<TaskId, TaskState>, consumed: Option<seq<Branch>>)

  datatype Step =
    | Launch(t: TaskId)
    | EarlyError(t: TaskId, interrupt: bool)
    | NodeRecords(t: TaskId, patch: Patch)
    | NodeAccepts(t: TaskId)
    | NodeReturns(t: TaskId, outcome: Outcome)
    | WorkerStores(t: TaskId)
    | WorkerSends(t: TaskId)
    | WorkerEnds(t: TaskId)
    | Receive(t: TaskId)
    | Deadline(t: TaskId)
    | AbandonTask(t: TaskId)
    | Retry(t: TaskId)
    | GiveUp(t: TaskId, interrupt: bool)
    | Complete(t: TaskId)
    | CheckFailed(t: TaskId)
    | StoreFailed(t: TaskId)
    | Consume

  predicate May(x: TaskState, step: Step) {
    match step
    case Launch(_) => x.main.Preparing?
    case EarlyError(_, _) => x.main.Preparing?
    case NodeRecords(_, _) => x.worker.Running?
    case NodeAccepts(_) => x.worker.Running?
    case NodeReturns(_, _) => x.worker.Running?
    case WorkerStores(_) => x.worker.Storing?
    case WorkerSends(_) => x.worker.Returned?
    case WorkerEnds(_) => x.worker.Sent?
    case Receive(_) => (x.main.Waiting? || x.main.MustReceive?) && (x.worker.Sent? || x.worker.Ended?)
    case Deadline(_) => x.main.Waiting?
    case AbandonTask(_) => x.main.Abandoning?
    case Retry(_) => x.main.Received? && !x.main.good
    case GiveUp(_, _) => x.main.Received? || x.main.TimedOut?
    case Complete(_) => x.main.Received? && x.main.good
    case CheckFailed(_) => x.main.Failing?
    case StoreFailed(_) => x.main.FailStoring?
    case Consume => false
  }

  function Accept(d: Decision): Decision {
    if d.Pending? then Accepted else d
  }

  /** How a step moves its task; `known` is what hasPatch answers. */
  function Moved(x: TaskState, step: Step, known: bool): TaskState
    requires May(x, step)
  {
    match step
    case Launch(_) => x.(decision := Pending, worker := Running, main := Waiting, recorded := None, committed := false, endedFirst := false)
    case EarlyError(_, interrupt) => x.(main := Failing(interrupt))
    case NodeRecords(_, patch) => x.(recorded := Some(patch))
    case NodeAccepts(_) => x.(decision := Accept(x.decision), committed := x.committed || x.decision != Abandoned)
    case NodeReturns(_, outcome) =>
      x.(worker := match outcome
                   case Good(patch) => if known then Returned(true) else Storing(patch, true)
                   case Bad(interrupt) => if known && interrupt then Returned(false) else Storing(EMPTY_PATCH, false))
    case WorkerStores(_) => x.(worker := Returned(x.worker.good))
    case WorkerSends(_) => x.(decision := Accept(x.decision), worker := Sent(x.worker.good))
    case WorkerEnds(_) => x.(worker := Ended(x.worker.good))
    case Receive(_) => x.(main := Received(x.worker.good))
    case Deadline(_) => if x.decision.Pending? then x.(decision := Abandoned, main := Abandoning) else x.(main := MustReceive)
    case AbandonTask(_) => x.(main := TimedOut, endedFirst := x.worker.Ended?)
    case Retry(_) => x.(main := Preparing)
    case GiveUp(_, interrupt) => x.(main := Failing(interrupt && !x.main.TimedOut?))
    case Complete(_) => x.(main := Finished(true))
    case CheckFailed(_) => x.(main := if x.main.interrupt && known then Finished(false) else FailStoring)
    case StoreFailed(_) => x.(main := Finished(false))
  }

  /** What a step does to the collector. */
  function Collected(c: Collector, base: Base, x: TaskState, step: Step): Collector
    requires May(x, step)
  {
    match step
    case NodeRecords(_, patch) => Record(c, base, x.task, patch)
    case WorkerStores(_) => Record(c, base, x.task, x.worker.patch)
    case WorkerEnds(_) => if x.decision.Abandoned? then ReleaseMark(c, base, x.task.id) else c
    case AbandonTask(_) => Abandon(c, base, x.task)
    case StoreFailed(_) => Record(c, base, x.task, EMPTY_PATCH)
    case _ => c
  }

  predicate Enabled(w: Wave, step: Step) {
    if step.Consume? then w.consumed.None? && forall t :: t in w.tasks ==> w.tasks[t].main.Finished?
    else step.t in w.tasks && May(w.tasks[step.t], step)
  }

  function Apply(w: Wave, step: Step): Wave
    requires Enabled(w, step)
  {
    if step.Consume? then
      w.(consumed := Some(Branches(w.collector, w.base)), collector := Forget(w.collector, w.base))
    else
      var x := w.tasks[step.t];
      w.(tasks := w.tasks[step.t := Moved(x, step, HasPatch(w.collector, w.base, step.t))],
         collector := Collected(w.collector, w.base, x, step))
  }

  // ----- what the collector operations do to one task's branch -----

  predicate DistinctTasks(branches: seq<Branch>) {
    forall i, j :: 0 <= i < j < |branches| ==> branches[i].task != branches[j].task
  }

  function Find(branches: seq<Branch>, id: TaskId): Option<Patch> {
    var i := Position(branches, id);
    if i < |branches| then Some(branches[i].patch) else None
  }

  lemma UpsertKeepsDistinct(branches: seq<Branch>, b: Branch)
    requires DistinctTasks(branches)
    ensures DistinctTasks(Upsert(branches, b))
  {
  }

  lemma UpsertFinds(branches: seq<Branch>, b: Branch, id: TaskId)
    ensures Find(Upsert(branches, b), id) == if id == b.task then Some(b.patch) else Find(branches, id)
  {
    var i, after := Position(branches, b.task), Upsert(branches, b);
    var p, q := Position(branches, id), Position(after, id);
    if id == b.task {
      assert after[i].task == id;
    } else if p < |branches| {
      assert after[p].task == id && q <= p;
      assert branches[q].task == id;
    }
  }

  /** The patch stored for a task, if any. */
  function PatchOf(c: Collector, base: Base, id: TaskId): Option<Patch> {
    Find(Branches(c, base), id)
  }

  lemma HasPatchIs(c: Collector, base: Base, id: TaskId)
    ensures HasPatch(c, base, id) <==> PatchOf(c, base, id).Some?
  {
  }

  /** What two collectors have in common away from one task. */
  ghost predicate SameElsewhere(c: Collector, d: Collector, base: Base, id: TaskId) {
    && (DistinctTasks(Branches(c, base)) ==> DistinctTasks(Branches(d, base)))
    && forall other :: other != id ==>
         PatchOf(d, base, other) == PatchOf(c, base, other) && (other in Marks(d, base) <==> other in Marks(c, base))
  }

  lemma PutIs(c: Collector, base: Base, task: Task, patch: Patch)
    ensures var d := Put(c, base, task, patch);
            && SameElsewhere(c, d, base, task.id)
            && PatchOf(d, base, task.id) == Some(patch) && Marks(d, base) == Marks(c, base)
  {
    var d := Put(c, base, task, patch);
    var order := if task.dynamic then task.order else WithOrder(c.orders, task)[task.node];
    var b := Branch(task.id, task.node, order, patch);
    assert Branches(d, base) == Upsert(Branches(c, base), b);
    if DistinctTasks(Branches(c, base)) {
      UpsertKeepsDistinct(Branches(c, base), b);
    }
    forall id ensures PatchOf(d, base, id) == if id == task.id then Some(patch) else PatchOf(c, base, id) {
      UpsertFinds(Branches(c, base), b, id);
    }
  }

  lemma RecordIs(c: Collector, base: Base, task: Task, patch: Patch)
    ensures var d := Record(c, base, task, patch);
            && SameElsewhere(c, d, base, task.id)
            && Marks(d, base) == Marks(c, base)
            && PatchOf(d, base, task.id) == if task.id in Marks(c, base) then PatchOf(c, base, task.id) else Some(patch)
  {
    PutIs(c, base, task, patch);
  }

  lemma AbandonIs(c: Collector, base: Base, task: Task)
    ensures var d := Abandon(c, base, task);
            && SameElsewhere(c, d, base, task.id)
            && task.id in Marks(d, base) && PatchOf(d, base, task.id) == Some(EMPTY_PATCH)
  {
    PutIs(c.(abandoned := c.abandoned[base := Marks(c, base) + {task.id}]), base, task, EMPTY_PATCH);
  }

  lemma ReleaseIs(c: Collector, base: Base, id: TaskId)
    ensures var d := ReleaseMark(c, base, id);
            && SameElsewhere(c, d, base, id)
            && id !in Marks(d, base) && PatchOf(d, base, id) == PatchOf(c, base, id)
  {
  }

  // ----- the invariant -----

  predicate AtRest(worker: Worker) {
    worker.NotStarted? || worker.Sent? || worker.Ended?
  }

  /** The deadline won and the collector knows. */
  predicate Settled(x: TaskState) {
    x.decision.Abandoned? && !x.main.Abandoning?
  }

  /** The cell decides once: a result is delivered or committed, or the deadline wins, never both. */
  predicate DecisionInv(x: TaskState) {
    && (x.decision.Abandoned? ==>
          !x.committed && (x.main.Abandoning? || x.main.TimedOut? || x.main.Failing? || x.main.FailStoring? || x.main == Finished(false)))
    && (x.committed ==> x.decision.Accepted?)
    && (x.endedFirst ==> Settled(x) && x.worker.Ended?)
    && (x.main.Abandoning? || x.main.TimedOut? ==> x.decision.Abandoned?)
    && (x.main.MustReceive? || x.main.Received? || x.main == Finished(true) ==> x.decision.Accepted?)
    && (x.worker.Sent? || x.worker.Ended? ==> !x.decision.Pending?)
    && (x.worker.NotStarted? ==> x.decision.Pending? && !x.main.Waiting? && !x.main.MustReceive? && !x.main.Received? && x.main != Finished(true))
    && (x.main.Received? || x.main == Finished(true) ==> (x.worker.Sent? || x.worker.Ended?) && x.worker.good == x.main.good)
    && ((x.main.Preparing? || x.main.Received? || x.main.Failing? || x.main.FailStoring? || x.main.Finished?) && !x.decision.Abandoned? ==> AtRest(x.worker))
  }

  /** The node's own patch is the one to be merged. */
  predicate Carries(x: TaskState) {
    && x.recorded.Some? && !x.decision.Abandoned?
    && (x.worker.Running? || ((x.worker.Returned? || x.worker.Sent? || x.worker.Ended?) && x.worker.good))
    && (x.main.Waiting? || x.main.MustReceive? || x.main.Received? || x.main == Finished(true))
  }

  /** Marks stop late records, an abandoned task has no changes, and until the merge every task that is
      through has a patch. Here `p` is the task's patch in the collector, `open` says the merge is to come. */
  predicate PatchInv(x: TaskState, p: Option<Patch>, marked: bool, open: bool) {
    && (marked ==> Settled(x))
    && (Settled(x) ==> (marked <==> (x.worker.Ended? ==> x.endedFirst)))
    && (Settled(x) && p.Some? ==> p.value == EMPTY_PATCH)
    && if open then
         && (Settled(x) || x.worker.Returned? || x.worker.Sent? || x.worker.Ended? || x.main.Finished? ==> p.Some?)
         && (Carries(x) ==> p == x.recorded)
         && (x.worker.Storing? && x.worker.good && x.recorded.Some? ==> x.decision.Abandoned?)
       else x.main.Finished? && p.None?
  }

  ghost predicate TaskInv(w: Wave, t: TaskId) {
    && t in w.tasks && w.tasks[t].task.id == t && DecisionInv(w.tasks[t])
    && PatchInv(w.tasks[t], PatchOf(w.collector, w.base, t), t in Marks(w.collector, w.base), w.consumed.None?)
  }

  /** What the merge got: one patch per task, empty for the abandoned, the node's own for the good. */
  ghost predicate Complete(w: Wave, branches: seq<Branch>) {
    && DistinctTasks(branches)
    && (forall t :: t in w.tasks <==> Find(branches, t).Some?)
    && (forall t :: t in w.tasks && w.tasks[t].decision.Abandoned? ==> Find(branches, t) == Some(EMPTY_PATCH))
    && (forall t :: t in w.tasks && w.tasks[t].main == Finished(true) && w.tasks[t].recorded.Some? ==> Find(branches, t) == w.tasks[t].recorded)
  }

  ghost predicate Inv(w: Wave) {
    && DistinctTasks(Branches(w.collector, w.base))
    && (forall t :: t in w.tasks ==> TaskInv(w, t))
    && (forall t :: PatchOf(w.collector, w.base, t).Some? || t in Marks(w.collector, w.base) ==> t in w.tasks)
    && (w.consumed.Some? ==> Complete(w, w.consumed.value))
  }

  /** A step of one task is nobody else's business. */
  lemma OthersKeepInv(w: Wave, v: Wave, t: TaskId, other: TaskId)
    requires TaskInv(w, other) && other != t && v.base == w.base && v.consumed == w.consumed
    requires other in v.tasks && v.tasks[other] == w.tasks[other]
    requires SameElsewhere(w.collector, v.collector, w.base, t)
    ensures TaskInv(v, other)
  {
  }

  lemma DecisionStep(x: TaskState, step: Step, known: bool)
    requires May(x, step) && DecisionInv(x)
    ensures DecisionInv(Moved(x, step, known))
  {
  }

  /** The task's patch and mark after a step. */
  function PatchAfter(x: TaskState, step: Step, p: Option<Patch>, marked: bool): (Option<Patch>, bool)
    requires May(x, step)
  {
    match step
    case NodeRecords(_, patch) => (if marked then p else Some(patch), marked)
    case WorkerStores(_) => (if marked then p else Some(x.worker.patch), marked)
    case WorkerEnds(_) => (p, marked && !x.decision.Abandoned?)
    case AbandonTask(_) => (Some(EMPTY_PATCH), true)
    case StoreFailed(_) => (if marked then p else Some(EMPTY_PATCH), marked)
    case _ => (p, marked)
  }

  lemma PatchStep(x: TaskState, step: Step, p: Option<Patch>, marked: bool, open: bool)
    requires May(x, step) && DecisionInv(x) && PatchInv(x, p, marked, open)
    ensures var (q, m) := PatchAfter(x, step, p, marked);
            PatchInv(Moved(x, step, p.Some?), q, m, open)
  {
  }

  lemma CollectorStep(c: Collector, base: Base, x: TaskState, step: Step)
    requires May(x, step)
    ensures var d := Collected(c, base, x, step);
            && SameElsewhere(c, d, base, x.task.id)
            && (PatchOf(d, base, x.task.id), x.task.id in Marks(d, base))
               == PatchAfter(x, step, PatchOf(c, base, x.task.id), x.task.id in Marks(c, base))
  {
    hide PatchOf, Marks, Record, Abandon, ReleaseMark;
    match step
    case NodeRecords(_, patch) => RecordIs(c, base, x.task, patch);
    case WorkerStores(_) => RecordIs(c, base, x.task, x.worker.patch);
    case WorkerEnds(_) => ReleaseIs(c, base, x.task.id);
    case AbandonTask(_) => AbandonIs(c, base, x.task);
    case StoreFailed(_) => RecordIs(c, base, x.task, EMPTY_PATCH);
    case _ =>
  }

  lemma TaskStep(w: Wave, step: Step)
    requires Inv(w) && Enabled(w, step) && !step.Consume?
    ensures TaskInv(Apply(w, step), step.t)
    ensures SameElsewhere(w.collector, Apply(w, step).collector, w.base, step.t)
  {
    hide DecisionInv, PatchInv, PatchOf, Marks, HasPatch, SameElsewhere, Moved, Collected, PatchAfter;
    var x := w.tasks[step.t];
    assert TaskInv(w, step.t);
    HasPatchIs(w.collector, w.base, step.t);
    DecisionStep(x, step, HasPatch(w.collector, w.base, step.t));
    CollectorStep(w.collector, w.base, x, step);
    PatchStep(x, step, PatchOf(w.collector, w.base, step.t), step.t in Marks(w.collector, w.base), w.consumed.None?);
    MovedKeepsTask(x, step, HasPatch(w.collector, w.base, step.t));
  }

  lemma MovedKeepsTask(x: TaskState, step: Step, known: bool)
    requires May(x, step)
    ensures Moved(x, step, known).task == x.task
  {
  }

  /** After the merge a task only winds down. */
  lemma MergedStays(x: TaskState, step: Step, known: bool)
    requires May(x, step) && DecisionInv(x) && x.main.Finished?
    ensures var y := Moved(x, step, known);
            && y.main == x.main && (y.decision.Abandoned? <==> x.decision.Abandoned?)
            && (x.main.good ==> y.recorded == x.recorded)
  {
  }

  lemma MergedIsFinished(w: Wave, t: TaskId)
    requires TaskInv(w, t) && w.consumed.Some?
    ensures w.tasks[t].main.Finished?
  {
  }

  lemma StepKeepsInv(w: Wave, step: Step)
    requires Inv(w) && Enabled(w, step) && !step.Consume?
    ensures Inv(Apply(w, step))
  {
    hide May, Moved, Collected, DecisionInv, PatchInv, PatchOf, Marks, HasPatch, DistinctTasks, Branches, Find;
    var v, t := Apply(w, step), step.t;
    TaskStep(w, step);
    if w.consumed.Some? {
      assert TaskInv(w, t);
      MergedIsFinished(w, t);
      MergedStays(w.tasks[t], step, HasPatch(w.collector, w.base, t));
    }
    forall other | other in v.tasks && other != t ensures TaskInv(v, other) {
      OthersKeepInv(w, v, t, other);
    }
  }

  /** consume hands over what was collected and leaves nothing behind. */
  lemma ConsumeKeepsInv(w: Wave)
    requires Inv(w) && Enabled(w, Consume)
    ensures Inv(Apply(w, Consume))
  {
    var v := Apply(w, Consume);
    assert Branches(v.collector, v.base) == [];
    forall t | t in w.tasks ensures TaskInv(v, t) {
      assert TaskInv(w, t);
    }
    assert Complete(w, Branches(w.collector, w.base)) by {
      forall t | t in w.tasks ensures PatchOf(w.collector, w.base, t).Some? {
        assert TaskInv(w, t);
      }
      forall t | t in w.tasks && w.tasks[t].decision.Abandoned?
        ensures PatchOf(w.collector, w.base, t) == Some(EMPTY_PATCH)
      {
        assert TaskInv(w, t);
      }
      forall t | t in w.tasks && w.tasks[t].main == Finished(true) && w.tasks[t].recorded.Some?
        ensures PatchOf(w.collector, w.base, t) == w.tasks[t].recorded
      {
        assert TaskInv(w, t);
      }
    }
  }

  // ----- whole waves -----

  ghost predicate Fresh(w: Wave) {
    && w.base !in w.collector.patches && w.base !in w.collector.abandoned && w.consumed == None
    && forall t :: t in w.tasks ==> w.tasks[t] == TaskState(w.tasks[t].task, Pending, NotStarted, Preparing, None, false, false) && w.tasks[t].task.id == t
  }

  ghost predicate IsExecution(states: seq<Wave>, steps: seq<Step>) {
    && |states| == |steps| + 1
    && Fresh(states[0])
    && forall i, j :: 0 <= i && j == i + 1 && j < |states| ==> Enabled(states[i], steps[i]) && states[j] == Apply(states[i], steps[i])
  }

  lemma {:induction false} ExecutionKeepsInv(states: seq<Wave>, steps: seq<Step>, k: nat)
    requires IsExecution(states, steps) && k < |states|
    ensures Inv(states[k])
  {
    if k > 0 {
      ExecutionKeepsInv(states, steps, k - 1);
      var last, current := states[k - 1], states[k];
      hide Inv, Enabled, Apply;
      if steps[k - 1].Consume? {
        ConsumeKeepsInv(last);
      } else {
        StepKeepsInv(last, steps[k - 1]);
      }
    }
  }

  lemma StaysAbandoned(x: TaskState, step: Step, known: bool)
    requires May(x, step) && DecisionInv(x) && x.decision.Abandoned?
    ensures Moved(x, step, known).decision.Abandoned?
  {
  }

  lemma {:induction false} AbandonedStays(states: seq<Wave>, steps: seq<Step>, i: nat, k: nat, t: TaskId)
    requires IsExecution(states, steps) && i <= k < |states|
    requires t in states[i].tasks && states[i].tasks[t].decision.Abandoned?
    ensures t in states[k].tasks && states[k].tasks[t].decision.Abandoned?
    decreases k - i
  {
    if i < k {
      AbandonedStays(states, steps, i, k - 1, t);
      var last, current := states[k - 1], states[k];
      ExecutionKeepsInv(states, steps, k - 1);
      assert TaskInv(last, t);
      hide Inv, DecisionInv, PatchInv, May, Moved, Collected, HasPatch, Fresh;
      if !steps[k - 1].Consume? && steps[k - 1].t == t {
        StaysAbandoned(last.tasks[t], steps[k - 1], HasPatch(last.collector, last.base, t));
      }
    }
  }

  /** Once the deadline has won, the attempt's result is never committed, never received and never
      merged, however long its goroutine goes on. */
  lemma DeadlineIsFinal(states: seq<Wave>, steps: seq<Step>, i: nat, k: nat, t: TaskId)
    requires IsExecution(states, steps) && i <= k < |states|
    requires t in states[i].tasks && states[i].tasks[t].decision.Abandoned?
    ensures var w := states[k];
            && t in w.tasks && !w.tasks[t].committed && !w.tasks[t].main.Received? && w.tasks[t].main != Finished(true)
            && (!w.tasks[t].main.Abandoning? && PatchOf(w.collector, w.base, t).Some? ==> PatchOf(w.collector, w.base, t).value == EMPTY_PATCH)
            && (w.consumed.Some? ==> Find(w.consumed.value, t) == Some(EMPTY_PATCH))
  {
    AbandonedStays(states, steps, i, k, t);
    ExecutionKeepsInv(states, steps, k);
    assert TaskInv(states[k], t);
  }

  ghost function TasksOf(branches: seq<Branch>): set<TaskId> {
    set i | 0 <= i < |branches| :: branches[i].task
  }

  lemma {:induction false} CountDistinct(branches: seq<Branch>)
    requires DistinctTasks(branches)
    ensures |TasksOf(branches)| == |branches|
  {
    if branches != [] {
      var front, last := branches[..|branches| - 1], branches[|branches| - 1];
      CountDistinct(front);
      assert forall i :: 0 <= i < |front| ==> front[i] == branches[i];
      assert TasksOf(branches) == TasksOf(front) + {last.task};
    }
  }

  lemma FindIs(branches: seq<Branch>, t: TaskId)
    ensures Find(branches, t).Some? <==> t in TasksOf(branches)
  {
  }

  /** The merge gets exactly one patch per task: nothing for a task whose deadline won, what the node
      recorded for a task that completed. */
  lemma OnePatchPerTask(states: seq<Wave>, steps: seq<Step>, k: nat)
    requires IsExecution(states, steps) && k < |states| && states[k].consumed.Some?
    ensures var w := states[k];
            && |w.consumed.value| == |w.tasks| && TasksOf(w.consumed.value) == w.tasks.Keys
            && Complete(w, w.consumed.value)
  {
    ExecutionKeepsInv(states, steps, k);
    var branches := states[k].consumed.value;
    CountDistinct(branches);
    forall t ensures t in TasksOf(branches) <==> t in states[k].tasks {
      FindIs(branches, t);
    }
    assert TasksOf(branches) == states[k].tasks.Keys;
  }

  /** Goroutines that outlive the merge leave nothing in the collector. */
  lemma NothingLeftBehind(states: seq<Wave>, steps: seq<Step>, k: nat)
    requires IsExecution(states, steps) && k < |states| && states[k].consumed.Some?
    ensures Branches(states[k].collector, states[k].base) == []
  {
    ExecutionKeepsInv(states, steps, k);
    var w := states[k];
    forall t ensures Find(Branches(w.collector, w.base), t).None? {
      assert PatchOf(w.collector, w.base, t).Some? ==> TaskInv(w, t);
    }
    if Branches(w.collector, w.base) != [] {
      FirstIsFound(Branches(w.collector, w.base));
    }
  }

  /** A mark stays while the abandoned worker goes on, and is left behind for good exactly if that worker
      was gone before the abandonment was stored: it had released a mark that was not there yet. */
  lemma MarksLeftExactly(states: seq<Wave>, steps: seq<Step>, k: nat, t: TaskId)
    requires IsExecution(states, steps) && k < |states|
    ensures var w := states[k];
            t in Marks(w.collector, w.base)
            <==> t in w.tasks && Settled(w.tasks[t]) && (w.tasks[t].worker.Ended? ==> w.tasks[t].endedFirst)
  {
    ExecutionKeepsInv(states, steps, k);
    hide DecisionInv, Complete, Marks, DistinctTasks;
    var w := states[k];
    assert t in w.tasks ==> TaskInv(w, t);
  }

  lemma FirstIsFound(branches: seq<Branch>)
    requires branches != []
    ensures Find(branches, branches[0].task).Some?
  {
    FindIs(branches, branches[0].task);
  }

  // ----- what an attempt comes to -----

  /** One task with its patch and mark in the collector. */
  datatype Progress = Progress(x: TaskState, patch: Option<Patch>, marked: bool)

  function Next(s: Progress, step: Step): Progress
    requires May(s.x, step)
  {
    var (patch, marked) := PatchAfter(s.x, step, s.patch, s.marked);
    Progress(Moved(s.x, step, s.patch.Some?), patch, marked)
  }

  ghost predicate IsStep(states: seq<Progress>, steps: seq<Step>, i: nat)
    requires i < |steps| && |states| == |steps| + 1
  {
    May(states[i].x, steps[i]) && states[i + 1] == Next(states[i], steps[i])
  }

  ghost predicate AreSteps(states: seq<Progress>, steps: seq<Step>) {
    |states| == |steps| + 1 && forall i :: 0 <= i < |steps| ==> IsStep(states, steps, i)
  }

  function Unstarted(task: Task): Progress {
    Progress(TaskState(task, Pending, NotStarted, Preparing, None, false, false), None, false)
  }

  /** An attempt that ends in time is accepted and committed, and what the node recorded is its patch. */
  lemma RecordedPatchIsKept(task: Task, recorded: Patch, returned: Patch) returns (states: seq<Progress>, steps: seq<Step>)
    ensures AreSteps(states, steps) && states[0] == Unstarted(task)
    ensures var last := states[|states| - 1];
            && last.x.main == Finished(true) && last.x.decision == Accepted && last.x.committed
            && last.patch == Some(recorded) && !last.marked
  {
    var t := task.id;
    var a := Unstarted(task);
    var b := Next(a, Launch(t));
    var c := Next(b, NodeRecords(t, recorded));
    var d := Next(c, NodeAccepts(t));
    var e := Next(d, NodeReturns(t, Good(returned)));
    var f := Next(e, WorkerSends(t));
    var g := Next(f, Receive(t));
    var h := Next(g, Step.Complete(t));
    states := [a, b, c, d, e, f, g, h];
    steps := [Launch(t), NodeRecords(t, recorded), NodeAccepts(t), NodeReturns(t, Good(returned)), WorkerSends(t), Receive(t), Step.Complete(t)];
  }

  /** Without a record of its own the node's result is the patch. */
  lemma ReturnedPatchIsKept(task: Task, returned: Patch) returns (states: seq<Progress>, steps: seq<Step>)
    ensures AreSteps(states, steps) && states[0] == Unstarted(task)
    ensures var last := states[|states| - 1];
            last.x.main == Finished(true) && last.x.decision == Accepted && last.patch == Some(returned) && !last.marked
  {
    var t := task.id;
    var a := Unstarted(task);
    var b := Next(a, Launch(t));
    var c := Next(b, NodeReturns(t, Good(returned)));
    var d := Next(c, WorkerStores(t));
    var e := Next(d, WorkerSends(t));
    var f := Next(e, Receive(t));
    var g := Next(f, Step.Complete(t));
    states := [a, b, c, d, e, f, g];
    steps := [Launch(t), NodeReturns(t, Good(returned)), WorkerStores(t), WorkerSends(t), Receive(t), Step.Complete(t)];
  }

  /** A node that fails, up to the point where that is known. */
  lemma Fails(task: Task) returns (states: seq<Progress>, steps: seq<Step>)
    ensures AreSteps(states, steps) && states[0] == Unstarted(task) && |steps| == 5
    ensures states[5] == Progress(TaskState(task, Accepted, Sent(false), Received(false), None, false, false), Some(EMPTY_PATCH), false)
  {
    var t := task.id;
    var a := Unstarted(task);
    var b := Next(a, Launch(t));
    var c := Next(b, NodeReturns(t, Bad(false)));
    var d := Next(c, WorkerStores(t));
    var e := Next(d, WorkerSends(t));
    var f := Next(e, Receive(t));
    states := [a, b, c, d, e, f];
    steps := [Launch(t), NodeReturns(t, Bad(false)), WorkerStores(t), WorkerSends(t), Receive(t)];
  }

  lemma StepsJoin(a: seq<Progress>, first: seq<Step>, b: seq<Progress>, second: seq<Step>)
    requires AreSteps(a, first) && AreSteps(b, second) && a[|a| - 1] == b[0]
    ensures AreSteps(a + b[1..], first + second)
    ensures (a + b[1..])[0] == a[0] && (a + b[1..])[|a + b[1..]| - 1] == b[|b| - 1]
  {
    hide May, Next;
    var all, steps := a + b[1..], first + second;
    forall i | 0 <= i < |steps| ensures IsStep(all, steps, i) {
      if i < |first| {
        assert IsStep(a, first, i);
      } else {
        assert IsStep(b, second, i - |first|);
      }
    }
  }

  /** A node that fails can be tried again, and then what it records takes the place of the empty patch. */
  lemma FailureIsRetried(task: Task, recorded: Patch) returns (states: seq<Progress>, steps: seq<Step>)
    ensures AreSteps(states, steps) && states[0] == Unstarted(task)
    ensures var last := states[|states| - 1];
            last.x.main == Received(true) && last.x.decision == Accepted && last.patch == Some(recorded) && !last.marked
  {
    hide AreSteps;
    var failed, tried := Fails(task);
    FitsSteps(failed, tried);
    var again, steps' := TriedAgain(task, failed[5], recorded);
    FitsSteps(again, steps');
    StepsJoin(failed, tried, again, steps');
    states, steps := failed + again[1..], tried + steps';
  }

  lemma FitsSteps(states: seq<Progress>, steps: seq<Step>)
    requires AreSteps(states, steps)
    ensures |states| == |steps| + 1
  {
  }

  lemma TriedAgain(task: Task, s: Progress, recorded: Patch) returns (states: seq<Progress>, steps: seq<Step>)
    requires s == Progress(TaskState(task, Accepted, Sent(false), Received(false), None, false, false), Some(EMPTY_PATCH), false)
    ensures AreSteps(states, steps) && states[0] == s
    ensures var last := states[|states| - 1];
            last.x.main == Received(true) && last.x.decision == Accepted && last.patch == Some(recorded) && !last.marked
  {
    var t := task.id;
    var a := Next(s, Retry(t));
    var b := Next(a, Launch(t));
    var c := Next(b, NodeRecords(t, recorded));
    var d := Next(c, NodeReturns(t, Good(recorded)));
    var e := Next(d, WorkerSends(t));
    var f := Next(e, Receive(t));
    states := [s, a, b, c, d, e, f];
    steps := [Retry(t), Launch(t), NodeRecords(t, recorded), NodeReturns(t, Good(recorded)), WorkerSends(t), Receive(t)];
  }

  /** Otherwise it fails the task, with an empty patch. */
  lemma FailureIsStored(task: Task) returns (states: seq<Progress>, steps: seq<Step>)
    ensures AreSteps(states, steps) && states[0] == Unstarted(task)
    ensures var last := states[|states| - 1];
            last.x.main == Finished(false) && last.patch == Some(EMPTY_PATCH) && last.x.decision == Accepted && !last.marked
  {
    hide AreSteps;
    var failed, tried := Fails(task);
    FitsSteps(failed, tried);
    var rest, steps' := GivenUp(task, failed[5], false);
    FitsSteps(rest, steps');
    StepsJoin(failed, tried, rest, steps');
    states, steps := failed + rest[1..], tried + steps';
  }

  /** A timeout is no interrupt, whatever the error says. */
  lemma GivenUp(task: Task, s: Progress, interrupt: bool) returns (states: seq<Progress>, steps: seq<Step>)
    requires s.x.task == task && s.patch == Some(EMPTY_PATCH) && (s.x.main.TimedOut? || (s.x.main.Received? && !interrupt))
    ensures AreSteps(states, steps) && states[0] == s
    ensures states[|states| - 1] == s.(x := s.x.(main := Finished(false)))
  {
    var t := task.id;
    var a := Next(s, GiveUp(t, interrupt));
    var b := Next(a, CheckFailed(t));
    var c := Next(b, StoreFailed(t));
    states, steps := [s, a, b, c], [GiveUp(t, interrupt), CheckFailed(t), StoreFailed(t)];
  }

  /** A node that interrupts the run keeps what it recorded; one that fails loses it. */
  lemma InterruptKeepsPatch(task: Task, recorded: Patch, interrupt: bool) returns (states: seq<Progress>, steps: seq<Step>)
    ensures AreSteps(states, steps) && states[0] == Unstarted(task)
    ensures states[|states| - 1].x.main == Finished(false)
    ensures states[|states| - 1].patch == Some(if interrupt then recorded else EMPTY_PATCH)
  {
    hide AreSteps;
    var broken, first := Breaks(task, recorded, interrupt);
    FitsSteps(broken, first);
    var rest, steps' := EndsBroken(task, broken[|first|], interrupt);
    FitsSteps(rest, steps');
    StepsJoin(broken, first, rest, steps');
    states, steps := broken + rest[1..], first + steps';
  }

  lemma Breaks(task: Task, recorded: Patch, interrupt: bool) returns (states: seq<Progress>, steps: seq<Step>)
    ensures AreSteps(states, steps) && states[0] == Unstarted(task)
    ensures var last := states[|states| - 1];
            && last.x == TaskState(task, Accepted, Sent(false), Received(false), Some(recorded), false, false)
            && last.patch == Some(if interrupt then recorded else EMPTY_PATCH) && !last.marked
  {
    var t := task.id;
    var a := Unstarted(task);
    var b := Next(a, Launch(t));
    var c := Next(b, NodeRecords(t, recorded));
    var d := Next(c, NodeReturns(t, Bad(interrupt)));
    var e := if interrupt then d else Next(d, WorkerStores(t));
    var f := Next(e, WorkerSends(t));
    var g := Next(f, Receive(t));
    if interrupt {
      states, steps := [a, b, c, d, f, g], [Launch(t), NodeRecords(t, recorded), NodeReturns(t, Bad(interrupt)), WorkerSends(t), Receive(t)];
    } else {
      states := [a, b, c, d, e, f, g];
      steps := [Launch(t), NodeRecords(t, recorded), NodeReturns(t, Bad(interrupt)), WorkerStores(t), WorkerSends(t), Receive(t)];
    }
  }

  lemma EndsBroken(task: Task, s: Progress, interrupt: bool) returns (states: seq<Progress>, steps: seq<Step>)
    requires s.x.task == task && s.x.main.Received? && s.patch.Some? && (interrupt || s.patch == Some(EMPTY_PATCH))
    ensures AreSteps(states, steps) && states[0] == s
    ensures states[|states| - 1].x.main == Finished(false) && states[|states| - 1].patch == s.patch
  {
    var t := task.id;
    var a := Next(s, GiveUp(t, interrupt));
    var b := Next(a, CheckFailed(t));
    if interrupt {
      states, steps := [s, a, b], [GiveUp(t, interrupt), CheckFailed(t)];
    } else {
      states, steps := [s, a, b, Next(b, StoreFailed(t))], [GiveUp(t, interrupt), CheckFailed(t), StoreFailed(t)];
    }
  }

  /** A deadline that passes while the node is running abandons the attempt: the task fails with an empty
      patch, whatever the node returns later, and the mark goes with the worker. */
  lemma DeadlineAbandons(task: Task, returned: Patch) returns (states: seq<Progress>, steps: seq<Step>)
    ensures AreSteps(states, steps) && states[0] == Unstarted(task)
    ensures var last := states[|states| - 1];
            && last.x.main == Finished(false) && last.x.decision == Abandoned && !last.x.committed
            && last.patch == Some(EMPTY_PATCH) && !last.marked
  {
    hide AreSteps;
    var late, first := TimesOut(task, returned);
    FitsSteps(late, first);
    var rest, steps' := GivenUp(task, late[6], true);
    FitsSteps(rest, steps');
    StepsJoin(late, first, rest, steps');
    states, steps := late + rest[1..], first + steps';
  }

  lemma TimesOut(task: Task, returned: Patch) returns (states: seq<Progress>, steps: seq<Step>)
    ensures AreSteps(states, steps) && states[0] == Unstarted(task) && |steps| == 6
    ensures states[6] == Progress(TaskState(task, Abandoned, Ended(true), TimedOut, None, false, false), Some(EMPTY_PATCH), false)
  {
    var t := task.id;
    var a := Unstarted(task);
    var b := Next(a, Launch(t));
    var c := Next(b, Deadline(t));
    var d := Next(c, AbandonTask(t));
    var e := Next(d, NodeReturns(t, Good(returned)));
    var f := Next(e, WorkerSends(t));
    var g := Next(f, WorkerEnds(t));
    states := [a, b, c, d, e, f, g];
    steps := [Launch(t), Deadline(t), AbandonTask(t), NodeReturns(t, Good(returned)), WorkerSends(t), WorkerEnds(t)];
  }
}
