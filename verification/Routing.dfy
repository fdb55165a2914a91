/** Edge routing: from a finished node, its conditions' outcomes and the graph to the next tasks. */
module Routing {
  import opened Common
  import opened Text
  import opened Topology
  import opened FanIn
  import opened Validation

  /** The reference by which specs name the end of the graph. */
  const END_REF: string := "__end__"

  /** A fan-out request; `digest` is the task id hashed from the parent and the request. */
  datatype Send = Send(target: string, correlationKey: string, orderKey: string, input: string, digest: string)

  datatype RouteDecision = RouteDecision(matched: bool, targets: seq<string>, sends: seq<Send>)

  /** What evaluating one conditional edge produced. */
  datatype Evaluation = ConditionFails | ObserverFails | Decided(decision: RouteDecision)

  datatype RouteError =
    | NodeMissing
    | ConditionFailed
    | ObserverFailed
    | DecisionTargetUnknown
    | NoMatchingConditionalEdge
    | NoOutgoingEdge

  datatype RouteResult = Routed(tasks: seq<GraphTask>) | Rejected(error: RouteError)

  function ResolveNodeId(g: Graph, ref: string): Option<NodeId> {
    var id := TrimSpace(ref);
    if id != "" && id in g.nodes then Some(id) else None
  }

  function ResolveEdgeTarget(g: Graph, ref: string): Option<NodeId> {
    if TrimSpace(ref) == END_REF then Some(END) else ResolveNodeId(g, ref)
  }

  function StaticRouteTasks(targets: seq<NodeId>): seq<GraphTask> {
    seq(|targets|, i requires 0 <= i < |targets| => NewStaticTask(targets[i], i))
  }

  /** The order dynamic tasks are run and merged in. */
  predicate TaskLess(a: GraphTask, b: GraphTask) {
    if a.orderKey != b.orderKey then LexLeq(a.orderKey, b.orderKey)
    else if a.correlationKey != b.correlationKey then LexLeq(a.correlationKey, b.correlationKey)
    else a.taskId != b.taskId && LexLeq(a.taskId, b.taskId)
  }

  function InsertStable(t: GraphTask, s: seq<GraphTask>): seq<GraphTask> {
    if s == [] || !TaskLess(s[0], t) then [t] + s else [s[0]] + InsertStable(t, s[1..])
  }

  /** sort.SliceStable with that order. */
  function SortTasks(s: seq<GraphTask>): seq<GraphTask> {
    if s == [] then [] else InsertStable(s[0], SortTasks(s[1..]))
  }

  function Renumber(s: seq<GraphTask>): seq<GraphTask> {
    seq(|s|, i requires 0 <= i < |s| => s[i].(order := i))
  }

  function ResolveSends(g: Graph, sends: seq<Send>): Option<seq<GraphTask>> {
    if sends == [] then Some([])
    else
      var last := sends[|sends| - 1];
      match (ResolveSends(g, sends[..|sends| - 1]), ResolveNodeId(g, last.target))
      case (Some(tasks), Some(id)) =>
        Some(tasks + [GraphTask(last.digest, id, last.input, TrimSpace(last.correlationKey),
                                TrimSpace(last.orderKey), |sends| - 1, true, None)])
      case _ => None
  }

  function ResolveTargets(g: Graph, targets: seq<string>): Option<seq<NodeId>> {
    if targets == [] then Some([])
    else
      match (ResolveTargets(g, targets[..|targets| - 1]), ResolveEdgeTarget(g, targets[|targets| - 1]))
      case (Some(ids), Some(id)) => Some(ids + [id])
      case _ => None
  }

  function TasksFromDecision(g: Graph, edgeTarget: NodeId, d: RouteDecision): RouteResult {
    if d.sends != [] then
      match ResolveSends(g, d.sends)
      case Some(tasks) => Routed(Renumber(SortTasks(tasks)))
      case None => Rejected(DecisionTargetUnknown)
    else if d.targets == [] then
      Routed(StaticRouteTasks([edgeTarget]))
    else
      match ResolveTargets(g, d.targets)
      case Some(ids) => Routed(StaticRouteTasks(ids))
      case None => Rejected(DecisionTargetUnknown)
  }

  /** The first conditional edge, from index i on, that fails or matches; None when none does. */
  function RouteConditional(g: Graph, edges: seq<NodeId>, evaluate: nat -> Evaluation, i: nat): Option<RouteResult>
    requires i <= |edges|
    decreases |edges| - i
  {
    if i == |edges| then None
    else
      match evaluate(i)
      case ConditionFails => Some(Rejected(ConditionFailed))
      case ObserverFails => Some(Rejected(ObserverFailed))
      case Decided(d) =>
        if d.matched then Some(TasksFromDecision(g, edges[i], d))
        else RouteConditional(g, edges, evaluate, i + 1)
  }

  /** resolveNextTasksObserved */
  function ResolveNextTasks(g: Graph, parent: NodeId, evaluate: nat -> Evaluation): RouteResult {
    var n := TrimSpace(parent);
    var conditional := Targets(g.conditionalEdges, n);
    var targets := Targets(g.defaultEdges, n);
    if n == "" || (n != END && n !in g.nodes) then Rejected(NodeMissing)
    else if conditional != [] then
      match RouteConditional(g, conditional, evaluate, 0)
      case Some(r) => r
      case None =>
        if targets != [] then Routed(StaticRouteTasks(targets[..1]))
        else if n == g.finish then Routed(StaticRouteTasks([END]))
        else Rejected(NoMatchingConditionalEdge)
    else if targets != [] then Routed(StaticRouteTasks(targets))
    else if n == g.finish then Routed(StaticRouteTasks([END]))
    else Rejected(NoOutgoingEdge)
  }

  ghost predicate Known(g: Graph, tasks: seq<GraphTask>) {
    tasks != [] && forall i :: 0 <= i < |tasks| ==> tasks[i].nodeId == END || tasks[i].nodeId in g.nodes
  }

  /** The errors a caller's conditions, observers or decisions can cause. */
  predicate ExternalError(e: RouteError) {
    e.ConditionFailed? || e.ObserverFailed? || e.DecisionTargetUnknown?
  }

  ghost predicate WellRouted(g: Graph, r: RouteResult) {
    match r
    case Routed(tasks) => Known(g, tasks)
    case Rejected(e) => ExternalError(e)
  }

  // ----- sorting -----

  lemma LexOrder(a: string, b: string, c: string)
    ensures LexLeq(a, b) || LexLeq(b, a)
    ensures LexLeq(a, b) && LexLeq(b, a) ==> a == b
    ensures LexLeq(a, b) && LexLeq(b, c) ==> LexLeq(a, c)
  {
    LexTotal(a, b);
    if LexLeq(a, b) && LexLeq(b, a) { LexAntisymmetric(a, b); }
    if LexLeq(a, b) && LexLeq(b, c) { LexTransitive(a, b, c); }
  }

  /** The comparison is a strict weak order, so sorting by it is well defined. */
  lemma TaskOrder(a: GraphTask, b: GraphTask, c: GraphTask)
    ensures TaskLess(a, b) ==> !TaskLess(b, a)
    ensures !TaskLess(b, a) && !TaskLess(c, b) ==> !TaskLess(c, a)
  {
    hide LexLeq;
    LexOrder(a.orderKey, b.orderKey, c.orderKey);
    LexOrder(b.orderKey, c.orderKey, a.orderKey);
    LexOrder(c.orderKey, a.orderKey, b.orderKey);
    LexOrder(a.correlationKey, b.correlationKey, c.correlationKey);
    LexOrder(b.correlationKey, c.correlationKey, a.correlationKey);
    LexOrder(c.correlationKey, a.correlationKey, b.correlationKey);
    LexOrder(a.taskId, b.taskId, c.taskId);
    LexOrder(b.taskId, c.taskId, a.taskId);
    LexOrder(c.taskId, a.taskId, b.taskId);
  }

  ghost predicate Ordered(s: seq<GraphTask>) {
    forall i, j :: 0 <= i < j < |s| ==> !TaskLess(s[j], s[i])
  }

  lemma {:induction false} InsertKeeps(t: GraphTask, s: seq<GraphTask>)
    ensures multiset(InsertStable(t, s)) == multiset([t] + s)
  {
    hide TaskLess;
    if s != [] && TaskLess(s[0], t) {
      InsertKeeps(t, s[1..]);
      assert s == [s[0]] + s[1..];
    }
  }

  lemma InsertedIsMember(t: GraphTask, s: seq<GraphTask>, j: nat)
    requires j < |InsertStable(t, s)|
    ensures InsertStable(t, s)[j] == t || InsertStable(t, s)[j] in s
  {
    hide InsertStable;
    InsertKeeps(t, s);
    assert InsertStable(t, s)[j] in multiset(InsertStable(t, s));
  }

  lemma {:induction false} InsertKeepsOrder(t: GraphTask, s: seq<GraphTask>)
    requires Ordered(s)
    ensures Ordered(InsertStable(t, s))
  {
    hide TaskLess;
    var r := InsertStable(t, s);
    if s == [] || !TaskLess(s[0], t) {
      forall i, j | 0 <= i < j < |r| ensures !TaskLess(r[j], r[i]) {
        if i == 0 && s != [] {
          if j > 1 { assert !TaskLess(s[j - 1], s[0]); }
          TaskOrder(t, s[0], s[j - 1]);
        }
      }
    } else {
      InsertKeepsOrder(t, s[1..]);
      var tail := InsertStable(t, s[1..]);
      forall i, j | 0 <= i < j < |r| ensures !TaskLess(r[j], r[i]) {
        if i == 0 {
          InsertedIsMember(t, s[1..], j - 1);
          TaskOrder(s[0], t, t);
        } else {
          assert r[i] == tail[i - 1] && r[j] == tail[j - 1];
        }
      }
    }
  }

  /** Sorting keeps every task and puts them in order. */
  lemma {:induction false} SortTasksCorrect(s: seq<GraphTask>)
    ensures multiset(SortTasks(s)) == multiset(s)
    ensures Ordered(SortTasks(s))
  {
    if s != [] {
      SortTasksCorrect(s[1..]);
      InsertKeeps(s[0], SortTasks(s[1..]));
      InsertKeepsOrder(s[0], SortTasks(s[1..]));
      assert s == [s[0]] + s[1..];
    }
  }

  /** Neither comes before the other. */
  predicate Tied(a: GraphTask, b: GraphTask) {
    !TaskLess(a, b) && !TaskLess(b, a)
  }

  function TiedWith(s: seq<GraphTask>, x: GraphTask): seq<GraphTask> {
    if s == [] then [] else (if Tied(s[0], x) then [s[0]] else []) + TiedWith(s[1..], x)
  }

  lemma {:induction false} InsertKeepsTies(t: GraphTask, s: seq<GraphTask>, x: GraphTask)
    ensures TiedWith(InsertStable(t, s), x) == (if Tied(t, x) then [t] else []) + TiedWith(s, x)
  {
    hide TaskLess;
    if s == [] || !TaskLess(s[0], t) {
      assert ([t] + s)[1..] == s;
    } else {
      InsertKeepsTies(t, s[1..], x);
      TaskOrder(t, x, s[0]);
      TaskOrder(s[0], x, t);
      TaskOrder(x, t, s[0]);
      assert ([s[0]] + InsertStable(t, s[1..]))[1..] == InsertStable(t, s[1..]);
      assert !(Tied(t, x) && Tied(s[0], x));
    }
  }

  /** The sort is stable: tasks the order does not tell apart keep their places among each other. */
  lemma {:induction false} SortIsStable(s: seq<GraphTask>, x: GraphTask)
    ensures TiedWith(SortTasks(s), x) == TiedWith(s, x)
  {
    hide TaskLess;
    if s != [] {
      SortIsStable(s[1..], x);
      InsertKeepsTies(s[0], SortTasks(s[1..]), x);
    }
  }

  /** What is in order is left alone. */
  lemma {:induction false} SortOrdered(s: seq<GraphTask>)
    requires Ordered(s)
    ensures SortTasks(s) == s
  {
    hide TaskLess;
    if s != [] {
      SortOrdered(s[1..]);
      assert s == [s[0]] + s[1..];
      if |s| > 1 {
        assert !TaskLess(s[1], s[0]);
      }
    }
  }

  /** Sorted tasks go by order key, then by correlation key, then by task id. */
  ghost predicate InKeyOrder(a: GraphTask, b: GraphTask) {
    && LexLeq(a.orderKey, b.orderKey)
    && (a.orderKey == b.orderKey ==>
          && LexLeq(a.correlationKey, b.correlationKey)
          && (a.correlationKey == b.correlationKey ==> LexLeq(a.taskId, b.taskId)))
  }

  lemma SortedByKeys(s: seq<GraphTask>)
    ensures forall i, j :: 0 <= i < j < |SortTasks(s)| ==> InKeyOrder(SortTasks(s)[i], SortTasks(s)[j])
  {
    hide SortTasks, TaskLess, InKeyOrder;
    SortTasksCorrect(s);
    var r := SortTasks(s);
    forall i, j | 0 <= i < j < |r| ensures InKeyOrder(r[i], r[j]) {
      NotLessIsInOrder(r[i], r[j]);
    }
  }

  lemma NotLessIsInOrder(a: GraphTask, b: GraphTask)
    requires !TaskLess(b, a)
    ensures InKeyOrder(a, b)
  {
    hide LexLeq;
    LexOrder(a.orderKey, b.orderKey, b.orderKey);
    LexOrder(a.correlationKey, b.correlationKey, b.correlationKey);
    LexOrder(a.taskId, b.taskId, b.taskId);
  }

  // ----- what is routed to -----

  /** A plain task for a node, the k-th of its list. */
  predicate IsPlainTask(t: GraphTask, n: NodeId, k: int) {
    && t.taskId == n && t.nodeId == n && t.order == k && !t.dynamic && t.failure.None?
    && t.input == "" && t.correlationKey == "" && t.orderKey == ""
  }

  /** Plain tasks for exactly these nodes, in this order. */
  ghost predicate GoesTo(r: RouteResult, nodes: seq<NodeId>) {
    r.Routed? && |r.tasks| == |nodes| && forall k :: 0 <= k < |nodes| ==> IsPlainTask(r.tasks[k], nodes[k], k)
  }

  /** A node routing can start from, by its trimmed name. */
  predicate IsKnown(g: Graph, n: NodeId) {
    n != "" && (n == END || n in g.nodes)
  }

  /** The conditions before the i-th were evaluated, observed, and did not match. */
  ghost predicate Passed(evaluate: nat -> Evaluation, i: nat) {
    forall k: nat :: k < i ==> evaluate(k).Decided? && !evaluate(k).decision.matched
  }

  lemma {:induction false} SkipPassed(g: Graph, edges: seq<NodeId>, evaluate: nat -> Evaluation, k: nat, i: nat)
    requires k <= i <= |edges| && Passed(evaluate, i)
    ensures RouteConditional(g, edges, evaluate, k) == RouteConditional(g, edges, evaluate, i)
    decreases i - k
  {
    if k < i {
      SkipPassed(g, edges, evaluate, k + 1, i);
    }
  }

  /** The first condition that matches, none before it failing, decides. Without targets or sends of its own
      the decision leads to the target of that very edge. */
  lemma FirstMatchDecides(g: Graph, parent: NodeId, evaluate: nat -> Evaluation, i: nat)
    requires IsKnown(g, TrimSpace(parent)) && i < |Targets(g.conditionalEdges, TrimSpace(parent))| && Passed(evaluate, i)
    requires evaluate(i).Decided? && evaluate(i).decision.matched
    ensures var r, d := ResolveNextTasks(g, parent, evaluate), evaluate(i).decision;
            && (d.sends == [] && d.targets == [] ==> GoesTo(r, [Targets(g.conditionalEdges, TrimSpace(parent))[i]]))
            && (d.sends == [] && d.targets != [] ==> GoesToTargets(g, r, d.targets))
            && (d.sends != [] ==> GoesToSends(g, r, d.sends))
  {
    hide TrimSpace, SortTasks, GoesToTargets, GoesToSends;
    var edges := Targets(g.conditionalEdges, TrimSpace(parent));
    SkipPassed(g, edges, evaluate, 0, i);
    var d := evaluate(i).decision;
    if d.sends != [] {
      SendsResolved(g, d, edges[i]);
    } else if d.targets != [] {
      TargetsResolved(g, d, edges[i]);
    }
  }

  /** The end or a registered node, by its trimmed name. */
  predicate NamesTarget(g: Graph, ref: string, n: NodeId) {
    var id := TrimSpace(ref);
    if id == END_REF then n == END else id != "" && id in g.nodes && n == id
  }

  predicate KnownTarget(g: Graph, ref: string) {
    TrimSpace(ref) == END_REF || (TrimSpace(ref) != "" && TrimSpace(ref) in g.nodes)
  }

  /** The targets a decision names, in its order, or a refusal if one of them is unknown. */
  ghost predicate GoesToTargets(g: Graph, r: RouteResult, targets: seq<string>) {
    if forall k :: 0 <= k < |targets| ==> KnownTarget(g, targets[k]) then
      exists nodes :: GoesTo(r, nodes) && |nodes| == |targets| && forall k :: 0 <= k < |targets| ==> NamesTarget(g, targets[k], nodes[k])
    else r == Rejected(DecisionTargetUnknown)
  }

  lemma {:induction false} ResolvedTargets(g: Graph, targets: seq<string>)
    ensures ResolveTargets(g, targets).Some? <==> forall k :: 0 <= k < |targets| ==> KnownTarget(g, targets[k])
    ensures ResolveTargets(g, targets).Some? ==>
              var ids := ResolveTargets(g, targets).value;
              |ids| == |targets| && forall k :: 0 <= k < |targets| ==> NamesTarget(g, targets[k], ids[k])
  {
    hide TrimSpace;
    if targets != [] {
      var init, last := targets[..|targets| - 1], targets[|targets| - 1];
      ResolvedTargets(g, init);
      assert forall k :: 0 <= k < |init| ==> targets[k] == init[k];
      assert ResolveEdgeTarget(g, last).Some? <==> KnownTarget(g, last);
    }
  }

  lemma TargetsResolved(g: Graph, d: RouteDecision, edge: NodeId)
    requires d.sends == [] && d.targets != []
    ensures GoesToTargets(g, TasksFromDecision(g, edge, d), d.targets)
  {
    hide NamesTarget, KnownTarget, ResolveTargets;
    ResolvedTargets(g, d.targets);
    if ResolveTargets(g, d.targets).Some? {
      assert GoesTo(TasksFromDecision(g, edge, d), ResolveTargets(g, d.targets).value);
    }
  }

  /** The dynamic task that a request asks for. */
  predicate IsSentTask(g: Graph, t: GraphTask, send: Send) {
    && t.nodeId == TrimSpace(send.target) && t.nodeId != "" && t.nodeId in g.nodes
    && t.taskId == send.digest && t.input == send.input && t.dynamic && t.failure.None?
    && t.correlationKey == TrimSpace(send.correlationKey) && t.orderKey == TrimSpace(send.orderKey)
  }

  predicate SendsToNode(g: Graph, send: Send) {
    TrimSpace(send.target) != "" && TrimSpace(send.target) in g.nodes
  }

  /** One task per request, all of them sorted by their keys and numbered, or a refusal. */
  ghost predicate GoesToSends(g: Graph, r: RouteResult, sends: seq<Send>) {
    if forall k :: 0 <= k < |sends| ==> SendsToNode(g, sends[k]) then
      && r.Routed? && IsNumbered(r.tasks)
      && (forall i, j :: 0 <= i < j < |r.tasks| ==> InKeyOrder(r.tasks[i], r.tasks[j]))
      && exists asked :: Asks(g, asked, sends) && SameButOrder(r.tasks, asked)
    else r == Rejected(DecisionTargetUnknown)
  }

  ghost predicate IsNumbered(tasks: seq<GraphTask>) {
    forall k :: 0 <= k < |tasks| ==> tasks[k].order == k
  }

  ghost predicate Asks(g: Graph, asked: seq<GraphTask>, sends: seq<Send>) {
    |asked| == |sends| && forall k :: 0 <= k < |sends| ==> IsSentTask(g, asked[k], sends[k])
  }

  /** The same tasks, in any order, but for their numbers. */
  ghost predicate SameButOrder(tasks: seq<GraphTask>, asked: seq<GraphTask>) {
    exists sorted: seq<GraphTask> :: multiset(sorted) == multiset(asked) && |sorted| == |tasks|
                     && forall k :: 0 <= k < |tasks| ==> tasks[k] == sorted[k].(order := tasks[k].order)
  }

  /** One more request: resolved if the others are and its target is a node. */
  lemma OneMoreSend(g: Graph, sends: seq<Send>)
    requires sends != []
    ensures var before, after, last := ResolveSends(g, sends[..|sends| - 1]), ResolveSends(g, sends), sends[|sends| - 1];
            && (after.Some? <==> before.Some? && SendsToNode(g, last))
            && (after.Some? ==> |after.value| == |before.value| + 1 && after.value[..|before.value|] == before.value
                                && IsSentTask(g, after.value[|before.value|], last))
  {
    hide TrimSpace;
  }

  lemma {:induction false} ResolvedSends(g: Graph, sends: seq<Send>)
    ensures ResolveSends(g, sends).Some? <==> forall k :: 0 <= k < |sends| ==> SendsToNode(g, sends[k])
    ensures ResolveSends(g, sends).Some? ==> Asks(g, ResolveSends(g, sends).value, sends)
  {
    hide ResolveSends, SendsToNode, IsSentTask;
    if sends == [] {
      NothingSent(g);
    } else {
      var init := sends[..|sends| - 1];
      ResolvedSends(g, init);
      OneMoreSend(g, sends);
      assert forall k :: 0 <= k < |init| ==> sends[k] == init[k];
      if ResolveSends(g, sends).Some? {
        var before, after := ResolveSends(g, init).value, ResolveSends(g, sends).value;
        assert forall k :: 0 <= k < |init| ==> after[k] == before[k];
      }
    }
  }

  lemma NothingSent(g: Graph)
    ensures ResolveSends(g, []) == Some([])
  {
  }

  lemma SendsResolved(g: Graph, d: RouteDecision, edge: NodeId)
    requires d.sends != []
    ensures GoesToSends(g, TasksFromDecision(g, edge, d), d.sends)
  {
    hide TrimSpace, SortTasks, Renumber, ResolveSends, Asks, InKeyOrder, SendsToNode, IsNumbered, SameButOrder;
    ResolvedSends(g, d.sends);
    if ResolveSends(g, d.sends).Some? {
      RenumberedSort(ResolveSends(g, d.sends).value);
    }
  }

  lemma RenumberedSort(asked: seq<GraphTask>)
    ensures var tasks := Renumber(SortTasks(asked));
            && IsNumbered(tasks) && SameButOrder(tasks, asked)
            && forall i, j :: 0 <= i < j < |tasks| ==> InKeyOrder(tasks[i], tasks[j])
  {
    hide SortTasks, InKeyOrder;
    var sorted, tasks := SortTasks(asked), Renumber(SortTasks(asked));
    SortTasksCorrect(asked);
    SortedByKeys(asked);
    forall i, j | 0 <= i < j < |tasks| ensures InKeyOrder(tasks[i], tasks[j]) {
      KeysOnly(sorted[i], sorted[j], tasks[i], tasks[j]);
    }
  }

  lemma KeysOnly(a: GraphTask, b: GraphTask, c: GraphTask, d: GraphTask)
    requires InKeyOrder(a, b) && c == a.(order := c.order) && d == b.(order := d.order)
    ensures InKeyOrder(c, d)
  {
  }

  /** If no condition matches, the first default edge is taken; without one a finish point ends the run. */
  lemma NoMatchTakesFirstDefault(g: Graph, parent: NodeId, evaluate: nat -> Evaluation)
    requires IsKnown(g, TrimSpace(parent)) && Targets(g.conditionalEdges, TrimSpace(parent)) != []
    requires Passed(evaluate, |Targets(g.conditionalEdges, TrimSpace(parent))|)
    ensures var r, n := ResolveNextTasks(g, parent, evaluate), TrimSpace(parent);
            var targets := Targets(g.defaultEdges, n);
            && (targets != [] ==> GoesTo(r, [targets[0]]))
            && (targets == [] && n == g.finish ==> GoesTo(r, [END]))
            && (targets == [] && n != g.finish ==> r == Rejected(NoMatchingConditionalEdge))
  {
    hide TrimSpace;
    var edges := Targets(g.conditionalEdges, TrimSpace(parent));
    SkipPassed(g, edges, evaluate, 0, |edges|);
  }

  /** Without conditions all default edges are taken, in order. */
  lemma NoConditionTakesAllDefaults(g: Graph, parent: NodeId, evaluate: nat -> Evaluation)
    requires IsKnown(g, TrimSpace(parent)) && Targets(g.conditionalEdges, TrimSpace(parent)) == []
    ensures var r, n := ResolveNextTasks(g, parent, evaluate), TrimSpace(parent);
            var targets := Targets(g.defaultEdges, n);
            && (targets != [] ==> GoesTo(r, targets))
            && (targets == [] && n == g.finish ==> GoesTo(r, [END]))
            && (targets == [] && n != g.finish ==> r == Rejected(NoOutgoingEdge))
  {
    hide TrimSpace;
  }

  /** The first condition that fails, or whose observer does, ends routing with its own error, and a node
      that is not there with another. */
  lemma FirstFailureIsReported(g: Graph, parent: NodeId, evaluate: nat -> Evaluation, i: nat)
    requires IsKnown(g, TrimSpace(parent)) ==> i < |Targets(g.conditionalEdges, TrimSpace(parent))| && Passed(evaluate, i)
    ensures var r := ResolveNextTasks(g, parent, evaluate);
            if !IsKnown(g, TrimSpace(parent)) then r == Rejected(NodeMissing)
            else && (evaluate(i).ConditionFails? ==> r == Rejected(ConditionFailed))
                 && (evaluate(i).ObserverFails? ==> r == Rejected(ObserverFailed))
  {
    hide TrimSpace;
    if IsKnown(g, TrimSpace(parent)) {
      SkipPassed(g, Targets(g.conditionalEdges, TrimSpace(parent)), evaluate, 0, i);
    }
  }

  // ----- routing on an accepted graph -----

  lemma {:induction false} SendsKnown(g: Graph, sends: seq<Send>)
    requires ResolveSends(g, sends).Some?
    ensures var tasks := ResolveSends(g, sends).value;
            |tasks| == |sends| && forall i :: 0 <= i < |tasks| ==> tasks[i].nodeId in g.nodes && tasks[i].dynamic
  {
    if sends != [] {
      SendsKnown(g, sends[..|sends| - 1]);
    }
  }

  lemma {:induction false} TargetsKnown(g: Graph, targets: seq<string>)
    requires ResolveTargets(g, targets).Some?
    ensures var ids := ResolveTargets(g, targets).value;
            |ids| == |targets| && forall i :: 0 <= i < |ids| ==> ids[i] == END || ids[i] in g.nodes
  {
    if targets != [] {
      TargetsKnown(g, targets[..|targets| - 1]);
    }
  }

  /** Sorting neither adds nor drops a task. */
  lemma SortedSame(tasks: seq<GraphTask>)
    ensures |SortTasks(tasks)| == |tasks|
    ensures forall t :: t in SortTasks(tasks) ==> t in tasks
  {
    hide SortTasks;
    SortTasksCorrect(tasks);
    var sorted := SortTasks(tasks);
    assert |sorted| == |multiset(sorted)| == |multiset(tasks)| == |tasks|;
    forall t | t in sorted ensures t in tasks {
      assert t in multiset(sorted);
    }
  }

  lemma DecisionRouted(g: Graph, edgeTarget: NodeId, d: RouteDecision)
    requires edgeTarget == END || edgeTarget in g.nodes
    ensures WellRouted(g, TasksFromDecision(g, edgeTarget, d))
  {
    hide SortTasks, ResolveSends, ResolveTargets;
    if d.sends != [] && ResolveSends(g, d.sends).Some? {
      SendsKnown(g, d.sends);
      var tasks := ResolveSends(g, d.sends).value;
      var sorted := SortTasks(tasks);
      SortedSame(tasks);
      forall i | 0 <= i < |sorted| ensures sorted[i].nodeId in g.nodes {
        assert sorted[i] in sorted && sorted[i] in tasks;
      }
    } else if d.sends == [] && d.targets != [] && ResolveTargets(g, d.targets).Some? {
      TargetsKnown(g, d.targets);
    }
  }

  lemma {:induction false} ConditionalRouted(g: Graph, edges: seq<NodeId>, evaluate: nat -> Evaluation, i: nat)
    requires i <= |edges|
    requires forall t :: t in edges ==> t == END || t in g.nodes
    ensures match RouteConditional(g, edges, evaluate, i) case Some(r) => WellRouted(g, r) case None => true
    decreases |edges| - i
  {
    if i < |edges| && evaluate(i).Decided? {
      if evaluate(i).decision.matched {
        DecisionRouted(g, edges[i], evaluate(i).decision);
      } else {
        ConditionalRouted(g, edges, evaluate, i + 1);
      }
    }
  }

  ghost predicate RoutedByEdges(tasks: seq<GraphTask>) {
    exists targets :: tasks == StaticRouteTasks(targets)
  }

  ghost predicate Sent(sends: seq<GraphTask>) {
    forall i :: 0 <= i < |sends| ==> sends[i].dynamic
  }

  ghost predicate RoutedBySends(tasks: seq<GraphTask>) {
    exists sends :: Sent(sends) && tasks == Renumber(SortTasks(sends))
  }

  ghost predicate IsRouted(r: RouteResult) {
    r.Routed? ==> RoutedByEdges(r.tasks) || RoutedBySends(r.tasks)
  }

  lemma DecisionIsRouted(g: Graph, edgeTarget: NodeId, d: RouteDecision)
    ensures IsRouted(TasksFromDecision(g, edgeTarget, d))
  {
    hide SortTasks, ResolveSends, ResolveTargets, Renumber, StaticRouteTasks;
    if d.sends != [] && ResolveSends(g, d.sends).Some? {
      SendsKnown(g, d.sends);
      assert Sent(ResolveSends(g, d.sends).value);
    }
  }

  lemma {:induction false} ConditionalIsRouted(g: Graph, edges: seq<NodeId>, evaluate: nat -> Evaluation, i: nat)
    requires i <= |edges|
    ensures match RouteConditional(g, edges, evaluate, i) case Some(r) => IsRouted(r) case None => true
    decreases |edges| - i
  {
    hide IsRouted, TasksFromDecision;
    if i < |edges| {
      match evaluate(i)
      case Decided(d) =>
        if d.matched {
          DecisionIsRouted(g, edges[i], d);
        } else {
          ConditionalIsRouted(g, edges, evaluate, i + 1);
        }
      case _ => assert IsRouted(Rejected(ConditionFailed)) && IsRouted(Rejected(ObserverFailed)) by { ErrorsAreRouted(); }
    }
  }

  lemma ErrorsAreRouted()
    ensures IsRouted(Rejected(ConditionFailed)) && IsRouted(Rejected(ObserverFailed))
  {
  }

  /** Routing answers with static tasks numbered as the edges or targets stand, or with dynamic tasks in
      order; never with a mixture. */
  lemma RoutedTasksAre(g: Graph, n: NodeId, evaluate: nat -> Evaluation)
    ensures IsRouted(ResolveNextTasks(g, n, evaluate))
  {
    hide RouteConditional, TrimSpace, StaticRouteTasks;
    ConditionalIsRouted(g, Targets(g.conditionalEdges, TrimSpace(n)), evaluate, 0);
  }

  /** What acceptance says about the edges of one node. */
  lemma EdgesOfAccepted(g: Graph, n: NodeId)
    requires Accepted(g) && n in g.nodes && n != ""
    ensures forall t :: t in Outgoing(g, n) ==> t == END || t in g.nodes
    ensures Targets(g.conditionalEdges, n) != [] ==> Targets(g.defaultEdges, n) != []
    ensures n == g.finish || Outgoing(g, n) != []
  {
    if Targets(g.conditionalEdges, n) != [] {
      assert n in g.conditionalEdges && Outgoing(g, n) != [];
    }
  }

  /** On an accepted graph, routing from any registered node, whatever its conditions answer,
      either reports one of their errors or names at least one next task, all of them known. */
  lemma RoutingNeverStuck(g: Graph, n: NodeId, evaluate: nat -> Evaluation)
    requires Accepted(g) && n in g.nodes
    requires n != "" && Trimmed(n)
    ensures WellRouted(g, ResolveNextTasks(g, n, evaluate))
  {
    hide Accepted, RouteConditional, TrimSpace;
    EdgesOfAccepted(g, n);
    var conditional := Targets(g.conditionalEdges, n);
    assert forall t :: t in conditional ==> t in Outgoing(g, n);
    ConditionalRouted(g, conditional, evaluate, 0);
  }

  /** A decision that only says whether its edge matches. */
  predicate Plain(e: Evaluation) {
    e.Decided? && e.decision.targets == [] && e.decision.sends == []
  }

  lemma {:induction false} PlainConditional(g: Graph, edges: seq<NodeId>, evaluate: nat -> Evaluation, i: nat)
    requires i <= |edges|
    requires forall k: nat :: k < |edges| ==> Plain(evaluate(k))
    ensures match RouteConditional(g, edges, evaluate, i)
            case Some(r) => r.Routed? && exists t :: t in edges && r.tasks == [NewStaticTask(t, 0)]
            case None => true
    decreases |edges| - i
  {
    if i < |edges| {
      if evaluate(i).decision.matched {
        assert edges[i] in edges;
      } else {
        PlainConditional(g, edges, evaluate, i + 1);
      }
    }
  }

  /** When decisions only match or not, every task routing produces is static and follows an edge
      of the node, or goes to the end. */
  lemma PlainRouting(g: Graph, n: NodeId, evaluate: nat -> Evaluation)
    requires Accepted(g) && n in g.nodes
    requires n != "" && Trimmed(n)
    requires forall k: nat :: k < |Targets(g.conditionalEdges, n)| ==> Plain(evaluate(k))
    ensures var r := ResolveNextTasks(g, n, evaluate);
            && r.Routed? && r.tasks != []
            && forall i :: 0 <= i < |r.tasks| ==>
                 !r.tasks[i].dynamic && (r.tasks[i].nodeId == END || r.tasks[i].nodeId in Outgoing(g, n))
  {
    hide Accepted, RouteConditional, TrimSpace;
    EdgesOfAccepted(g, n);
    PlainConditional(g, Targets(g.conditionalEdges, n), evaluate, 0);
  }
}
