/** Small graphs and families of inputs on which a resumed run differs from the live run. */
module ResumeExamples {
  import opened Common
  import opened Text
  import opened Topology
  import opened FanIn
  import opened Validation
  import opened Routing
  import opened Waves
  import opened Resume

  /** Every condition answers "no". */
  const ANSWER_NO: nat -> Evaluation := i => Decided(RouteDecision(false, [], []))

  const NO: Answers := n => ANSWER_NO

  // ----- helpers for concrete graphs -----

  lemma PlainNo()
    ensures PlainAnswers(NO)
  {
  }

  /** A node without conditions goes to all its default targets. */
  lemma RouteByDefault(g: Graph, n: NodeId, targets: seq<NodeId>)
    requires n in g.nodes && n != "" && Trimmed(n)
    requires n !in g.conditionalEdges && n in g.defaultEdges && g.defaultEdges[n] == targets != []
    ensures ResolveNextTasks(g, n, ANSWER_NO) == Routed(StaticRouteTasks(targets))
    ensures forall t :: t in RouteNodes(g, n, ANSWER_NO) <==> t in targets
  {
    hide TrimSpace;
    var tasks := StaticRouteTasks(targets);
    forall t | t in targets ensures t in TaskNodes(tasks) {
      var i :| 0 <= i < |targets| && targets[i] == t;
      assert tasks[i].nodeId == t;
    }
  }

  lemma TargetsOfOne(g: Graph, n: NodeId, targets: set<NodeId>)
    requires RouteNodes(g, n, ANSWER_NO) == targets
    ensures NextTargets(g, {n}, NO) == targets
  {
    hide RouteNodes;
    assert NO(n) == ANSWER_NO;
    forall t | t in targets ensures t in NextTargets(g, {n}, NO) {
      assert n in {n} && t in RouteNodes(g, n, NO(n));
    }
  }

  /** A run goes on by one wave. */
  lemma OneMoreWave(g: Graph, t: Tables, run: seq<Schedule>, answers: seq<Answers>, targets: set<NodeId>) returns (next: Schedule)
    requires IsRun(g, t, run, answers) && Keyed(run[|run| - 1].parked)
    requires Wave(run[|run| - 1]) != {} && NextTargets(g, Wave(run[|run| - 1]), NO) == targets
    ensures next == ScheduleNext(t, StaticTasks(SortedIds(targets)), run[|run| - 1].parked)
    ensures IsRun(g, t, run + [next], answers + [NO]) && Keyed(next.parked)
    ensures var now := ReadyNodes(t, run[|run| - 1].parked.Keys + targets);
            Wave(next) == now - {END} && next.parked.Keys == run[|run| - 1].parked.Keys + targets - now
  {
    hide ScheduleNext, Wave, NextTargets, ReadyNodes, StaticTasks, SortedIds, PlainAnswers, Start;
    var last := run[|run| - 1];
    next := ScheduleNext(t, StaticTasks(SortedIds(targets)), last.parked);
    ScheduledNodes(t, targets, last.parked);
    PlainNo();
    var longer, given := run + [next], answers + [NO];
    forall i, j | 0 <= i && j == i + 1 && j < |longer| ensures WaveStep(g, t, longer[i], longer[j], given[i]) {
      if j < |run| {
        var before, after := run[i], run[j];
        assert WaveStep(g, t, before, after, answers[i]);
      }
    }
  }

  /** The same for a wave of one node, with what becomes active and what of it is ready. */
  lemma GoOn(
    g: Graph, t: Tables, run: seq<Schedule>, answers: seq<Answers>, n: NodeId,
    targets: set<NodeId>, active: set<NodeId>, now: set<NodeId>)
    returns (longer: seq<Schedule>)
    requires IsRun(g, t, run, answers) && Keyed(run[|run| - 1].parked) && Wave(run[|run| - 1]) == {n}
    requires RouteNodes(g, n, ANSWER_NO) == targets
    requires run[|run| - 1].parked.Keys + targets == active && ReadyNodes(t, active) == now
    ensures IsRun(g, t, longer, answers + [NO]) && |longer| == |run| + 1 && longer[..|run|] == run
    ensures var next := longer[|run|]; Wave(next) == now - {END} && next.parked.Keys == active - now && Keyed(next.parked)
  {
    hide ScheduleNext, Wave, NextTargets, ReadyNodes, RouteNodes, IsRun;
    TargetsOfOne(g, n, targets);
    var next := OneMoreWave(g, t, run, answers, targets);
    longer := run + [next];
  }

  lemma FirstWave(g: Graph, t: Tables)
    requires g.entry != END
    ensures var s := Start(t, g);
            IsRun(g, t, [s], []) && Wave(s) == {g.entry} && s.parked == map[] && Keyed(s.parked)
  {
    hide Start;
    StartSchedule(t, g);
    var s := Start(t, g);
    assert s.ready[0].nodeId == g.entry;
  }

  lemma FirstEdge(g: Graph, a: NodeId, b: NodeId) returns (y: NodeId)
    requires Reaches(g, a, b)
    ensures Edge(g, a, y)
  {
    var p :| PathBetween(g, p, a, b);
    y := p[1];
    assert Edge(g, p[0], p[1]);
  }

  lemma IdsAreTrimmed()
    ensures Trimmed("") && Trimmed("a") && Trimmed("b") && Trimmed("c") && Trimmed("d") && Trimmed("j") && Trimmed("p")
  {
  }

  // ----- a join that is lost -----

  /** a starts b and the join j; b either goes on to j or ends. */
  const FORK: Graph := Graph(
    {"a", "b", "j"}, "a", "",
    map["a" := ["b", "j"], "b" := [END], "j" := [END]],
    map["b" := ["j"]],
    map[])

  const FORK_TABLES: Tables := Tables({"j"}, map["a" := {"b", "j"}, "b" := {"j"}, "j" := {}])

  lemma ForkEdges(x: NodeId, y: NodeId)
    ensures Edge(FORK, x, y) <==> (x == "a" && (y == "b" || y == "j")) || (x == "b" && y == "j")
  {
    if x == "a" {
      assert Outgoing(FORK, x) == ["b", "j"];
    } else if x == "b" {
      assert Outgoing(FORK, x) == [END, "j"];
    } else if x == "j" {
      assert Outgoing(FORK, x) == [END];
    }
  }

  lemma ForkReaches(x: NodeId, y: NodeId)
    requires x in FORK_TABLES.reach
    ensures Reaches(FORK, x, y) <==> y in FORK_TABLES.reach[x]
  {
    var row := FORK_TABLES.reach[x];
    forall n, m | (n == x || n in row) && Edge(FORK, n, m) ensures m in row {
      ForkEdges(n, m);
    }
    if Reaches(FORK, x, y) {
      var p :| PathBetween(FORK, p, x, y);
      ClosedMarkingComplete(FORK, x, row, p);
    }
    if y in row {
      ForkEdges(x, y);
      EdgeReaches(FORK, x, y);
    }
  }

  lemma ForkCompiled()
    ensures Compiled(FORK, FORK_TABLES)
  {
    forall x, y | x in FORK_TABLES.reach ensures y in FORK_TABLES.reach[x] <==> Reaches(FORK, x, y) {
      ForkReaches(x, y);
    }
    forall n ensures n in FORK_TABLES.joins <==> IsJoin(FORK, n) {
      ForkEdges("a", n);
      ForkEdges("b", n);
      if x, y :| x != y && Edge(FORK, x, n) && Edge(FORK, y, n) {
        ForkEdges(x, n);
        ForkEdges(y, n);
      }
    }
  }

  lemma ForkRules()
    ensures EdgeRules(FORK) && OutgoingRules(FORK)
  {
    assert Outgoing(FORK, "a") == ["b", "j"] && Outgoing(FORK, "b") == [END, "j"] && Outgoing(FORK, "j") == [END];
  }

  lemma ForkConnected(n: NodeId)
    requires n in FORK.nodes
    ensures FromEntry(FORK, n) && ToEnd(FORK, n)
  {
    ForkRules();
    hide EdgeRules, OutgoingRules, WithFailures, Edge;
    assert AllTargets(FORK, "a") == ["b", "j"] && AllTargets(FORK, "b") == [END, "j"] && AllTargets(FORK, "j") == [END];
    FailureEdge(FORK, "a", "b");
    FailureEdge(FORK, "a", "j");
    FromEntryStep(FORK, "a", "b");
    FromEntryStep(FORK, "a", "j");
    assert ToTerminal(FORK, "b", "b") && ToTerminal(FORK, "j", "j");
    ToEndStep(FORK, "a", "b");
  }

  lemma ForkAcyclic()
    ensures Acyclic(FORK)
  {
    hide Reaches, Edge;
    forall n ensures !Reaches(FORK, n, n) {
      if Reaches(FORK, n, n) {
        var y := FirstEdge(FORK, n, n);
        ForkEdges(n, y);
        ForkReaches(n, n);
      }
    }
  }

  lemma ForkAccepted()
    ensures Accepted(FORK) && Registered(FORK) && Acyclic(FORK)
  {
    hide EdgeRules, OutgoingRules, Trimmed, FromEntry, ToEnd, Acyclic;
    ForkRules();
    IdsAreTrimmed();
    ForkAcyclic();
    forall n | n in FORK.nodes ensures FromEntry(FORK, n) && ToEnd(FORK, n) {
      ForkConnected(n);
    }
  }

  /** b finishes without matching its condition. */
  lemma ForkRouting()
    ensures ResolveNextTasks(FORK, "b", ANSWER_NO) == Routed([NewStaticTask(END, 0)])
    ensures RouteNodes(FORK, "b", ANSWER_NO) == {END}
    ensures RouteNodes(FORK, "a", ANSWER_NO) == {"b", "j"}
  {
    IdsAreTrimmed();
    hide TrimSpace, Trimmed;
    assert Targets(FORK.conditionalEdges, "b") == ["j"];
    assert RouteConditional(FORK, ["j"], ANSWER_NO, 1) == None;
    assert Targets(FORK.defaultEdges, "b")[..1] == [END];
    assert [NewStaticTask(END, 0)][0].nodeId == END;
    RouteByDefault(FORK, "a", ["b", "j"]);
  }

  lemma ForkWaves()
    ensures ReadyNodes(FORK_TABLES, {"b", "j"}) == {"b"}
    ensures ReadyNodes(FORK_TABLES, {"j", END}) == {"j", END}
  {
    assert IsStrictUpstream(FORK_TABLES.reach, "b", "j");
    assert Blocked(FORK_TABLES, "j", {"b", "j"});
    assert !Blocked(FORK_TABLES, "j", {"j", END});
  }

  /** Three nodes, the last of them released beside the end. */
  lemma ThreeWaves(g: Graph, t: Tables, a: NodeId, b: NodeId, j: NodeId) returns (run: seq<Schedule>)
    requires g.entry == a != END && END !in {b, j} && b != j
    requires RouteNodes(g, a, ANSWER_NO) == {b, j} && ReadyNodes(t, {b, j}) == {b}
    requires RouteNodes(g, b, ANSWER_NO) == {END} && ReadyNodes(t, {j, END}) == {j, END}
    ensures IsRun(g, t, run, [NO, NO]) && |run| == 3 && Keyed(run[1].parked)
    ensures Wave(run[1]) == {b} && run[1].parked.Keys == {j} && Wave(run[2]) == {j}
  {
    hide Wave, ReadyNodes, RouteNodes, IsRun, Start, Keyed;
    FirstWave(g, t);
    var first := [Start(t, g)];
    assert first[0].parked.Keys + {b, j} == {b, j};
    var second := GoOn(g, t, first, [], a, {b, j}, {b, j}, {b});
    assert {b} - {END} == {b} && {j, END} - {END} == {j};
    assert second[1].parked.Keys == {j} && {j} + {END} == {j, END} && [] + [NO] == [NO];
    run := GoOn(g, t, second, [NO], b, {END}, {j, END}, {j, END});
    assert [NO] + [NO] == [NO, NO];
    assert run[1] == run[..2][1] == second[1];
  }

  /** The run in which b answers "no" executes j in its third wave. Resumed from the checkpoint after b it
      is completed at once: b routed to the end only, and j, which is parked, never executes. */
  lemma JoinLostOnResume() returns (run: seq<Schedule>)
    ensures Accepted(FORK) && Registered(FORK) && Acyclic(FORK) && Compiled(FORK, FORK_TABLES)
    ensures IsRun(FORK, FORK_TABLES, run, [NO, NO]) && |run| == 3
    ensures Wave(run[1]) == {"b"} && run[1].parked.Keys == {"j"} && Wave(run[2]) == {"j"}
    ensures var next := ResolveNextTasks(FORK, "b", ANSWER_NO);
            next.Routed? && ResolvesToEnd(next.tasks)
  {
    hide ResolveNextTasks, ReadyNodes, Wave, RouteNodes, Accepted, Registered, Acyclic, Compiled, IsRun;
    ForkAccepted();
    ForkCompiled();
    ForkRouting();
    ForkWaves();
    run := ThreeWaves(FORK, FORK_TABLES, "a", "b", "j");
  }

  // ----- a join that starts early and executes twice -----

  /** a starts b and the join p; b goes on to p and to the join j, p to j. */
  const CROSS: Graph := Graph(
    {"a", "b", "p", "j"}, "a", "",
    map["a" := ["b", "p"], "b" := ["p", "j"], "p" := ["j"], "j" := [END]],
    map[],
    map[])

  const CROSS_TABLES: Tables := Tables({"p", "j"}, map["a" := {"b", "p", "j"}, "b" := {"p", "j"}, "p" := {"j"}, "j" := {}])

  lemma CrossEdges(x: NodeId, y: NodeId)
    ensures Edge(CROSS, x, y)
            <==> || (x == "a" && (y == "b" || y == "p"))
                 || (x == "b" && (y == "p" || y == "j"))
                 || (x == "p" && y == "j")
  {
    if x == "a" {
      assert Outgoing(CROSS, x) == ["b", "p"];
    } else if x == "b" {
      assert Outgoing(CROSS, x) == ["p", "j"];
    } else if x == "p" {
      assert Outgoing(CROSS, x) == ["j"];
    } else if x == "j" {
      assert Outgoing(CROSS, x) == [END];
    }
  }

  lemma CrossReaches(x: NodeId, y: NodeId)
    requires x in CROSS_TABLES.reach
    ensures Reaches(CROSS, x, y) <==> y in CROSS_TABLES.reach[x]
  {
    hide Edge, Reaches;
    var row := CROSS_TABLES.reach[x];
    if Reaches(CROSS, x, y) {
      CrossClosed(x, y);
    }
    if y in row {
      CrossEdges("a", "b");
      CrossEdges("b", "j");
      CrossEdges(x, y);
      EdgeReaches(CROSS, "a", "b");
      EdgeReaches(CROSS, "b", "j");
      ReachesTransitive(CROSS, "a", "b", "j");
      if Edge(CROSS, x, y) {
        EdgeReaches(CROSS, x, y);
      }
    }
  }

  lemma CrossClosed(x: NodeId, y: NodeId)
    requires x in CROSS_TABLES.reach && Reaches(CROSS, x, y)
    ensures y in CROSS_TABLES.reach[x]
  {
    hide Edge;
    var row := CROSS_TABLES.reach[x];
    forall n, m | (n == x || n in row) && Edge(CROSS, n, m) ensures m in row {
      CrossEdges(n, m);
    }
    var p :| PathBetween(CROSS, p, x, y);
    ClosedMarkingComplete(CROSS, x, row, p);
  }

  lemma CrossJoins(n: NodeId)
    ensures n in CROSS_TABLES.joins <==> IsJoin(CROSS, n)
  {
    hide Edge;
    CrossEdges("a", n);
    CrossEdges("b", n);
    CrossEdges("p", n);
    if x, y :| x != y && Edge(CROSS, x, n) && Edge(CROSS, y, n) {
      CrossEdges(x, n);
      CrossEdges(y, n);
    }
  }

  lemma CrossCompiled()
    ensures Compiled(CROSS, CROSS_TABLES)
  {
    hide Reaches, IsJoin;
    forall x, y | x in CROSS_TABLES.reach ensures y in CROSS_TABLES.reach[x] <==> Reaches(CROSS, x, y) {
      CrossReaches(x, y);
    }
    forall n ensures n in CROSS_TABLES.joins <==> IsJoin(CROSS, n) {
      CrossJoins(n);
    }
  }

  lemma CrossRules()
    ensures EdgeRules(CROSS) && OutgoingRules(CROSS)
  {
    assert Outgoing(CROSS, "a") == ["b", "p"] && Outgoing(CROSS, "b") == ["p", "j"];
    assert Outgoing(CROSS, "p") == ["j"] && Outgoing(CROSS, "j") == [END];
  }

  lemma CrossConnected(n: NodeId)
    requires n in CROSS.nodes
    ensures FromEntry(CROSS, n) && ToEnd(CROSS, n)
  {
    CrossRules();
    hide EdgeRules, OutgoingRules, WithFailures, Edge;
    assert AllTargets(CROSS, "a") == ["b", "p"] && AllTargets(CROSS, "b") == ["p", "j"];
    assert AllTargets(CROSS, "p") == ["j"] && AllTargets(CROSS, "j") == [END];
    FailureEdge(CROSS, "a", "b");
    FailureEdge(CROSS, "a", "p");
    FailureEdge(CROSS, "b", "j");
    FailureEdge(CROSS, "p", "j");
    FromEntryStep(CROSS, "a", "b");
    FromEntryStep(CROSS, "a", "p");
    FromEntryStep(CROSS, "b", "j");
    assert ToTerminal(CROSS, "j", "j");
    ToEndStep(CROSS, "b", "j");
    ToEndStep(CROSS, "p", "j");
    ToEndStep(CROSS, "a", "b");
  }

  lemma CrossAcyclic()
    ensures Acyclic(CROSS)
  {
    hide Reaches, Edge;
    forall n ensures !Reaches(CROSS, n, n) {
      if Reaches(CROSS, n, n) {
        var y := FirstEdge(CROSS, n, n);
        CrossEdges(n, y);
        CrossReaches(n, n);
      }
    }
  }

  lemma CrossAccepted()
    ensures Accepted(CROSS) && Registered(CROSS) && Acyclic(CROSS)
  {
    hide EdgeRules, OutgoingRules, Trimmed, FromEntry, ToEnd, Acyclic;
    CrossRules();
    IdsAreTrimmed();
    CrossAcyclic();
    forall n | n in CROSS.nodes ensures FromEntry(CROSS, n) && ToEnd(CROSS, n) {
      CrossConnected(n);
    }
  }

  lemma CrossRouting()
    ensures RouteNodes(CROSS, "a", ANSWER_NO) == {"b", "p"}
    ensures RouteNodes(CROSS, "b", ANSWER_NO) == {"p", "j"}
    ensures RouteNodes(CROSS, "p", ANSWER_NO) == {"j"}
    ensures RouteNodes(CROSS, "j", ANSWER_NO) == {END}
    ensures ResolveNextTasks(CROSS, "b", ANSWER_NO) == Routed(StaticRouteTasks(["p", "j"]))
  {
    hide Trimmed, RouteNodes, ResolveNextTasks;
    IdsAreTrimmed();
    RouteByDefault(CROSS, "a", ["b", "p"]);
    RouteByDefault(CROSS, "b", ["p", "j"]);
    RouteByDefault(CROSS, "p", ["j"]);
    RouteByDefault(CROSS, "j", [END]);
  }

  lemma CrossWaves()
    ensures ReadyNodes(CROSS_TABLES, {"b", "p"}) == {"b"}
    ensures ReadyNodes(CROSS_TABLES, {"p", "j"}) == {"p"}
    ensures ReadyNodes(CROSS_TABLES, {"j"}) == {"j"}
    ensures ReadyNodes(CROSS_TABLES, {"j", END}) == {"j", END}
    ensures ResumeNodes(CROSS_TABLES, {"p", "j"}, {"p"}) == {"p", "j"}
  {
    var reach := CROSS_TABLES.reach;
    assert IsStrictUpstream(reach, "b", "p") && IsStrictUpstream(reach, "p", "j");
    assert Blocked(CROSS_TABLES, "p", {"b", "p"}) && Blocked(CROSS_TABLES, "j", {"p", "j"});
    assert !Blocked(CROSS_TABLES, "p", {"p", "j"}) && !Blocked(CROSS_TABLES, "j", {"j"}) && !Blocked(CROSS_TABLES, "j", {"j", END});
  }

  /** Four nodes, one after the other. */
  lemma FourWaves(g: Graph, t: Tables, a: NodeId, b: NodeId, p: NodeId, j: NodeId) returns (run: seq<Schedule>)
    requires g.entry == a != END && END !in {b, p, j}
    requires RouteNodes(g, a, ANSWER_NO) == {b, p} && ReadyNodes(t, {b, p}) == {b} && b != p
    requires RouteNodes(g, b, ANSWER_NO) == {p, j} && ReadyNodes(t, {p, j}) == {p} && p != j
    requires RouteNodes(g, p, ANSWER_NO) == {j} && ReadyNodes(t, {j}) == {j}
    ensures IsRun(g, t, run, [NO, NO, NO]) && |run| == 4
    ensures Wave(run[1]) == {b} && run[1].parked.Keys == {p} && Keyed(run[1].parked)
    ensures Wave(run[2]) == {p} && run[2].parked.Keys == {j} && Wave(run[3]) == {j}
  {
    hide Wave, ReadyNodes, RouteNodes, IsRun, Start, Keyed;
    FirstWave(g, t);
    var first := [Start(t, g)];
    assert first[0].parked.Keys + {b, p} == {b, p};
    var second := GoOn(g, t, first, [], a, {b, p}, {b, p}, {b});
    assert {b} - {END} == {b} && {p} - {END} == {p} && {j} - {END} == {j};
    assert second[1].parked.Keys == {p} && {p} + {p, j} == {p, j} && [] + [NO] == [NO];
    var third := GoOn(g, t, second, [NO], b, {p, j}, {p, j}, {p});
    assert third[2].parked.Keys == {j} && {j} + {j} == {j} && [NO] + [NO] == [NO, NO];
    assert third[1] == third[..2][1] == second[1];
    run := GoOn(g, t, third, [NO, NO], p, {j}, {j}, {j});
    assert [NO, NO] + [NO] == [NO, NO, NO];
    assert run[1] == run[..3][1] == third[1] && run[2] == run[..3][2] == third[2];
  }

  /** The live run: one node in each of four waves. */
  lemma CrossRun() returns (run: seq<Schedule>)
    ensures IsRun(CROSS, CROSS_TABLES, run, [NO, NO, NO]) && |run| == 4
    ensures Wave(run[1]) == {"b"} && run[1].parked.Keys == {"p"} && Keyed(run[1].parked)
    ensures Wave(run[2]) == {"p"} && run[2].parked.Keys == {"j"} && Wave(run[3]) == {"j"}
  {
    hide ReadyNodes, Wave, RouteNodes, IsRun;
    CrossRouting();
    CrossWaves();
    run := FourWaves(CROSS, CROSS_TABLES, "a", "b", "p", "j");
  }

  lemma TargetsOfTwo(g: Graph, m: NodeId, n: NodeId)
    ensures NextTargets(g, {m, n}, NO) == RouteNodes(g, m, ANSWER_NO) + RouteNodes(g, n, ANSWER_NO)
  {
    hide RouteNodes;
    var wave := {m, n};
    assert NO(m) == ANSWER_NO && NO(n) == ANSWER_NO;
    forall t | t in RouteNodes(g, m, ANSWER_NO) ensures t in NextTargets(g, wave, NO) {
      assert m in wave && t in RouteNodes(g, m, NO(m));
    }
    forall t | t in RouteNodes(g, n, ANSWER_NO) ensures t in NextTargets(g, wave, NO) {
      assert n in wave && t in RouteNodes(g, n, NO(n));
    }
  }

  /** Resumed from the checkpoint after b, the run starts p and j together, although p leads to j; when
      they are done p routes to j, which executes a second time. */
  lemma JoinStartedEarly() returns (run: seq<Schedule>, resumed: Schedule, again: Schedule)
    ensures Accepted(CROSS) && Registered(CROSS) && Acyclic(CROSS) && Compiled(CROSS, CROSS_TABLES)
    ensures IsRun(CROSS, CROSS_TABLES, run, [NO, NO, NO]) && |run| == 4
    ensures Wave(run[1]) == {"b"} && Wave(run[2]) == {"p"} && Wave(run[3]) == {"j"}
    ensures ResolveNextTasks(CROSS, "b", ANSWER_NO).Routed?
    ensures resumed == ResumeSchedule(CROSS_TABLES, ResolveNextTasks(CROSS, "b", ANSWER_NO).tasks, run[1].parked)
    ensures WaveStep(CROSS, CROSS_TABLES, resumed, again, NO)
    ensures Wave(resumed) == {"p", "j"} && Wave(again) == {"j"}
  {
    hide ResolveNextTasks, ReadyNodes, Wave, RouteNodes, Accepted, Registered, Acyclic, Compiled, IsRun, ScheduleNext, Start,
      NextTargets, ResumeSchedule, ResumeNodes, StaticTasks, SortedIds, StaticRouteTasks, PlainAnswers, Dynamics, StaticNodes;
    CrossAccepted();
    CrossCompiled();
    CrossRouting();
    CrossWaves();
    run := CrossRun();
    var routed := StaticRouteTasks(["p", "j"]);
    resumed := ResumeSchedule(CROSS_TABLES, routed, run[1].parked);
    BothResumed(CROSS_TABLES, "p", "j", run[1].parked);
    TargetsOfTwo(CROSS, "p", "j");
    assert {"j"} + {END} == {"j", END};
    again := ScheduleNext(CROSS_TABLES, StaticTasks(SortedIds({"j", END})), resumed.parked);
    ScheduledNodes(CROSS_TABLES, {"j", END}, resumed.parked);
    assert resumed.parked.Keys + {"j", END} == {"j", END} && {"j", END} - {END} == {"j"};
    PlainNo();
  }

  lemma BothResumed(t: Tables, p: NodeId, j: NodeId, parked: TaskMap)
    requires Keyed(parked) && parked.Keys == {p} && END !in {p, j} && ResumeNodes(t, {p, j}, {p}) == {p, j}
    ensures var resumed := ResumeSchedule(t, StaticRouteTasks([p, j]), parked);
            Wave(resumed) == {p, j} && resumed.parked == map[]
  {
    hide Wave, ResumeSchedule, ResumeNodes, StaticRouteTasks, TaskNodes, Dynamics, StaticNodes, Keyed;
    var routed := StaticRouteTasks([p, j]);
    TwoRouted(p, j);
    NoDynamicRoute([p, j]);
    ResumedWave(t, routed, parked);
    assert {p, j} - {END} == {p, j};
    var resumed := ResumeSchedule(t, routed, parked);
    assert resumed.parked.Keys == {};
  }

  lemma TwoRouted(p: NodeId, j: NodeId)
    ensures StaticNodes(StaticRouteTasks([p, j])) == {p, j}
  {
    var tasks := StaticRouteTasks([p, j]);
    assert tasks[0].nodeId == p && tasks[1].nodeId == j;
  }

  lemma NoDynamicRoute(targets: seq<NodeId>)
    ensures Dynamics(StaticRouteTasks(targets)) == [] && TaskNodes(Dynamics(StaticRouteTasks(targets))) == {}
  {
    NoDynamics(StaticRouteTasks(targets));
  }

  // ----- nodes routed to out of place -----

  lemma OutOfPlace(b: NodeId, c: NodeId)
    requires LexLeq(b, c) && b != c
    ensures !InPlace([c, b], {})
  {
    hide SortedIds, LexLeq;
    var targets := [c, b];
    var nodes := set n | n in targets;
    SortedIdsAscend(nodes);
    var ids := SortedIds(nodes);
    assert targets[0] == c && targets[1] == b && targets[1] !in targets[..1];
    if |ids| > 1 && LexLeq(ids[1], ids[0]) {
      LexAntisymmetric(ids[0], ids[1]);
    }
  }

  /** A node whose edges stand as c, b against the order of their ids: no join, nothing parked, and still
      the resumed run numbers its tasks the other way round. */
  lemma OrderDiffersOnResume(t: Tables, b: NodeId, c: NodeId)
    requires b !in t.joins && c !in t.joins && LexLeq(b, c) && b != c
    ensures NoneBlocked(t, StaticRouteTasks([c, b]), {})
    ensures LiveSchedule(t, StaticRouteTasks([c, b]), map[]) != Some(ResumeSchedule(t, StaticRouteTasks([c, b]), map[]))
  {
    hide LiveSchedule, ResumeSchedule, StaticRouteTasks, SortedIds, Merge, LexLeq, InPlace, LiveTasks;
    var none: TaskMap := map[];
    assert none.Keys == {};
    MergedNodes([c, b], none);
    ResumeAfterNodeExact(t, [c, b], none);
    OutOfPlace(b, c);
  }

  // ----- a join that is sent to twice -----

  /** The condition of b matches and asks for two tasks of the join. */
  const FIRST: Send := Send("j", "", "", "", "1")
  const SECOND: Send := Send("j", "", "", "", "2")

  const SEND_TWICE: nat -> Evaluation := i => Decided(RouteDecision(true, [], [FIRST, SECOND]))

  function Sending(send: Send, order: int): GraphTask {
    GraphTask(send.digest, send.target, send.input, send.correlationKey, send.orderKey, order, true, None)
  }

  /** A request that names its target and keys without spaces around them. */
  predicate PlainSend(g: Graph, send: Send) {
    && send.target in g.nodes && send.target != "" && Trimmed(send.target)
    && Trimmed(send.correlationKey) && Trimmed(send.orderKey)
  }

  lemma SendStep(g: Graph, sends: seq<Send>, last: Send)
    requires ResolveSends(g, sends).Some? && PlainSend(g, last)
    ensures ResolveSends(g, sends + [last]) == Some(ResolveSends(g, sends).value + [Sending(last, |sends|)])
  {
    hide TrimSpace;
    var all := sends + [last];
    assert all[..|all| - 1] == sends && all[|all| - 1] == last;
  }

  lemma TwoSends(g: Graph, a: Send, b: Send)
    requires PlainSend(g, a) && PlainSend(g, b)
    ensures ResolveSends(g, [a, b]) == Some([Sending(a, 0), Sending(b, 1)])
  {
    hide PlainSend, Sending, ResolveSends;
    NothingSent(g);
    SendStep(g, [], a);
    assert [] + [a] == [a] && [] + [Sending(a, 0)] == [Sending(a, 0)];
    SendStep(g, [a], b);
    assert [a] + [b] == [a, b] && [Sending(a, 0)] + [Sending(b, 1)] == [Sending(a, 0), Sending(b, 1)];
  }

  lemma DecidedSends(g: Graph, n: NodeId, edge: NodeId, a: Send, b: Send, evaluate: nat -> Evaluation)
    requires PlainSend(g, a) && PlainSend(g, b) && n in g.nodes && n != "" && Trimmed(n)
    requires n in g.conditionalEdges && g.conditionalEdges[n] == [edge]
    requires evaluate(0) == Decided(RouteDecision(true, [], [a, b]))
    ensures ResolveNextTasks(g, n, evaluate) == Routed(Renumber(SortTasks([Sending(a, 0), Sending(b, 1)])))
  {
    hide TrimSpace, SortTasks, ResolveSends, PlainSend, Sending, Renumber;
    TwoSends(g, a, b);
    assert RouteConditional(g, [edge], evaluate, 0) == Some(TasksFromDecision(g, edge, RouteDecision(true, [], [a, b])));
  }

  /** Two dynamic tasks for one join: the live run ends with an error, the resumed run executes both. */
  lemma TwiceTaken(t: Tables, a: GraphTask, b: GraphTask, parked: TaskMap)
    requires Keyed(parked) && parked.Keys <= t.joins
    requires a.dynamic && b.dynamic && a.nodeId == b.nodeId && a.nodeId in t.joins
    ensures var routed := Renumber(SortTasks([a, b]));
            var resumed := ResumeSchedule(t, routed, parked).ready;
            && LiveSchedule(t, routed, parked) == None
            && |resumed| >= 2 && resumed[|resumed| - 2].nodeId == resumed[|resumed| - 1].nodeId == a.nodeId
  {
    hide SortTasks, Merge, Listed, Blocked, NextTasksAllowed, ResumeNodes, LiveTasks, Dynamics;
    var sends := [a, b];
    var sorted, routed := SortTasks(sends), Renumber(SortTasks(sends));
    SortedSame(sends);
    assert sorted[0] in sorted && sorted[1] in sorted;
    assert routed[0].nodeId == a.nodeId && routed[1].nodeId == a.nodeId;
    SendsStayDynamic(sends);
    AllDynamic(routed);
    LiveSends(sends);
    assert !NextTasksAllowed(t, routed, parked.Keys) by { SharedJoinRefused(t, routed, parked.Keys); }
  }

  lemma SharedJoinRefused(t: Tables, tasks: seq<GraphTask>, parked: set<NodeId>)
    requires |tasks| == 2 && tasks[0].nodeId == tasks[1].nodeId && IsDynamicJoin(t, tasks[0])
    ensures !NextTasksAllowed(t, tasks, parked)
  {
    assert !StandsAlone(t, tasks, parked, 0);
  }

  lemma ForkSends()
    ensures ResolveNextTasks(FORK, "b", SEND_TWICE) == Routed(Renumber(SortTasks([Sending(FIRST, 0), Sending(SECOND, 1)])))
  {
    hide Trimmed, SortTasks, ResolveNextTasks, Renumber, Sending;
    IdsAreTrimmed();
    DecidedSends(FORK, "b", "j", FIRST, SECOND, SEND_TWICE);
  }

  /** The same run up to b, which now asks for j twice: the live run ends with an error, and the run resumed
      after b executes j more than once. */
  lemma JoinSentTwice() returns (run: seq<Schedule>)
    ensures Accepted(FORK) && Registered(FORK) && Compiled(FORK, FORK_TABLES)
    ensures IsRun(FORK, FORK_TABLES, run, [NO, NO]) && |run| == 3 && Wave(run[1]) == {"b"}
    ensures ResolveNextTasks(FORK, "b", SEND_TWICE).Routed?
    ensures var routed := ResolveNextTasks(FORK, "b", SEND_TWICE).tasks;
            var resumed := ResumeSchedule(FORK_TABLES, routed, run[1].parked).ready;
            && LiveSchedule(FORK_TABLES, routed, run[1].parked) == None
            && |resumed| >= 2 && resumed[|resumed| - 2].nodeId == resumed[|resumed| - 1].nodeId == "j"
  {
    hide ResolveNextTasks, ReadyNodes, Wave, RouteNodes, Accepted, Registered, Acyclic, Compiled, IsRun, ResumeSchedule, LiveSchedule,
      SortTasks, Renumber;
    ForkAccepted();
    ForkCompiled();
    ForkRouting();
    ForkWaves();
    run := ThreeWaves(FORK, FORK_TABLES, "a", "b", "j");
    ForkSends();
    TwiceTaken(FORK_TABLES, Sending(FIRST, 0), Sending(SECOND, 1), run[1].parked);
  }

  // ----- a route that is lost before a node -----

  /** b and c execute in one wave, b routes to d and c to the end. Stopped before c and resumed there, the
      run never executes d. */
  lemma SiblingLost(g: Graph, t: Tables, b: NodeId, c: GraphTask, d: NodeId, answers: Answers)
    requires Compiled(g, t) && b != c.nodeId && d != END
    requires RouteNodes(g, b, answers(b)) == {d} && RouteNodes(g, c.nodeId, answers(c.nodeId)) == {END}
    ensures ResumeSchedule(t, [c], map[]) == Schedule([c], map[])
    ensures var live := ScheduleNext(t, StaticTasks(SortedIds(NextTargets(g, {b, c.nodeId}, answers))), map[]);
            var resumed := ScheduleNext(t, StaticTasks(SortedIds(NextTargets(g, {c.nodeId}, answers))), map[]);
            Wave(live) == {d} && Wave(resumed) == {} && resumed.parked == map[]
  {
    hide ScheduleNext, ResumeSchedule, Wave, RouteNodes, Compiled, SortedIds, StaticTasks;
    var none: TaskMap := map[];
    assert none.Keys == {};
    ResumeBeforeNodeExact(t, c, none);
    assert NextTargets(g, {c.nodeId}, answers) == {END};
    assert NextTargets(g, {b, c.nodeId}, answers) == {d, END} by {
      assert d in RouteNodes(g, b, answers(b)) && END in RouteNodes(g, c.nodeId, answers(c.nodeId));
    }
    ScheduledNodes(t, {END}, none);
    ScheduledNodes(t, {d, END}, none);
    EndIsNoJoin(g, t);
    assert !Blocked(t, d, {d, END});
    assert ReadyNodes(t, {} + {d, END}) == {d, END} && ReadyNodes(t, {} + {END}) == {END};
    assert {d, END} - {END} == {d};
  }

  /** a starts b and c; b goes on to d, c ends. */
  const PAIR: Graph := Graph(
    {"a", "b", "c", "d"}, "a", "",
    map["a" := ["b", "c"], "b" := ["d"], "c" := [END], "d" := [END]],
    map[],
    map[])

  const PAIR_TABLES: Tables := Tables({}, map["a" := {"b", "c", "d"}, "b" := {"d"}, "c" := {}, "d" := {}])

  lemma PairEdges(x: NodeId, y: NodeId)
    ensures Edge(PAIR, x, y) <==> (x == "a" && (y == "b" || y == "c")) || (x == "b" && y == "d")
  {
    if x == "a" {
      assert Outgoing(PAIR, x) == ["b", "c"];
    } else if x == "b" {
      assert Outgoing(PAIR, x) == ["d"];
    } else if x == "c" || x == "d" {
      assert Outgoing(PAIR, x) == [END];
    }
  }

  lemma PairClosed(x: NodeId, y: NodeId)
    requires x in PAIR_TABLES.reach && Reaches(PAIR, x, y)
    ensures y in PAIR_TABLES.reach[x]
  {
    hide Edge;
    var row := PAIR_TABLES.reach[x];
    forall n, m | (n == x || n in row) && Edge(PAIR, n, m) ensures m in row {
      PairEdges(n, m);
    }
    var p :| PathBetween(PAIR, p, x, y);
    ClosedMarkingComplete(PAIR, x, row, p);
  }

  lemma PairReaches(x: NodeId, y: NodeId)
    requires x in PAIR_TABLES.reach
    ensures Reaches(PAIR, x, y) <==> y in PAIR_TABLES.reach[x]
  {
    hide Edge, Reaches;
    if Reaches(PAIR, x, y) {
      PairClosed(x, y);
    }
    if y in PAIR_TABLES.reach[x] {
      PairEdges("a", "b");
      PairEdges("b", "d");
      PairEdges(x, y);
      EdgeReaches(PAIR, "a", "b");
      EdgeReaches(PAIR, "b", "d");
      ReachesTransitive(PAIR, "a", "b", "d");
      if Edge(PAIR, x, y) {
        EdgeReaches(PAIR, x, y);
      }
    }
  }

  lemma PairCompiled()
    ensures Compiled(PAIR, PAIR_TABLES)
  {
    hide Reaches, Edge;
    forall x, y | x in PAIR_TABLES.reach ensures y in PAIR_TABLES.reach[x] <==> Reaches(PAIR, x, y) {
      PairReaches(x, y);
    }
    forall n ensures n in PAIR_TABLES.joins <==> IsJoin(PAIR, n) {
      if x, y :| x != y && Edge(PAIR, x, n) && Edge(PAIR, y, n) {
        PairEdges(x, n);
        PairEdges(y, n);
      }
    }
  }

  lemma PairRules()
    ensures EdgeRules(PAIR) && OutgoingRules(PAIR)
  {
    assert Outgoing(PAIR, "a") == ["b", "c"] && Outgoing(PAIR, "b") == ["d"];
    assert Outgoing(PAIR, "c") == [END] && Outgoing(PAIR, "d") == [END];
  }

  lemma PairConnected(n: NodeId)
    requires n in PAIR.nodes
    ensures FromEntry(PAIR, n) && ToEnd(PAIR, n)
  {
    PairRules();
    hide EdgeRules, OutgoingRules, WithFailures, Edge;
    assert AllTargets(PAIR, "a") == ["b", "c"] && AllTargets(PAIR, "b") == ["d"];
    assert AllTargets(PAIR, "c") == [END] && AllTargets(PAIR, "d") == [END];
    FailureEdge(PAIR, "a", "b");
    FailureEdge(PAIR, "a", "c");
    FailureEdge(PAIR, "b", "d");
    FromEntryStep(PAIR, "a", "b");
    FromEntryStep(PAIR, "a", "c");
    FromEntryStep(PAIR, "b", "d");
    assert ToTerminal(PAIR, "c", "c") && ToTerminal(PAIR, "d", "d");
    ToEndStep(PAIR, "b", "d");
    ToEndStep(PAIR, "a", "c");
  }

  lemma PairAcyclic()
    ensures Acyclic(PAIR)
  {
    hide Reaches, Edge;
    forall n ensures !Reaches(PAIR, n, n) {
      if Reaches(PAIR, n, n) {
        var y := FirstEdge(PAIR, n, n);
        PairEdges(n, y);
        PairReaches(n, n);
      }
    }
  }

  lemma PairAccepted()
    ensures Accepted(PAIR) && Registered(PAIR) && Acyclic(PAIR)
  {
    hide EdgeRules, OutgoingRules, Trimmed, FromEntry, ToEnd, Acyclic;
    PairRules();
    IdsAreTrimmed();
    PairAcyclic();
    forall n | n in PAIR.nodes ensures FromEntry(PAIR, n) && ToEnd(PAIR, n) {
      PairConnected(n);
    }
  }

  lemma PairRouting()
    ensures RouteNodes(PAIR, "a", ANSWER_NO) == {"b", "c"}
    ensures RouteNodes(PAIR, "b", ANSWER_NO) == {"d"}
    ensures RouteNodes(PAIR, "c", ANSWER_NO) == {END}
  {
    hide Trimmed, RouteNodes, ResolveNextTasks;
    IdsAreTrimmed();
    RouteByDefault(PAIR, "a", ["b", "c"]);
    RouteByDefault(PAIR, "b", ["d"]);
    RouteByDefault(PAIR, "c", [END]);
  }

  lemma AllReady(t: Tables, active: set<NodeId>)
    requires t.joins == {}
    ensures ReadyNodes(t, active) == active
  {
  }

  /** Two nodes in one wave, between the first and a last one. */
  lemma WaveOfTwo(g: Graph, t: Tables, a: NodeId, b: NodeId, c: NodeId, d: NodeId) returns (run: seq<Schedule>)
    requires g.entry == a && END !in {a, b, c, d} && t.joins == {}
    requires RouteNodes(g, a, ANSWER_NO) == {b, c} && RouteNodes(g, b, ANSWER_NO) == {d} && RouteNodes(g, c, ANSWER_NO) == {END}
    ensures IsRun(g, t, run, [NO, NO]) && |run| == 3
    ensures Wave(run[1]) == {b, c} && run[1].parked == map[] && Wave(run[2]) == {d}
  {
    hide Wave, ReadyNodes, RouteNodes, IsRun, Start, Keyed, NextTargets, ScheduleNext;
    FirstWave(g, t);
    var first := [Start(t, g)];
    assert first[0].parked.Keys + {b, c} == {b, c};
    AllReady(t, {b, c});
    var second := GoOn(g, t, first, [], a, {b, c}, {b, c}, {b, c});
    assert {b, c} - {END} == {b, c} && {d, END} - {END} == {d} && [] + [NO] == [NO] && [NO] + [NO] == [NO, NO];
    assert second[1].parked.Keys == {};
    TargetsOfTwo(g, b, c);
    assert {d} + {END} == {d, END} && {} + {d, END} == {d, END};
    AllReady(t, {d, END});
    var next := OneMoreWave(g, t, second, [NO], {d, END});
    run := second + [next];
  }

  /** The run executes b and c in its second wave and d in its third. Stopped before c, when b has finished,
      and resumed from there it executes c and is done: d never executes. */
  lemma SiblingLostOnResume() returns (run: seq<Schedule>, i: nat)
    ensures Accepted(PAIR) && Registered(PAIR) && Acyclic(PAIR) && Compiled(PAIR, PAIR_TABLES)
    ensures IsRun(PAIR, PAIR_TABLES, run, [NO, NO]) && |run| == 3
    ensures Wave(run[1]) == {"b", "c"} && Wave(run[2]) == {"d"} && i < |run[1].ready| && run[1].ready[i].nodeId == "c"
    ensures var resumed := ResumeSchedule(PAIR_TABLES, [run[1].ready[i]], run[1].parked);
            && Wave(resumed) == {"c"}
            && exists s :: WaveStep(PAIR, PAIR_TABLES, resumed, s, NO) && Wave(s) == {} && s.parked == map[]
  {
    hide ReadyNodes, RouteNodes, Accepted, Registered, Acyclic, Compiled, IsRun, ScheduleNext, ResumeSchedule, NextTargets,
      StaticTasks, SortedIds, PlainAnswers, Wave;
    PairAccepted();
    PairCompiled();
    PairRouting();
    run := WaveOfTwo(PAIR, PAIR_TABLES, "a", "b", "c", "d");
    i := TaskOf(run[1], "c");
    var task := run[1].ready[i];
    SiblingLost(PAIR, PAIR_TABLES, "b", task, "d", NO);
    var resumed := ResumeSchedule(PAIR_TABLES, [task], run[1].parked);
    WaveOfOne(task);
    PlainNo();
    var s := ScheduleNext(PAIR_TABLES, StaticTasks(SortedIds(NextTargets(PAIR, {"c"}, NO))), map[]);
    assert WaveStep(PAIR, PAIR_TABLES, resumed, s, NO);
  }

  lemma TaskOf(s: Schedule, n: NodeId) returns (i: nat)
    requires n in Wave(s)
    ensures i < |s.ready| && s.ready[i].nodeId == n
  {
    i :| 0 <= i < |s.ready| && s.ready[i].nodeId == n;
  }

  lemma WaveOfOne(task: GraphTask)
    requires task.nodeId != END
    ensures Wave(Schedule([task], map[])) == {task.nodeId}
  {
    assert [task][0].nodeId == task.nodeId;
  }
}
