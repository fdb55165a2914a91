/** Graph validation: the edge rules, the two reachability searches, and what acceptance means. */
module Validation {
  import opened Text
  import opened Topology

  /** Default, conditional and failure edges together. */
  function AllTargets(g: Graph, n: NodeId): seq<NodeId> {
    Outgoing(g, n) + Targets(g.failureRoutes, n)
  }

  /** The graph with its failure routes read as ordinary edges. */
  function WithFailures(g: Graph): Graph {
    g.(defaultEdges := map n | n in g.nodes :: AllTargets(g, n), conditionalEdges := map[])
  }

  predicate KnownTargets(g: Graph, edges: map<NodeId, seq<NodeId>>) {
    forall n | n in edges :: n in g.nodes && forall t | t in edges[n] :: t == END || t in g.nodes
  }

  /** The rules checked edge by edge. */
  predicate EdgeRules(g: Graph) {
    && g.nodes != {}
    && g.entry != "" && g.entry in g.nodes
    && (g.finish == "" || g.finish in g.nodes)
    && KnownTargets(g, g.defaultEdges)
    && (forall n | n in g.defaultEdges :: Distinct(g.defaultEdges[n]))
    && (forall n | n in g.conditionalEdges ::
          && |Targets(g.defaultEdges, n)| <= 1
          && (|Targets(g.defaultEdges, n)| == 0 ==> n == g.finish))
    && KnownTargets(g, g.failureRoutes)
    && KnownTargets(g, g.conditionalEdges)
  }

  /** The finish point has no outgoing edge and every other node has one. */
  predicate OutgoingRules(g: Graph) {
    && (g.finish != "" ==> Outgoing(g, g.finish) == [])
    && (forall n | n in g.nodes && n != g.finish :: Outgoing(g, n) != [])
  }

  /** A node that can end the run itself: the finish point, or an edge to the end. */
  predicate Terminal(g: Graph, n: NodeId) {
    n in g.nodes && n != "" && n != END && (n == g.finish || END in AllTargets(g, n))
  }

  ghost predicate FromEntry(g: Graph, n: NodeId) {
    n == g.entry || Reaches(WithFailures(g), g.entry, n)
  }

  ghost predicate ToTerminal(g: Graph, n: NodeId, m: NodeId) {
    Terminal(g, m) && (n == m || Reaches(WithFailures(g), n, m))
  }

  ghost predicate ToEnd(g: Graph, n: NodeId) {
    exists m :: ToTerminal(g, n, m)
  }

  /** What Validate accepts, apart from policies, condition specs and state contracts. */
  ghost predicate Accepted(g: Graph) {
    && EdgeRules(g)
    && OutgoingRules(g)
    && forall n :: n in g.nodes ==> FromEntry(g, n) && ToEnd(g, n)
  }

  lemma FailureEdge(g: Graph, a: NodeId, b: NodeId)
    requires EdgeRules(g)
    ensures Edge(WithFailures(g), a, b) <==> b != END && b in AllTargets(g, a)
    ensures Edge(WithFailures(g), a, b) ==> a in g.nodes && b in g.nodes
  {
  }

  lemma FromEntryStep(g: Graph, a: NodeId, b: NodeId)
    requires FromEntry(g, a) && Edge(WithFailures(g), a, b)
    ensures FromEntry(g, b)
  {
    var w := WithFailures(g);
    EdgeReaches(w, a, b);
    if a != g.entry { ReachesTransitive(w, g.entry, a, b); }
  }

  /** Queues the targets of one node that are not marked yet. */
  method QueueTargets(g: Graph, n: NodeId, marked: set<NodeId>, rest: seq<NodeId>) returns (queue: seq<NodeId>)
    requires EdgeRules(g)
    ensures forall x :: x in rest ==> x in queue
    ensures forall x :: x in queue ==> x in rest || Edge(WithFailures(g), n, x)
    ensures forall t :: Edge(WithFailures(g), n, t) ==> t in marked || t in queue
  {
    hide EdgeRules, AllTargets, WithFailures;
    queue := rest;
    var targets := AllTargets(g, n);
    for i := 0 to |targets|
      invariant forall x :: x in rest ==> x in queue
      invariant forall x :: x in queue ==> x in rest || Edge(WithFailures(g), n, x)
      invariant forall j :: 0 <= j < i && targets[j] != END && targets[j] in g.nodes ==> targets[j] in marked || targets[j] in queue
    {
      FailureEdge(g, n, targets[i]);
      if targets[i] != END && targets[i] in g.nodes && targets[i] !in marked {
        queue := queue + [targets[i]];
      }
    }
    forall t | Edge(WithFailures(g), n, t) ensures t in marked || t in queue {
      FailureEdge(g, n, t);
    }
  }

  /** reachableNodes: a node is marked when it leaves the queue. */
  method ReachableNodes(g: Graph) returns (reachable: set<NodeId>)
    requires EdgeRules(g)
    ensures forall n :: n in reachable <==> FromEntry(g, n)
  {
    hide EdgeRules, AllTargets, Edge, FromEntry;
    EntryIsKnown(g);
    reachable := {};
    var queue := [g.entry];
    var w := WithFailures(g);
    while |queue| > 0
      invariant reachable <= g.nodes
      invariant forall n :: n in queue || n in reachable ==> n in g.nodes && FromEntry(g, n)
      invariant g.entry in queue || g.entry in reachable
      invariant forall n, t :: n in reachable && Edge(w, n, t) ==> t in reachable || t in queue
      decreases g.nodes - reachable, |queue|
    {
      var n := queue[0];
      ghost var before := queue;
      queue := queue[1..];
      assert forall x :: x in before ==> x == n || x in queue;
      if n !in reachable {
        reachable := reachable + {n};
        ghost var rest := queue;
        queue := QueueTargets(g, n, reachable, queue);
        forall x | x in queue ensures x in g.nodes && FromEntry(g, x) {
          if x !in rest {
            FailureEdge(g, n, x);
            FromEntryStep(g, n, x);
          }
        }
      }
    }
    forall n | FromEntry(g, n) ensures n in reachable {
      MarkedFromEntry(g, reachable, n);
    }
  }

  lemma EntryIsKnown(g: Graph)
    requires EdgeRules(g)
    ensures g.entry in g.nodes && FromEntry(g, g.entry)
  {
  }

  lemma MarkedFromEntry(g: Graph, marked: set<NodeId>, n: NodeId)
    requires g.entry in marked && FromEntry(g, n)
    requires forall a, b :: a in marked && Edge(WithFailures(g), a, b) ==> b in marked
    ensures n in marked
  {
    var w := WithFailures(g);
    if n != g.entry {
      var p :| PathBetween(w, p, g.entry, n);
      ClosedMarkingComplete(w, g.entry, marked, p);
    }
  }

  lemma ToEndStep(g: Graph, a: NodeId, b: NodeId)
    requires ToEnd(g, b) && Edge(WithFailures(g), a, b)
    ensures ToEnd(g, a)
  {
    var m :| ToTerminal(g, b, m);
    EdgeReaches(WithFailures(g), a, b);
    if b != m { ReachesTransitive(WithFailures(g), a, b, m); }
    assert ToTerminal(g, a, m);
  }

  /** A set that contains the end of a path and is closed under predecessors contains its start. */
  lemma {:induction false} BackwardComplete(w: Graph, marked: set<NodeId>, p: seq<NodeId>)
    requires IsPath(w, p) && p[|p| - 1] in marked
    requires forall a, b :: b in marked && Edge(w, a, b) ==> a in marked
    ensures p[0] in marked
  {
    assert Edge(w, p[|p| - 2], p[|p| - 1]);
    if |p| > 2 {
      BackwardComplete(w, marked, p[..|p| - 1]);
    }
  }

  lemma ClosedUnderPredecessors(g: Graph, marked: set<NodeId>, n: NodeId)
    requires forall m :: m in g.nodes && Terminal(g, m) ==> m in marked
    requires forall a, b :: b in marked && Edge(WithFailures(g), a, b) ==> a in marked
    requires ToEnd(g, n)
    ensures n in marked
  {
    var m :| ToTerminal(g, n, m);
    if n != m {
      var p :| PathBetween(WithFailures(g), p, n, m);
      BackwardComplete(WithFailures(g), marked, p);
    }
  }

  method Terminals(g: Graph) returns (terminals: set<NodeId>)
    ensures forall n :: n in terminals <==> n in g.nodes && Terminal(g, n)
    ensures forall n :: n in terminals ==> ToEnd(g, n)
  {
    terminals := set n | n in g.nodes && Terminal(g, n);
    forall n | n in terminals ensures ToEnd(g, n) {
      assert ToTerminal(g, n, n);
    }
  }

  /** `reverse` lists exactly the sources of the edges in `edges` that do not go to the end. */
  ghost predicate Lists(reverse: map<NodeId, set<NodeId>>, t: NodeId, a: NodeId) {
    t in reverse && a in reverse[t]
  }

  ghost predicate HasTarget(edges: map<NodeId, seq<NodeId>>, a: NodeId, t: NodeId) {
    t != END && a in edges && t in edges[a]
  }

  lemma EdgeIsListed(g: Graph, a: NodeId, b: NodeId)
    requires EdgeRules(g)
    ensures Edge(WithFailures(g), a, b)
            <==> HasTarget(g.defaultEdges, a, b) || HasTarget(g.conditionalEdges, a, b) || HasTarget(g.failureRoutes, a, b)
  {
    FailureEdge(g, a, b);
  }

  method ReverseEdges(g: Graph) returns (reverse: map<NodeId, set<NodeId>>)
    requires EdgeRules(g)
    ensures forall a, b :: Edge(WithFailures(g), a, b) <==> b in reverse && a in reverse[b]
  {
    hide EdgeRules, WithFailures, Edge;
    var first := AddIncoming(g.defaultEdges, map[]);
    assert forall t, a :: Lists(first, t, a) <==> HasTarget(g.defaultEdges, a, t);
    var second := AddIncoming(g.conditionalEdges, first);
    assert forall t, a :: Lists(second, t, a) <==> Lists(first, t, a) || HasTarget(g.conditionalEdges, a, t);
    reverse := AddIncoming(g.failureRoutes, second);
    assert forall t, a :: Lists(reverse, t, a) <==> Lists(second, t, a) || HasTarget(g.failureRoutes, a, t);
    forall a, b ensures Edge(WithFailures(g), a, b) <==> b in reverse && a in reverse[b] {
      EdgeIsListed(g, a, b);
      assert Lists(reverse, b, a) <==> b in reverse && a in reverse[b];
    }
  }

  /** Marks the predecessors of one node and queues the new ones. */
  method MarkPredecessors(sources: set<NodeId>, marked: set<NodeId>, rest: seq<NodeId>)
    returns (reachable: set<NodeId>, queue: seq<NodeId>)
    ensures reachable == marked + sources
    ensures forall x :: x in queue <==> x in rest || (x in sources && x !in marked)
    ensures reachable == marked ==> queue == rest
  {
    reachable, queue := marked, rest;
    var todo := sources;
    while todo != {}
      invariant todo <= sources && reachable == marked + (sources - todo)
      invariant forall x :: x in queue <==> x in rest || (x in sources && x !in todo && x !in marked)
      invariant reachable == marked ==> queue == rest
      decreases todo
    {
      var a :| a in todo;
      todo := todo - {a};
      if a !in reachable {
        reachable := reachable + {a};
        queue := queue + [a];
      }
    }
  }

  /** terminalReachableNodes: the search over reversed edges. */
  method TerminalReachableNodes(g: Graph) returns (reachable: set<NodeId>)
    requires EdgeRules(g)
    ensures forall n :: n in reachable <==> ToEnd(g, n)
  {
    hide WithFailures, EdgeRules, Edge, ToEnd, Terminal;
    ghost var w := WithFailures(g);
    var reverse := ReverseEdges(g);
    reachable := Terminals(g);
    var queue := SortedIds(reachable);
    while |queue| > 0
      invariant reachable <= g.nodes
      invariant forall n :: n in g.nodes && Terminal(g, n) ==> n in reachable
      invariant forall n :: n in queue ==> n in reachable
      invariant forall n :: n in reachable ==> ToEnd(g, n)
      invariant forall a, b :: b in reachable && b !in queue && Edge(w, a, b) ==> a in reachable
      decreases g.nodes - reachable, |queue|
    {
      var n := queue[0];
      var rest := queue[1..];
      assert forall x :: x in queue ==> x == n || x in rest;
      var sources := if n in reverse then reverse[n] else {};
      forall a | a in sources ensures a in g.nodes && ToEnd(g, a) {
        assert Edge(w, a, n);
        FailureEdge(g, a, n);
        ToEndStep(g, a, n);
      }
      reachable, queue := MarkPredecessors(sources, reachable, rest);
    }
    forall n | ToEnd(g, n) ensures n in reachable {
      ClosedUnderPredecessors(g, reachable, n);
    }
  }

  // ----- what it means to lie between the entry and the end -----

  /** One step along an edge of any of the three kinds. */
  ghost predicate StepsTo(g: Graph, a: NodeId, b: NodeId) {
    b != END && (HasTarget(g.defaultEdges, a, b) || HasTarget(g.conditionalEdges, a, b) || HasTarget(g.failureRoutes, a, b))
  }

  ghost predicate Walks(g: Graph, p: seq<NodeId>) {
    p != [] && forall i, j :: 0 <= i && j == i + 1 && j < |p| ==> StepsTo(g, p[i], p[j])
  }

  /** The run can end at the node: it is the finish point, or an edge of some kind leads to the end. */
  ghost predicate CanEndAt(g: Graph, n: NodeId) {
    || n == g.finish
    || (n in g.defaultEdges && END in g.defaultEdges[n]) || (n in g.conditionalEdges && END in g.conditionalEdges[n])
    || (n in g.failureRoutes && END in g.failureRoutes[n])
  }

  ghost predicate WalksBetween(g: Graph, p: seq<NodeId>, a: NodeId, b: NodeId) {
    Walks(g, p) && p[0] == a && p[|p| - 1] == b
  }

  lemma ReachIsWalk(g: Graph, a: NodeId, b: NodeId) returns (p: seq<NodeId>)
    requires EdgeRules(g) && (a == b || Reaches(WithFailures(g), a, b))
    ensures WalksBetween(g, p, a, b)
  {
    hide EdgeRules, WithFailures, Edge;
    if a == b {
      p := [a];
    } else {
      p :| PathBetween(WithFailures(g), p, a, b);
      forall i, j | 0 <= i && j == i + 1 && j < |p| ensures StepsTo(g, p[i], p[j]) {
        assert Edge(WithFailures(g), p[i], p[j]);
        EdgeIsListed(g, p[i], p[j]);
      }
    }
  }

  lemma WalkIsReach(g: Graph, p: seq<NodeId>, a: NodeId, b: NodeId)
    requires EdgeRules(g) && WalksBetween(g, p, a, b)
    ensures a == b || Reaches(WithFailures(g), a, b)
    ensures a in g.nodes ==> b in g.nodes
  {
    hide EdgeRules, WithFailures, Edge;
    if |p| > 1 {
      forall i, j | 0 <= i && j == i + 1 && j < |p| ensures Edge(WithFailures(g), p[i], p[j]) {
        assert StepsTo(g, p[i], p[j]);
        EdgeIsListed(g, p[i], p[j]);
      }
      assert PathBetween(WithFailures(g), p, a, b);
      var i, j := |p| - 2, |p| - 1;
      assert Edge(WithFailures(g), p[i], p[j]);
      FailureEdge(g, p[i], p[j]);
    }
  }

  /** A walk from the node to one at which the run can end. */
  ghost predicate EndsAfter(g: Graph, p: seq<NodeId>, n: NodeId) {
    Walks(g, p) && p[0] == n && CanEndAt(g, p[|p| - 1]) && p[|p| - 1] != "" && p[|p| - 1] != END
  }

  ghost predicate LiesBetween(g: Graph, n: NodeId) {
    (exists p :: WalksBetween(g, p, g.entry, n)) && (exists p :: EndsAfter(g, p, n))
  }

  lemma TerminalIs(g: Graph, m: NodeId)
    ensures Terminal(g, m) <==> m in g.nodes && m != "" && m != END && CanEndAt(g, m)
  {
  }

  lemma BetweenIs(g: Graph, n: NodeId)
    requires EdgeRules(g) && n in g.nodes
    ensures FromEntry(g, n) && ToEnd(g, n) <==> LiesBetween(g, n)
  {
    hide EdgeRules, WithFailures, Edge, Terminal, CanEndAt, Walks;
    if FromEntry(g, n) && ToEnd(g, n) {
      var before := ReachIsWalk(g, g.entry, n);
      var m :| ToTerminal(g, n, m);
      var after := ReachIsWalk(g, n, m);
      TerminalIs(g, m);
      assert EndsAfter(g, after, n);
    }
    if LiesBetween(g, n) {
      var before :| WalksBetween(g, before, g.entry, n);
      WalkIsReach(g, before, g.entry, n);
      var after :| EndsAfter(g, after, n);
      WalkNotEmpty(g, after);
      var m := after[|after| - 1];
      WalkIsReach(g, after, n, m);
      TerminalIs(g, m);
      assert ToTerminal(g, n, m);
    }
  }

  lemma WalkNotEmpty(g: Graph, p: seq<NodeId>)
    requires Walks(g, p)
    ensures p != []
  {
  }

  /** Accepted are exactly the graphs that keep the rules and whose every node lies on a walk from the entry
      to a node at which the run can end. */
  lemma AcceptedExactly(g: Graph)
    ensures Accepted(g) <==> EdgeRules(g) && OutgoingRules(g) && forall n :: n in g.nodes ==> LiesBetween(g, n)
  {
    hide EdgeRules, OutgoingRules, FromEntry, ToEnd, LiesBetween;
    if EdgeRules(g) {
      forall n | n in g.nodes ensures FromEntry(g, n) && ToEnd(g, n) <==> LiesBetween(g, n) {
        BetweenIs(g, n);
      }
    }
  }

  // ----- the rules edge by edge -----

  /** The targets of one node: known and, where that is asked for, each named once. */
  method CheckTargets(g: Graph, targets: seq<NodeId>, once: bool) returns (ok: bool)
    ensures ok <==> (forall i :: 0 <= i < |targets| ==> targets[i] == END || targets[i] in g.nodes) && (once ==> Distinct(targets))
  {
    var seen: set<NodeId> := {};
    for i := 0 to |targets|
      invariant forall j :: 0 <= j < i ==> targets[j] == END || targets[j] in g.nodes
      invariant forall t :: t in seen <==> exists j :: 0 <= j < i && targets[j] == t
      invariant once ==> Distinct(targets[..i])
    {
      if once && targets[i] in seen {
        return false;
      }
      seen := seen + {targets[i]};
      if targets[i] != END && targets[i] !in g.nodes {
        return false;
      }
    }
    assert targets[..|targets|] == targets;
    ok := true;
  }

  method CheckEdges(g: Graph, edges: map<NodeId, seq<NodeId>>, once: bool) returns (ok: bool)
    ensures ok <==> KnownTargets(g, edges) && (once ==> forall n :: n in edges ==> Distinct(edges[n]))
  {
    hide Distinct;
    var sources := SortedIds(edges.Keys);
    for i := 0 to |sources|
      invariant forall j :: 0 <= j < i ==>
                  && sources[j] in g.nodes && (forall t :: t in edges[sources[j]] ==> t == END || t in g.nodes)
                  && (once ==> Distinct(edges[sources[j]]))
    {
      var n := sources[i];
      assert n in edges;
      if n !in g.nodes {
        return false;
      }
      var fine := CheckTargets(g, edges[n], once);
      if !fine {
        return false;
      }
    }
    assert forall n :: n in edges ==> n in sources;
    ok := true;
  }

  /** A node with conditions has one default edge to fall back on, or is the finish point and has none. */
  method CheckFallbacks(g: Graph) returns (ok: bool)
    ensures ok <==> forall n :: n in g.conditionalEdges ==>
                      var fallback := Targets(g.defaultEdges, n); |fallback| == 1 || (fallback == [] && n == g.finish)
  {
    var sources := SortedIds(g.conditionalEdges.Keys);
    for i := 0 to |sources|
      invariant forall j :: 0 <= j < i ==>
                  var fallback := Targets(g.defaultEdges, sources[j]); |fallback| == 1 || (fallback == [] && sources[j] == g.finish)
    {
      var count := |Targets(g.defaultEdges, sources[i])|;
      if count > 1 || (count == 0 && sources[i] != g.finish) {
        assert sources[i] in g.conditionalEdges;
        return false;
      }
    }
    assert forall n :: n in g.conditionalEdges ==> n in sources;
    ok := true;
  }

  method CheckEdgeRules(g: Graph) returns (ok: bool)
    ensures ok <==> EdgeRules(g)
  {
    hide KnownTargets, Distinct;
    if g.nodes == {} || g.entry == "" || g.entry !in g.nodes || (g.finish != "" && g.finish !in g.nodes) {
      return false;
    }
    ok := CheckEdges(g, g.defaultEdges, true);
    if !ok {
      return;
    }
    ok := CheckFallbacks(g);
    if !ok {
      return;
    }
    ok := CheckEdges(g, g.failureRoutes, false);
    if !ok {
      return;
    }
    ok := CheckEdges(g, g.conditionalEdges, false);
  }

  method CheckOutgoing(g: Graph) returns (ok: bool)
    ensures ok <==> OutgoingRules(g)
  {
    if g.finish != "" && (|Targets(g.defaultEdges, g.finish)| > 0 || |Targets(g.conditionalEdges, g.finish)| > 0) {
      return false;
    }
    var nodes := SortedIds(g.nodes);
    for i := 0 to |nodes|
      invariant forall j :: 0 <= j < i && nodes[j] != g.finish ==> Outgoing(g, nodes[j]) != []
    {
      var n := nodes[i];
      if n != g.finish && |Targets(g.defaultEdges, n)| == 0 && |Targets(g.conditionalEdges, n)| == 0 {
        assert n in g.nodes && Outgoing(g, n) == [];
        return false;
      }
    }
    assert forall n :: n in g.nodes ==> n in nodes;
    ok := true;
  }

  /** Validate's structural part accepts exactly the graphs whose edges obey the rules and whose
      every node lies between the entry and an end. */
  method Validate(g: Graph) returns (ok: bool)
    ensures ok <==> Accepted(g)
  {
    var rules := CheckEdgeRules(g);
    if !rules {
      return false;
    }
    var reachable := ReachableNodes(g);
    if !(g.nodes <= reachable) {
      var n :| n in g.nodes && n !in reachable;
      return false;
    }
    var outgoing := CheckOutgoing(g);
    if !outgoing {
      return false;
    }
    var terminal := TerminalReachableNodes(g);
    ok := g.nodes <= terminal;
    if !ok {
      var n :| n in g.nodes && n !in terminal;
    }
  }
}
