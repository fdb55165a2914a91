/** Graph topology: edges, paths, the reachability table the scheduler compiles and the
    strict "upstream" order derived from it. */
module Topology {

  type NodeId = string

  /** The internal identifier every edge to the end of the graph points at. */
  const END: NodeId := "END"

  /** A graph as the scheduler sees it. A conditional edge is represented by its target: its
      condition is evaluated outside and enters routing as a decision. */
  datatype Graph = Graph(
    nodes: set<NodeId>,
    entry: NodeId,
    finish: NodeId,
    defaultEdges: map<NodeId, seq<NodeId>>,
    conditionalEdges: map<NodeId, seq<NodeId>>,
    failureRoutes: map<NodeId, seq<NodeId>>)

  function Targets(edges: map<NodeId, seq<NodeId>>, n: NodeId): seq<NodeId> {
    if n in edges then edges[n] else []
  }

  /** Targets of the default and conditional edges of a node; failure routes are not included. */
  function Outgoing(g: Graph, n: NodeId): seq<NodeId> {
    Targets(g.defaultEdges, n) + Targets(g.conditionalEdges, n)
  }

  // ----- reachability by paths -----

  predicate Edge(g: Graph, a: NodeId, b: NodeId) {
    b in Outgoing(g, a) && b != END
  }

  /** A non-empty path of default or conditional edges that never steps on END. */
  ghost predicate IsPath(g: Graph, p: seq<NodeId>) {
    && |p| >= 2
    && forall i, j :: 0 <= i && j == i + 1 && j < |p| ==> Edge(g, p[i], p[j])
  }

  ghost predicate PathBetween(g: Graph, p: seq<NodeId>, a: NodeId, b: NodeId) {
    IsPath(g, p) && p[0] == a && p[|p| - 1] == b
  }

  ghost predicate Reaches(g: Graph, a: NodeId, b: NodeId) {
    exists p :: PathBetween(g, p, a, b)
  }

  lemma EdgeReaches(g: Graph, a: NodeId, b: NodeId)
    requires Edge(g, a, b)
    ensures Reaches(g, a, b)
  {
    assert PathBetween(g, [a, b], a, b);
  }

  lemma ReachesTransitive(g: Graph, a: NodeId, b: NodeId, c: NodeId)
    requires Reaches(g, a, b) && Reaches(g, b, c)
    ensures Reaches(g, a, c)
  {
    var p :| PathBetween(g, p, a, b);
    var q :| PathBetween(g, q, b, c);
    var r := p + q[1..];
    forall i, j | 0 <= i && j == i + 1 && j < |r|
      ensures Edge(g, r[i], r[j])
    {
      if i >= |p| - 1 {
        assert r[j] == q[i - |p| + 2] && r[i] == q[i - |p| + 1];
      }
    }
    assert PathBetween(g, r, a, c);
  }

  /** Splitting the last edge off a path. */
  lemma LastEdge(g: Graph, a: NodeId, b: NodeId) returns (m: NodeId)
    requires Reaches(g, a, b)
    ensures Edge(g, m, b) && (m == a || Reaches(g, a, m))
  {
    var p :| PathBetween(g, p, a, b);
    m := p[|p| - 2];
    assert Edge(g, p[|p| - 2], p[|p| - 1]);
    if |p| > 2 {
      assert PathBetween(g, p[..|p| - 1], a, m);
    }
  }

  // ----- the breadth-first search -----

  /** A set that contains every node the search can ever mark. */
  ghost function EdgeTargets(g: Graph): set<NodeId> {
    (set n, t | n in g.defaultEdges && t in g.defaultEdges[n] :: t)
    + (set n, t | n in g.conditionalEdges && t in g.conditionalEdges[n] :: t)
  }

  /** Everything already expanded has all its successors marked. */
  ghost predicate Expanded(g: Graph, n: NodeId, marked: set<NodeId>) {
    forall t :: Edge(g, n, t) ==> t in marked
  }

  /** A marking that is closed under edges holds every node a path leads to. */
  lemma {:induction false} ClosedMarkingComplete(g: Graph, source: NodeId, marked: set<NodeId>, p: seq<NodeId>)
    requires Expanded(g, source, marked)
    requires forall n :: n in marked ==> Expanded(g, n, marked)
    requires IsPath(g, p) && p[0] == source
    ensures p[|p| - 1] in marked
  {
    if |p| > 2 {
      var q := p[..|p| - 1];
      ClosedMarkingComplete(g, source, marked, q);
      assert p[|p| - 2] in marked;
    }
    assert Edge(g, p[|p| - 2], p[|p| - 1]);
  }

  /** One source's search. The marked set is exactly what a non-empty path reaches; on a cycle
      that includes the source itself. */
  method ReachableFrom(g: Graph, source: NodeId) returns (reachable: set<NodeId>)
    ensures forall n :: n in reachable <==> Reaches(g, source, n)
  {
    reachable := {};
    var queue := [source];
    while |queue| > 0
      invariant reachable <= EdgeTargets(g)
      invariant forall n :: n in reachable ==> Reaches(g, source, n)
      invariant forall n :: n in queue ==> n == source || n in reachable
      invariant forall n :: (n == source || n in reachable) && n !in queue ==> Expanded(g, n, reachable)
      decreases EdgeTargets(g) - reachable, |queue|
    {
      var current := queue[0];
      ghost var before := queue;
      ghost var marked := reachable;
      queue := queue[1..];
      var targets := Outgoing(g, current);
      for i := 0 to |targets|
        invariant marked <= reachable <= EdgeTargets(g)
        invariant forall n :: n in reachable ==> Reaches(g, source, n)
        invariant forall n :: n in queue ==> n == source || n in reachable
        invariant forall n :: n in before ==> n == current || n in queue
        invariant forall n :: n in reachable && n !in marked ==> n in queue
        invariant forall j :: 0 <= j < i && targets[j] != END ==> targets[j] in reachable
        invariant reachable == marked ==> queue == before[1..]
      {
        var t := targets[i];
        if t != END && t !in reachable {
          EdgeReaches(g, current, t);
          if current != source { ReachesTransitive(g, source, current, t); }
          reachable := reachable + {t};
          queue := queue + [t];
        }
      }
      assert Expanded(g, current, reachable);
    }
    forall n | Reaches(g, source, n) ensures n in reachable {
      var p :| PathBetween(g, p, source, n);
      ClosedMarkingComplete(g, source, reachable, p);
    }
  }

  /** The table has one row per registered node and each row is that node's reachable set. */
  ghost predicate TableExact(g: Graph, table: map<NodeId, set<NodeId>>) {
    && table.Keys == g.nodes
    && forall a, b :: a in table ==> (b in table[a] <==> Reaches(g, a, b))
  }

  method CompileReachability(g: Graph) returns (table: map<NodeId, set<NodeId>>)
    ensures TableExact(g, table)
  {
    table := map[];
    var todo := g.nodes;
    while todo != {}
      invariant todo <= g.nodes && table.Keys == g.nodes - todo
      invariant forall a, b :: a in table ==> (b in table[a] <==> Reaches(g, a, b))
      decreases todo
    {
      var n :| n in todo;
      var row := ReachableFrom(g, n);
      table := table[n := row];
      todo := todo - {n};
    }
  }

  // ----- joins -----

  /** A join has at least two distinct predecessors by default or conditional edges. */
  ghost predicate IsJoin(g: Graph, n: NodeId) {
    exists a, b :: a != b && Edge(g, a, n) && Edge(g, b, n)
  }

  method AddIncoming(edges: map<NodeId, seq<NodeId>>, before: map<NodeId, set<NodeId>>)
    returns (incoming: map<NodeId, set<NodeId>>)
    requires END !in before
    ensures END !in incoming
    ensures forall t, a :: t in incoming && a in incoming[t]
              <==> (t in before && a in before[t]) || (t != END && a in edges && t in edges[a])
  {
    incoming := before;
    var todo := edges.Keys;
    while todo != {}
      invariant todo <= edges.Keys && END !in incoming
      invariant forall t, a :: t in incoming && a in incoming[t]
                  <==> (t in before && a in before[t]) || (t != END && a in edges && a !in todo && t in edges[a])
      decreases todo
    {
      var from :| from in todo;
      todo := todo - {from};
      var targets := edges[from];
      for i := 0 to |targets|
        invariant END !in incoming
        invariant forall t, a :: t in incoming && a in incoming[t]
                    <==> (t in before && a in before[t])
                         || (t != END && a in edges && a !in todo && a != from && t in edges[a])
                         || (t != END && a == from && t in targets[..i])
      {
        var t := targets[i];
        if t != END {
          incoming := incoming[t := (if t in incoming then incoming[t] else {}) + {from}];
        }
      }
      assert targets[..|targets|] == targets;
    }
  }

  method CompileJoinNodes(g: Graph) returns (joins: set<NodeId>)
    ensures forall n :: n in joins <==> IsJoin(g, n)
  {
    var incoming := AddIncoming(g.defaultEdges, map[]);
    incoming := AddIncoming(g.conditionalEdges, incoming);
    assert forall t, a :: t in incoming && a in incoming[t] <==> Edge(g, a, t);
    joins := set n | n in incoming && |incoming[n]| > 1;
    forall n ensures n in joins <==> IsJoin(g, n) {
      if n in incoming {
        TwoMembers(incoming[n]);
      }
    }
  }

  lemma TwoMembers<T>(s: set<T>)
    ensures |s| > 1 <==> exists a, b :: a in s && b in s && a != b
  {
    if |s| > 1 {
      var a :| a in s;
      assert |s - {a}| > 0;
      var b :| b in s - {a};
      assert a in s && b in s && a != b;
    }
    if a, b :| a in s && b in s && a != b {
      assert {a, b} <= s;
      assert |s - {a, b}| == |s| - 2;
    }
  }

  // ----- the strict upstream order -----

  /** isStrictUpstream: a leads to target and target does not lead back. A node missing from the
      table has an empty row. */
  predicate IsStrictUpstream(table: map<NodeId, set<NodeId>>, a: NodeId, target: NodeId) {
    && a != ""
    && a != END
    && a != target
    && a in table && target in table[a]
    && !(target in table && a in table[target])
  }

  /** A strict order on every graph, cyclic or not (irreflexivity is in the definition). */
  lemma StrictUpstreamTransitive(g: Graph, table: map<NodeId, set<NodeId>>, a: NodeId, b: NodeId, c: NodeId)
    requires TableExact(g, table)
    requires IsStrictUpstream(table, a, b) && IsStrictUpstream(table, b, c)
    ensures IsStrictUpstream(table, a, c)
  {
    ReachesTransitive(g, a, b, c);
    if c in table && a in table[c] {
      ReachesTransitive(g, c, a, b);
    }
  }

  /** Registered nodes on one cycle never block each other, in either direction. */
  lemma CycleMembersDoNotBlock(g: Graph, table: map<NodeId, set<NodeId>>, a: NodeId, b: NodeId)
    requires TableExact(g, table) && a in g.nodes && b in g.nodes
    requires Reaches(g, a, b) && Reaches(g, b, a)
    ensures !IsStrictUpstream(table, a, b) && !IsStrictUpstream(table, b, a)
  {
    assert b in table[a] && a in table[b];
  }
}
