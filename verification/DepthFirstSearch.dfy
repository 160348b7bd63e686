/** Undirected edges, and what they connect. */
module UndirectedEdges {

  /** An edge connects its ends in both directions. */
  type Edge = (nat, nat)

  /** No edge leaves the set. */
  ghost predicate Closed(s: set<nat>, edges: set<Edge>) {
    forall e :: e in edges ==> (e.0 in s <==> e.1 in s)
  }

  /** Node b is in every set around a that no edge leaves. */
  ghost predicate Linked(edges: set<Edge>, a: nat, b: nat) {
    forall s: set<nat> :: Closed(s, edges) && a in s ==> b in s
  }

  ghost predicate IsStep(edges: set<Edge>, a: nat, b: nat) {
    (a, b) in edges || (b, a) in edges
  }

  ghost predicate IsWalk(edges: set<Edge>, w: seq<nat>, a: nat, b: nat) {
    && w != [] && w[0] == a && w[|w| - 1] == b
    && forall i :: 0 < i < |w| ==> IsStep(edges, w[i - 1], w[i])
  }

  ghost predicate HasWalk(edges: set<Edge>, a: nat, b: nat) {
    exists w :: IsWalk(edges, w, a, b)
  }

  lemma {:induction false} WalkStaysInClosed(edges: set<Edge>, w: seq<nat>, a: nat, b: nat, s: set<nat>)
    requires IsWalk(edges, w, a, b) && Closed(s, edges) && a in s
    ensures b in s
    decreases |w|
  {
    if |w| > 1 {
      var n := |w| - 1;
      WalkStaysInClosed(edges, w[..n], a, w[n - 1], s);
      assert IsStep(edges, w[n - 1], w[n]);
    }
  }

  lemma LongerWalk(edges: set<Edge>, a: nat, b: nat, c: nat)
    requires HasWalk(edges, a, b) && IsStep(edges, b, c)
    ensures HasWalk(edges, a, c)
  {
    var w :| IsWalk(edges, w, a, b);
    assert IsWalk(edges, w + [c], a, c);
  }

  ghost function Nodes(edges: set<Edge>): set<nat> {
    (set e | e in edges :: e.0) + (set e | e in edges :: e.1)
  }

  /** Linked nodes are those with a walk between them. */
  lemma LinkedIffWalk(edges: set<Edge>, a: nat, b: nat)
    ensures Linked(edges, a, b) <==> HasWalk(edges, a, b)
  {
    if w :| IsWalk(edges, w, a, b) {
      forall s: set<nat> | Closed(s, edges) && a in s ensures b in s {
        WalkStaysInClosed(edges, w, a, b, s);
      }
    }
    if Linked(edges, a, b) {
      assert IsWalk(edges, [a], a, a);
      var s := set v | v in Nodes(edges) + {a} && HasWalk(edges, a, v);
      forall e | e in edges ensures e.0 in s <==> e.1 in s {
        assert IsStep(edges, e.0, e.1) && IsStep(edges, e.1, e.0);
        assert e.0 in Nodes(edges) && e.1 in Nodes(edges);
        if HasWalk(edges, a, e.0) { LongerWalk(edges, a, e.0, e.1); }
        if HasWalk(edges, a, e.1) { LongerWalk(edges, a, e.1, e.0); }
      }
      assert Closed(s, edges) && a in s;
    }
  }

  lemma LinkedIsSymmetric(edges: set<Edge>, a: nat, b: nat)
    requires Linked(edges, a, b)
    ensures Linked(edges, b, a)
  {
    forall s: set<nat> | Closed(s, edges) && b in s ensures a in s {
      var others := (Nodes(edges) + {a, b}) - s;
      forall e | e in edges ensures e.0 in others <==> e.1 in others {
        assert e.0 in Nodes(edges) && e.1 in Nodes(edges);
      }
      assert Closed(others, edges);
    }
  }

  lemma LinkedThrough(edges: set<Edge>, a: nat, b: nat, c: nat)
    requires Linked(edges, a, b) && Linked(edges, b, c)
    ensures Linked(edges, a, c)
  {
  }

  lemma LinkedWithMore(edges: set<Edge>, more: set<Edge>, a: nat, b: nat)
    requires edges <= more && Linked(edges, a, b)
    ensures Linked(more, a, b)
  {
    forall s: set<nat> | Closed(s, more) && a in s ensures b in s {
      assert Closed(s, edges);
    }
  }

  ghost function Without(edges: set<Edge>, a: nat, b: nat): set<Edge> {
    edges - {(a, b), (b, a)}
  }

  /** Nothing but the edge itself links its ends. */
  ghost predicate IsBridge(edges: set<Edge>, e: Edge) {
    !Linked(Without(edges, e.0, e.1), e.0, e.1)
  }

  /** Without loops: no edge could be removed without a link between its ends getting lost. */
  ghost predicate IsForest(edges: set<Edge>) {
    forall e :: e in edges ==> IsBridge(edges, e)
  }

  /** An edge to a node that has no edge yet closes no loop. */
  lemma NewLeafKeepsForest(edges: set<Edge>, a: nat, leaf: nat)
    requires IsForest(edges) && a != leaf && forall e :: e in edges ==> e.0 != leaf && e.1 != leaf
    ensures IsForest(edges + {(a, leaf)})
  {
    var more := edges + {(a, leaf)};
    forall e | e in more ensures IsBridge(more, e) {
      if e == (a, leaf) {
        LeafEdgeIsBridge(edges, a, leaf);
      } else {
        OldEdgeIsBridge(edges, a, leaf, e);
      }
    }
  }

  lemma LeafEdgeIsBridge(edges: set<Edge>, a: nat, leaf: nat)
    requires a != leaf && forall e :: e in edges ==> e.0 != leaf && e.1 != leaf
    ensures IsBridge(edges + {(a, leaf)}, (a, leaf))
  {
    var rest := Without(edges + {(a, leaf)}, a, leaf);
    var s := Nodes(rest) + {a} - {leaf};
    forall e | e in rest ensures e.0 in s <==> e.1 in s {
      assert e in edges && e.0 in Nodes(rest) && e.1 in Nodes(rest);
    }
    assert Closed(s, rest) && a in s && leaf !in s;
  }

  lemma OldEdgeIsBridge(edges: set<Edge>, a: nat, leaf: nat, e: Edge)
    requires e in edges && IsBridge(edges, e) && a != leaf && forall x :: x in edges ==> x.0 != leaf && x.1 != leaf
    ensures IsBridge(edges + {(a, leaf)}, e)
  {
    var s: set<nat> :| Closed(s, Without(edges, e.0, e.1)) && e.0 in s && e.1 !in s;
    var rest := Without(edges + {(a, leaf)}, e.0, e.1);
    var t := if a in s then s + {leaf} else s - {leaf};
    forall x | x in rest ensures x.0 in t <==> x.1 in t {
      assert x == (a, leaf) || x in Without(edges, e.0, e.1);
    }
    assert Closed(t, rest) && e.0 in t && e.1 !in t;
  }
}

/** A depth first search that stops at the first loop. */
module DepthFirstSearches {
  import opened Wrappers
  import opened UndirectedEdges

  /** The neighbors of each node. */
  type Graph = seq<seq<nat>>

  predicate HasEdge(g: Graph, a: nat, b: nat)
    requires a < |g|
  {
    b in g[a]
  }

  /** An undirected graph without self loops and without parallel edges. */
  ghost predicate IsSimple(g: Graph) {
    && (forall a, i :: 0 <= a < |g| && 0 <= i < |g[a]| ==> g[a][i] < |g| && g[a][i] != a)
    && (forall a, i, j :: 0 <= a < |g| && 0 <= i < j < |g[a]| ==> g[a][i] != g[a][j])
    && (forall a: nat, b: nat :: a < |g| && b < |g| && HasEdge(g, a, b) ==> HasEdge(g, b, a))
  }

  ghost function Edges(g: Graph): set<Edge> {
    set a: nat, b: nat | a < |g| && b < |g| && HasEdge(g, a, b) :: (a, b)
  }

  /** Some edge of the component of the start could be removed without a link getting lost. */
  ghost predicate HasLoop(g: Graph, start: nat) {
    exists e :: e in Edges(g) && Linked(Edges(g), start, e.0) && !IsBridge(Edges(g), e)
  }

  /** The edges link all the nodes to the start, and form no loop. */
  ghost predicate IsSpanningTree(edges: set<Edge>, start: nat, nodes: set<nat>) {
    && (forall v :: v in nodes ==> Linked(edges, start, v))
    && (forall e :: e in edges ==> e.0 in nodes && e.1 in nodes)
    && IsForest(edges)
    && |edges| + 1 == |nodes|
  }

  ghost function Marked(visited: seq<bool>): set<nat> {
    set v: nat | v < |visited| && visited[v]
  }

  //
  // The invariant of the search
  //

  /** Everything that was visited hangs in a tree; every other edge of a visited node still waits on the stack. */
  ghost predicate IsSearch(g: Graph, start: nat, nodes: set<nat>, tree: set<Edge>, stack: seq<Edge>) {
    && start in nodes && (forall v :: v in nodes ==> v < |g|)
    && tree <= Edges(g)
    && IsSpanningTree(tree, start, nodes)
    && NoDuplicates(stack)
    && (forall e :: e in stack ==> e.0 in nodes && e in Edges(g) && e !in tree && (e.1, e.0) !in tree)
    && (forall e :: e in Edges(g) && e.0 in nodes ==> e in tree || (e.1, e.0) in tree || e in stack)
  }

  /** The connections of a node that was just reached, except the one it was reached by. */
  ghost predicate AreConnections(g: Graph, node: nat, from: Option<nat>, connections: seq<Edge>) {
    && NoDuplicates(connections)
    && (forall e :: e in connections <==> e in Edges(g) && e.0 == node && from != Some(e.1))
  }

  lemma SearchStarts(g: Graph, start: nat, stack: seq<Edge>)
    requires start < |g| && AreConnections(g, start, None, stack)
    ensures IsSearch(g, start, {start}, {}, stack)
  {
  }

  lemma SearchGoesOn(g: Graph, start: nat, nodes: set<nat>, tree: set<Edge>, rest: seq<Edge>, e: Edge, connections: seq<Edge>)
    requires IsSimple(g) && IsSearch(g, start, nodes, tree, rest + [e]) && e.1 !in nodes
    requires AreConnections(g, e.1, Some(e.0), connections)
    ensures IsSearch(g, start, nodes + {e.1}, tree + {e}, rest + connections)
  {
    hide IsForest, Linked, IsSimple;
    var stack := rest + [e];
    assert e in stack;
    assert forall x :: x in stack <==> x in rest || x == e;
    SpanningTreeGrows(start, nodes, tree, e);
    StackStaysDistinct(rest, e, connections, nodes);
    SearchedEdgesGrow(g, nodes, tree, rest, e, connections);
    assert e.1 < |g|;
  }

  lemma SpanningTreeGrows(start: nat, nodes: set<nat>, tree: set<Edge>, e: Edge)
    requires IsSpanningTree(tree, start, nodes) && e.0 in nodes && e.1 !in nodes
    ensures IsSpanningTree(tree + {e}, start, nodes + {e.1})
  {
    hide IsForest, Linked;
    NewLeafKeepsForest(tree, e.0, e.1);
    forall v | v in nodes + {e.1} ensures Linked(tree + {e}, start, v) {
      if v in nodes {
        LinkedWithMore(tree, tree + {e}, start, v);
      } else {
        LinkedWithMore(tree, tree + {e}, start, e.0);
        EdgeLinks(tree + {e}, e);
        LinkedThrough(tree + {e}, start, e.0, e.1);
      }
    }
  }

  lemma EdgeLinks(edges: set<Edge>, e: Edge)
    requires e in edges
    ensures Linked(edges, e.0, e.1)
  {
  }

  lemma StackStaysDistinct(rest: seq<Edge>, e: Edge, connections: seq<Edge>, nodes: set<nat>)
    requires NoDuplicates(rest + [e]) && NoDuplicates(connections)
    requires (forall x :: x in rest ==> x.0 in nodes) && (forall x :: x in connections ==> x.0 !in nodes)
    ensures NoDuplicates(rest + connections) && e !in rest
  {
    var stack := rest + [e];
    forall i | 0 <= i < |rest| ensures rest[i] != e {
      assert stack[i] != stack[|rest|];
    }
    forall i, j | 0 <= i < j < |rest + connections| ensures (rest + connections)[i] != (rest + connections)[j] {
      if j < |rest| {
        assert stack[i] != stack[j];
      } else if i < |rest| {
        assert rest[i] in rest && connections[j - |rest|] in connections;
      }
    }
  }

  lemma SearchedEdgesGrow(g: Graph, nodes: set<nat>, tree: set<Edge>, rest: seq<Edge>, e: Edge, connections: seq<Edge>)
    requires e.0 in nodes && e.1 !in nodes && e !in rest && AreConnections(g, e.1, Some(e.0), connections)
    requires forall x :: x in tree ==> x.0 in nodes && x.1 in nodes
    requires forall x :: x in rest ==> x.0 in nodes && x !in tree && (x.1, x.0) !in tree
    requires forall x :: x in Edges(g) && x.0 in nodes ==> x in tree || (x.1, x.0) in tree || x in rest || x == e
    ensures forall x :: x in rest + connections ==> x !in tree + {e} && (x.1, x.0) !in tree + {e}
    ensures forall x :: x in Edges(g) && x.0 in nodes + {e.1} ==>
      x in tree + {e} || (x.1, x.0) in tree + {e} || x in rest + connections
  {
    hide Edges, NoDuplicates;
  }

  //
  // The end of the search
  //

  lemma LoopFound(g: Graph, start: nat, nodes: set<nat>, tree: set<Edge>, rest: seq<Edge>, e: Edge)
    requires IsSearch(g, start, nodes, tree, rest + [e]) && e.1 in nodes
    ensures HasLoop(g, start)
  {
    hide Linked, IsForest, NoDuplicates, Edges;
    assert e in rest + [e];
    LinkedIsSymmetric(tree, start, e.0);
    LinkedThrough(tree, e.0, start, e.1);
    LinkedWithMore(tree, Without(Edges(g), e.0, e.1), e.0, e.1);
    LinkedWithMore(tree, Edges(g), start, e.0);
  }

  /** Without edges on the stack, the visited nodes are the component of the start. */
  lemma VisitedIsComponent(g: Graph, start: nat, nodes: set<nat>, tree: set<Edge>, v: nat)
    requires IsSimple(g) && IsSearch(g, start, nodes, tree, [])
    ensures Closed(nodes, Edges(g)) && (Linked(Edges(g), start, v) <==> v in nodes)
  {
    forall e | e in Edges(g) ensures e.0 in nodes <==> e.1 in nodes {
      assert HasEdge(g, e.0, e.1) && HasEdge(g, e.1, e.0);
      assert (e.1, e.0) in Edges(g);
    }
    if v in nodes {
      LinkedWithMore(tree, Edges(g), start, v);
    }
  }

  /** A bridge of the tree is a bridge of the graph: the component has no other edges. */
  lemma TreeEdgeIsBridge(g: Graph, start: nat, nodes: set<nat>, tree: set<Edge>, e: Edge)
    requires IsSimple(g) && IsSearch(g, start, nodes, tree, []) && e in tree
    ensures IsBridge(Edges(g), e) && IsBridge(Edges(g), (e.1, e.0))
  {
    hide IsSimple, Edges;
    VisitedIsComponent(g, start, nodes, tree, start);
    assert IsBridge(tree, e);
    var s: set<nat> :| Closed(s, Without(tree, e.0, e.1)) && e.0 in s && e.1 !in s;
    var near, far := s * nodes, nodes - s;
    var rest := Without(Edges(g), e.0, e.1);
    forall x | x in rest ensures (x.0 in near <==> x.1 in near) && (x.0 in far <==> x.1 in far) {
      if x.0 in nodes {
        assert x in Without(tree, e.0, e.1) || (x.1, x.0) in Without(tree, e.0, e.1);
      }
    }
    assert Closed(near, rest) && e.0 in near && e.1 !in near;
    assert Without(Edges(g), e.1, e.0) == rest;
    assert Closed(far, rest) && e.1 in far && e.0 !in far;
  }

  lemma NoLoopFound(g: Graph, start: nat, nodes: set<nat>, tree: set<Edge>)
    requires IsSimple(g) && IsSearch(g, start, nodes, tree, [])
    ensures !HasLoop(g, start)
  {
    hide Edges, Linked, IsSimple, IsBridge, IsSpanningTree;
    forall e | e in Edges(g) && Linked(Edges(g), start, e.0) ensures IsBridge(Edges(g), e) {
      VisitedIsComponent(g, start, nodes, tree, e.0);
      if e in tree {
        TreeEdgeIsBridge(g, start, nodes, tree, e);
      } else {
        TreeEdgeIsBridge(g, start, nodes, tree, (e.1, e.0));
      }
    }
  }

  //
  // Operations
  //

  /** Adds the neighbors of the node to the stack, in reverse order and without the one it was reached by. */
  method DiscoverConnections(g: Graph, node: nat, from: Option<nat>, stack: seq<Edge>) returns (pushed: seq<Edge>)
    requires IsSimple(g) && node < |g|
    ensures |stack| <= |pushed| && pushed[..|stack|] == stack && AreConnections(g, node, from, pushed[|stack|..])
  {
    pushed := stack;
    ghost var added: seq<Edge> := [];
    var i := |g[node]|;
    while i > 0
      invariant 0 <= i <= |g[node]|
      invariant pushed == stack + added && NoDuplicates(added)
      invariant forall e :: e in added <==> e.0 == node && e.1 in g[node][i..] && from != Some(e.1)
    {
      i := i - 1;
      var second := g[node][i];
      assert g[node][i..] == [second] + g[node][i + 1..];
      assert second !in g[node][i + 1..];
      if from != Some(second) {
        pushed := pushed + [(node, second)];
        added := added + [(node, second)];
      }
    }
    assert g[node][0..] == g[node] && pushed[|stack|..] == added;
    forall e ensures e in added <==> e in Edges(g) && e.0 == node && from != Some(e.1) {
      if e.0 == node && e.1 in g[node] {
        var k :| 0 <= k < |g[node]| && g[node][k] == e.1;
        assert e.1 < |g| && HasEdge(g, e.0, e.1);
        assert e == (e.0, e.1);
      }
    }
  }

  /**
   Visits the edges of a spanning tree of the component of the start, until it is complete or a loop is found.
   The calls of the edge visitor are returned.
   */
  method DepthFirstVisitor(g: Graph, start: nat, visited: array<bool>) returns (foundLoop: bool, visitedEdges: seq<Edge>)
    requires IsSimple(g) && start < |g| && visited.Length == |g|
    requires forall v :: 0 <= v < |g| ==> !visited[v]
    modifies visited
    ensures foundLoop <==> HasLoop(g, start)
    ensures !foundLoop ==>
      (forall v: nat :: v in Marked(visited[..]) <==> Linked(Edges(g), start, v)) &&
      IsSpanningTree((set e | e in visitedEdges), start, Marked(visited[..])) &&
      |visitedEdges| + 1 == |Marked(visited[..])|
  {
    hide IsSearch, IsSpanningTree, AreConnections, Linked, HasLoop, Edges, IsSimple, NoDuplicates;
    visitedEdges := [];
    ghost var nodes, tree: set<Edge> := {start}, {};
    var stack := DiscoverConnections(g, start, None, []);
    assert stack[0..] == stack;
    SearchStarts(g, start, stack);
    visited[start] := true;
    while true
      invariant visited.Length == |g| && nodes == Marked(visited[..])
      invariant IsSearch(g, start, nodes, tree, stack)
      invariant tree == (set e | e in visitedEdges) && |visitedEdges| == |tree|
      decreases |g| - |nodes|
    {
      if stack == [] {
        forall v: nat ensures v in nodes <==> Linked(Edges(g), start, v) {
          VisitedIsComponent(g, start, nodes, tree, v);
        }
        NoLoopFound(g, start, nodes, tree);
        SizeOfTree(g, start, nodes, tree);
        return false, visitedEdges;
      }
      var edge := stack[|stack| - 1];
      ghost var rest := stack[..|stack| - 1];
      assert stack == rest + [edge];
      StackedEdge(g, start, nodes, tree, rest, edge);
      stack := stack[..|stack| - 1];
      if visited[edge.1] {
        LoopFound(g, start, nodes, tree, rest, edge);
        return true, visitedEdges;
      }
      visited[edge.1] := true;
      visitedEdges := visitedEdges + [edge];
      stack := DiscoverConnections(g, edge.1, Some(edge.0), stack);
      assert stack == rest + stack[|rest|..];
      SearchGoesOn(g, start, nodes, tree, rest, edge, stack[|rest|..]);
      nodes, tree := nodes + {edge.1}, tree + {edge};
      NodesAreBounded(g, start, nodes, tree, stack);
    }
  }

  lemma StackedEdge(g: Graph, start: nat, nodes: set<nat>, tree: set<Edge>, rest: seq<Edge>, e: Edge)
    requires IsSearch(g, start, nodes, tree, rest + [e])
    ensures e.0 < |g| && e.1 < |g| && e !in tree
  {
    assert e in rest + [e];
  }

  lemma SizeOfTree(g: Graph, start: nat, nodes: set<nat>, tree: set<Edge>)
    requires IsSearch(g, start, nodes, tree, [])
    ensures IsSpanningTree(tree, start, nodes) && |tree| + 1 == |nodes|
  {
  }

  lemma NodesAreBounded(g: Graph, start: nat, nodes: set<nat>, tree: set<Edge>, stack: seq<Edge>)
    requires IsSearch(g, start, nodes, tree, stack)
    ensures |nodes| <= |g|
  {
    SizeOfBounded(nodes, |g|);
  }

  lemma {:induction false} SizeOfBounded(nodes: set<nat>, n: nat)
    requires forall v :: v in nodes ==> v < n
    ensures |nodes| <= n
    decreases n
  {
    if n > 0 {
      SizeOfBounded(nodes - {n - 1}, n - 1);
    } else {
      assert nodes == {};
    }
  }

  datatype DFSStatus = Success | UnfinishedLoop | UnfinishedDisconnected

  ghost predicate ReachesAll(g: Graph, start: nat) {
    forall v: nat :: v < |g| ==> Linked(Edges(g), start, v)
  }

  method DepthFirstSearch(g: Graph, start: nat) returns (status: DFSStatus)
    requires IsSimple(g) && start < |g|
    ensures status == UnfinishedLoop <==> HasLoop(g, start)
    ensures status == Success <==> !HasLoop(g, start) && ReachesAll(g, start)
  {
    hide IsSpanningTree, Linked, HasLoop, Edges, IsSimple;
    var visited := new bool[|g|](_ => false);
    var foundLoop, edges := DepthFirstVisitor(g, start, visited);
    if foundLoop {
      return UnfinishedLoop;
    }
    AllMarkedIff(visited[..]);
    forall v: nat | v < |g| ensures visited[v] <==> Linked(Edges(g), start, v) {
      assert visited[v] <==> v in Marked(visited[..]);
    }
    assert (forall v :: 0 <= v < |g| ==> visited[..][v]) <==> ReachesAll(g, start);
    status := if |edges| + 1 != |g| then UnfinishedDisconnected else Success;
  }

  lemma {:induction false} AllMarkedIff(visited: seq<bool>)
    ensures |Marked(visited)| == |visited| <==> forall v :: 0 <= v < |visited| ==> visited[v]
    ensures |Marked(visited)| <= |visited|
  {
    if visited != [] {
      var n := |visited| - 1;
      AllMarkedIff(visited[..n]);
      assert Marked(visited) == Marked(visited[..n]) + (if visited[n] then {n} else {});
    }
  }

  //
  // Trees
  //

  ghost predicate IsConnectedTree(g: Graph) {
    && |g| > 1 && IsForest(Edges(g))
    && (forall a: nat, b: nat :: a < |g| && b < |g| ==> Linked(Edges(g), a, b))
  }

  predicate IsLeaf(g: Graph, node: nat)
    requires node < |g|
  {
    |g[node]| == 1
  }

  ghost predicate IsPath(g: Graph, path: seq<nat>) {
    && path != [] && (forall i :: 0 <= i < |path| ==> path[i] < |g|)
    && (forall i, j :: 0 <= i < j < |path| ==> path[i] != path[j])
    && (forall i :: 0 < i < |path| ==> HasEdge(g, path[i - 1], path[i]))
  }

  /** A path that meets itself again closes a loop. */
  lemma PathClosesLoop(g: Graph, path: seq<nat>, j: nat)
    requires IsSimple(g) && IsPath(g, path) && j < |path| - 2 && HasEdge(g, path[|path| - 1], path[j])
    ensures !IsForest(Edges(g))
  {
    var k := |path| - 1;
    var e := (path[k], path[j]);
    var rest := Without(Edges(g), e.0, e.1);
    var w := path[j..];
    forall i | 0 < i < |w| ensures IsStep(rest, w[i - 1], w[i]) {
      assert HasEdge(g, path[j + i - 1], path[j + i]);
      assert (w[i - 1], w[i]) in Edges(g);
    }
    assert IsWalk(rest, w, path[j], path[k]);
    LinkedIffWalk(rest, path[j], path[k]);
    LinkedIsSymmetric(rest, path[j], path[k]);
    assert e in Edges(g) && !IsBridge(Edges(g), e);
  }

  /** Without a leaf every path could be made longer, until it closes a loop. */
  lemma {:induction false} NoLeafHasLoop(g: Graph, path: seq<nat>)
    requires IsSimple(g) && IsPath(g, path) && forall v: nat :: v < |g| ==> |g[v]| > 1
    ensures !IsForest(Edges(g))
    decreases |g| - |path|
  {
    hide IsForest, Edges;
    var k := |path| - 1;
    var last := path[k];
    var next := if k > 0 && g[last][0] == path[k - 1] then g[last][1] else g[last][0];
    assert next in g[last] && next != last && (k > 0 ==> next != path[k - 1]);
    if j :| 0 <= j < |path| && path[j] == next {
      PathClosesLoop(g, path, j);
    } else {
      var longer := path + [next];
      assert HasEdge(g, last, next);
      assert IsPath(g, longer);
      PathIsBounded(g, longer);
      NoLeafHasLoop(g, longer);
    }
  }

  lemma PathIsBounded(g: Graph, path: seq<nat>)
    requires IsPath(g, path)
    ensures |path| <= |g|
  {
    var nodes := NodesOf(path);
    DistinctSize(path);
    forall v | v in nodes ensures v < |g| {
      var i :| 0 <= i < |path| && path[i] == v;
    }
    SizeOfBounded(nodes, |g|);
  }

  ghost function NodesOf(path: seq<nat>): set<nat> {
    set v | v in path
  }

  lemma {:induction false} DistinctSize(path: seq<nat>)
    requires forall i, j :: 0 <= i < j < |path| ==> path[i] != path[j]
    ensures |NodesOf(path)| == |path|
  {
    if path != [] {
      var n := |path| - 1;
      DistinctSize(path[..n]);
      assert path == path[..n] + [path[n]];
      assert NodesOf(path) == NodesOf(path[..n]) + {path[n]} && path[n] !in NodesOf(path[..n]);
    }
  }

  /** A connected tree has a leaf. */
  lemma TreeHasLeaf(g: Graph)
    requires IsSimple(g) && IsConnectedTree(g)
    ensures exists v: nat :: v < |g| && IsLeaf(g, v)
  {
    hide IsForest;
    if forall v: nat :: v < |g| ==> !IsLeaf(g, v) {
      forall v: nat | v < |g| ensures |g[v]| > 1 {
        ConnectedHasEdge(g, v);
        assert !IsLeaf(g, v);
      }
      NoLeafHasLoop(g, [0]);
      assert false;
    }
  }

  lemma ConnectedHasEdge(g: Graph, v: nat)
    requires IsSimple(g) && IsConnectedTree(g) && v < |g|
    ensures |g[v]| > 0
  {
    var other := if v == 0 then 1 else 0;
    assert Linked(Edges(g), v, other);
    if |g[v]| == 0 {
      forall e | e in Edges(g) ensures e.0 != v && e.1 != v {
        assert HasEdge(g, e.0, e.1) && HasEdge(g, e.1, e.0);
      }
      assert Closed({v}, Edges(g));
    }
  }

  lemma TreeIff(g: Graph, root: nat)
    requires IsSimple(g) && root < |g| && |g| > 1
    ensures IsConnectedTree(g) <==> !HasLoop(g, root) && ReachesAll(g, root)
  {
    hide IsBridge, Linked, IsSimple;
    if ReachesAll(g, root) {
      forall a: nat, b: nat | a < |g| && b < |g| ensures Linked(Edges(g), a, b) {
        LinkedIsSymmetric(Edges(g), root, a);
        LinkedThrough(Edges(g), a, root, b);
      }
    }
  }

  method FindRootIndex(g: Graph) returns (root: Option<nat>)
    ensures root.Some? ==> root.value < |g| && IsLeaf(g, root.value)
    ensures root.None? ==> forall v: nat :: v < |g| ==> !IsLeaf(g, v)
  {
    for i := 0 to |g|
      invariant forall v: nat :: v < i ==> !IsLeaf(g, v)
    {
      if IsLeaf(g, i) {
        return Some(i);
      }
    }
    return None;
  }

  /** Detects loops and disconnected parts. */
  method GraphIsConnectedTree(g: Graph) returns (ok: bool)
    requires IsSimple(g)
    ensures ok <==> IsConnectedTree(g)
  {
    hide IsConnectedTree, HasLoop, ReachesAll, IsSimple;
    var root := FindRootIndex(g);
    if root.None? {
      NoLeafIsNoTree(g);
      return false;
    }
    LeafHasNeighbor(g, root.value);
    TreeIff(g, root.value);
    var status := DepthFirstSearch(g, root.value);
    ok := status == Success;
  }

  lemma NoLeafIsNoTree(g: Graph)
    requires IsSimple(g) && forall v: nat :: v < |g| ==> !IsLeaf(g, v)
    ensures !IsConnectedTree(g)
  {
    hide IsForest, Linked;
    if IsConnectedTree(g) {
      TreeHasLeaf(g);
      assert false;
    }
  }

  lemma LeafHasNeighbor(g: Graph, v: nat)
    requires IsSimple(g) && v < |g| && IsLeaf(g, v)
    ensures |g| > 1
  {
    assert g[v][0] < |g| && g[v][0] != v;
  }
}
