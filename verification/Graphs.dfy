/** Finite directed graphs given by an edge set, and the Kahn-style cycle test of the
    dependency repository. An edge `(t, d)` reads "task `t` depends on task `d`". */
module Graphs {

  type Node = nat
  type Edge = (Node, Node)

  ghost predicate IsWalk(edges: set<Edge>, walk: seq<Node>) {
    forall i :: 0 <= i < |walk| - 1 ==> (walk[i], walk[i + 1]) in edges
  }

  ghost predicate IsCycle(edges: set<Edge>, walk: seq<Node>) {
    && |walk| >= 2
    && walk[0] == walk[|walk| - 1]
    && IsWalk(edges, walk)
  }

  ghost predicate HasCycle(edges: set<Edge>) {
    exists walk :: IsCycle(edges, walk)
  }

  /** `nodes` covers both ends of every edge. */
  ghost predicate Within(edges: set<Edge>, nodes: set<Node>) {
    forall u, v :: (u, v) in edges ==> u in nodes && v in nodes
  }

  ghost function Successors(edges: set<Edge>, nodes: set<Node>, u: Node): set<Node> {
    set v | v in nodes && (u, v) in edges
  }

  /** Predecessors of `v` that are not yet in `done`. */
  ghost function OpenPredecessors(edges: set<Edge>, nodes: set<Node>, v: Node, done: set<Node>): set<Node> {
    set u | u in nodes && (u, v) in edges && u !in done
  }

  /** A cycle survives when edges are added. */
  lemma CycleMonotone(small: set<Edge>, large: set<Edge>)
    requires small <= large
    ensures HasCycle(small) ==> HasCycle(large)
  {
    if HasCycle(small) {
      var walk :| IsCycle(small, walk);
      assert IsCycle(large, walk);
    }
  }

  // ---------------------------------------------------------------- pigeonhole

  lemma {:induction false} LongSequenceRepeats(walk: seq<Node>, nodes: set<Node>)
    requires forall v :: v in walk ==> v in nodes
    requires |walk| > |nodes|
    ensures exists i, j :: 0 <= i < j < |walk| && walk[i] == walk[j]
  {
    var last := walk[|walk| - 1];
    var front := walk[..|walk| - 1];
    assert last in nodes;
    if last in front {
      var i :| 0 <= i < |front| && front[i] == last;
      assert walk[i] == walk[|walk| - 1];
    } else {
      LongSequenceRepeats(front, nodes - {last});
      var i, j :| 0 <= i < j < |front| && front[i] == front[j];
      assert walk[i] == walk[j];
    }
  }

  lemma LongWalkHasCycle(edges: set<Edge>, walk: seq<Node>, nodes: set<Node>)
    requires IsWalk(edges, walk)
    requires forall v :: v in walk ==> v in nodes
    requires |walk| > |nodes|
    ensures HasCycle(edges)
  {
    LongSequenceRepeats(walk, nodes);
    var i, j :| 0 <= i < j < |walk| && walk[i] == walk[j];
    var loop := walk[i..j + 1];
    assert IsCycle(edges, loop) by {
      forall k | 0 <= k < |loop| - 1 ensures (loop[k], loop[k + 1]) in edges {
        assert loop[k] == walk[i + k] && loop[k + 1] == walk[i + k + 1];
      }
    }
  }

  ghost predicate HasSuccessorIn(edges: set<Edge>, nodes: set<Node>, v: Node) {
    exists w :: w in nodes && (v, w) in edges
  }

  ghost predicate HasPredecessorIn(edges: set<Edge>, nodes: set<Node>, v: Node) {
    exists u :: u in nodes && (u, v) in edges
  }

  ghost predicate EveryNodeHasSuccessorIn(edges: set<Edge>, nodes: set<Node>) {
    forall v {:trigger HasSuccessorIn(edges, nodes, v)} :: v in nodes ==> HasSuccessorIn(edges, nodes, v)
  }

  ghost predicate EveryNodeHasPredecessorIn(edges: set<Edge>, nodes: set<Node>) {
    forall v {:trigger HasPredecessorIn(edges, nodes, v)} :: v in nodes ==> HasPredecessorIn(edges, nodes, v)
  }

  lemma {:induction false} ForwardWalk(edges: set<Edge>, nodes: set<Node>, n: nat) returns (walk: seq<Node>)
    requires nodes != {} && EveryNodeHasSuccessorIn(edges, nodes)
    ensures |walk| == n + 1 && IsWalk(edges, walk) && forall v :: v in walk ==> v in nodes
  {
    if n == 0 {
      var v :| v in nodes;
      walk := [v];
    } else {
      var shorter := ForwardWalk(edges, nodes, n - 1);
      var last := shorter[|shorter| - 1];
      assert HasSuccessorIn(edges, nodes, last);
      var w :| w in nodes && (last, w) in edges;
      walk := shorter + [w];
    }
  }

  lemma {:induction false} BackwardWalk(edges: set<Edge>, nodes: set<Node>, n: nat) returns (walk: seq<Node>)
    requires nodes != {} && EveryNodeHasPredecessorIn(edges, nodes)
    ensures |walk| == n + 1 && IsWalk(edges, walk) && forall v :: v in walk ==> v in nodes
  {
    if n == 0 {
      var v :| v in nodes;
      walk := [v];
    } else {
      var shorter := BackwardWalk(edges, nodes, n - 1);
      assert HasPredecessorIn(edges, nodes, shorter[0]);
      var u :| u in nodes && (u, shorter[0]) in edges;
      walk := [u] + shorter;
    }
  }

  /** A nonempty finite node set from which one can always move on contains a cycle. */
  lemma NoSinkHasCycle(edges: set<Edge>, nodes: set<Node>)
    requires nodes != {} && EveryNodeHasSuccessorIn(edges, nodes)
    ensures HasCycle(edges)
  {
    var walk := ForwardWalk(edges, nodes, |nodes|);
    LongWalkHasCycle(edges, walk, nodes);
  }

  lemma NoSourceHasCycle(edges: set<Edge>, nodes: set<Node>)
    requires nodes != {} && EveryNodeHasPredecessorIn(edges, nodes)
    ensures HasCycle(edges)
  {
    var walk := BackwardWalk(edges, nodes, |nodes|);
    LongWalkHasCycle(edges, walk, nodes);
  }

  // ------------------------------------------------------------ topological rank

  /** `rank` numbers the nodes it covers so that covered edges go upwards and a covered
      node has only covered predecessors. */
  ghost predicate RankedPrefix(edges: set<Edge>, rank: map<Node, nat>) {
    forall u, v :: (u, v) in edges && v in rank ==> u in rank && rank[u] < rank[v]
  }

  lemma {:induction false} RankGrowsAlongWalk(edges: set<Edge>, rank: map<Node, nat>, walk: seq<Node>)
    requires RankedPrefix(edges, rank) && Within(edges, rank.Keys)
    requires |walk| >= 2 && IsWalk(edges, walk)
    ensures walk[0] in rank && walk[|walk| - 1] in rank
    ensures rank[walk[0]] < rank[walk[|walk| - 1]]
  {
    var n := |walk|;
    assert (walk[n - 2], walk[n - 2 + 1]) in edges;
    if n > 2 {
      assert walk[..n - 1][n - 2] == walk[n - 2];
      RankGrowsAlongWalk(edges, rank, walk[..n - 1]);
    }
  }

  lemma RankedGraphIsAcyclic(edges: set<Edge>, rank: map<Node, nat>)
    requires RankedPrefix(edges, rank) && Within(edges, rank.Keys)
    ensures !HasCycle(edges)
  {
    if HasCycle(edges) {
      var walk :| IsCycle(edges, walk);
      RankGrowsAlongWalk(edges, rank, walk);
    }
  }

  // ------------------------------------------------------------------- Kahn

  /** The adjacency and in-degree dictionaries describe exactly `edges`. */
  ghost predicate Describes(graph: map<Node, set<Node>>, indegree: map<Node, int>, edges: set<Edge>) {
    && graph.Keys == indegree.Keys
    && Within(edges, graph.Keys)
    && (forall u :: u in graph ==> graph[u] == Successors(edges, graph.Keys, u))
    && CountsOpen(indegree, edges, {})
  }

  /** In-degrees count the predecessors that were not popped yet. */
  ghost predicate CountsOpen(indegree: map<Node, int>, edges: set<Edge>, done: set<Node>) {
    forall v :: v in indegree ==> indegree[v] == |OpenPredecessors(edges, indegree.Keys, v, done)|
  }

  function LinkNodes(graph: map<Node, set<Node>>, a: Node, b: Node): (linked: map<Node, set<Node>>)
    ensures linked.Keys == graph.Keys + {a, b}
    ensures forall u :: u in linked ==>
      linked[u] == (if u in graph then graph[u] else {}) + (if u == a then {b} else {})
  {
    var added := graph[a := (if a in graph then graph[a] else {}) + {b}];
    added[b := if b in added then added[b] else {}]
  }

  function CountLink(indegree: map<Node, int>, a: Node, b: Node): (counted: map<Node, int>)
    ensures counted.Keys == indegree.Keys + {a, b}
    ensures forall v :: v in counted ==>
      counted[v] == (if v in indegree then indegree[v] else 0) + (if v == b then 1 else 0)
  {
    var seen := indegree[a := if a in indegree then indegree[a] else 0];
    seen[b := (if b in seen then seen[b] else 0) + 1]
  }

  method BuildGraph(edges: set<Edge>) returns (graph: map<Node, set<Node>>, indegree: map<Node, int>)
    ensures Describes(graph, indegree, edges)
  {
    graph, indegree := map[], map[];
    var todo := edges;
    while todo != {}
      invariant todo <= edges
      invariant Describes(graph, indegree, edges - todo)
      decreases todo
    {
      var e: Edge :| e in todo;
      var (u, v) := e;
      EdgeAdded(edges - todo, u, v, graph, indegree);
      TakeOut(edges, todo, (u, v));
      graph := LinkNodes(graph, u, v);
      indegree := CountLink(indegree, u, v);
      todo := todo - {(u, v)};
    }
    assert edges - todo == edges;
  }

  lemma TakeOut(edges: set<Edge>, todo: set<Edge>, e: Edge)
    requires e in todo && todo <= edges
    ensures edges - todo + {e} == edges - (todo - {e})
  {
  }

  lemma SuccessorsAfterEdge(before: set<Edge>, nodes0: set<Node>, a: Node, b: Node, u: Node)
    requires Within(before, nodes0)
    ensures Successors(before + {(a, b)}, nodes0 + {a, b}, u) ==
            Successors(before, nodes0, u) + (if u == a then {b} else {})
    ensures u !in nodes0 ==> Successors(before, nodes0, u) == {}
  {
  }

  lemma PredecessorsAfterEdge(before: set<Edge>, nodes0: set<Node>, a: Node, b: Node, v: Node)
    requires Within(before, nodes0) && (a, b) !in before
    ensures |OpenPredecessors(before + {(a, b)}, nodes0 + {a, b}, v, {})| ==
            |OpenPredecessors(before, nodes0, v, {})| + (if v == b then 1 else 0)
    ensures v !in nodes0 ==> OpenPredecessors(before, nodes0, v, {}) == {}
  {
    var was := OpenPredecessors(before, nodes0, v, {});
    var now := OpenPredecessors(before + {(a, b)}, nodes0 + {a, b}, v, {});
    assert now == was + (if v == b then {a} else {});
  }

  /** One iteration of the dictionary-building loop keeps `Describes`. */
  lemma EdgeAdded(before: set<Edge>, a: Node, b: Node, graph: map<Node, set<Node>>, indegree: map<Node, int>)
    requires Describes(graph, indegree, before) && (a, b) !in before
    ensures Describes(LinkNodes(graph, a, b), CountLink(indegree, a, b), before + {(a, b)})
  {
    var nodes0 := graph.Keys;
    var nodes := nodes0 + {a, b};
    var graph', indegree' := LinkNodes(graph, a, b), CountLink(indegree, a, b);
    assert Within(before + {(a, b)}, nodes);
    forall u | u in graph' ensures graph'[u] == Successors(before + {(a, b)}, nodes, u) {
      SuccessorsAfterEdge(before, nodes0, a, b, u);
    }
    forall v | v in indegree' ensures indegree'[v] == |OpenPredecessors(before + {(a, b)}, nodes, v, {})| {
      PredecessorsAfterEdge(before, nodes0, a, b, v);
    }
  }

  /** The nodes a scan with frontier `roots` still has to pop. */
  ghost predicate Frontier(roots: seq<Node>, indegree: map<Node, int>, done: set<Node>) {
    && (forall i, j :: 0 <= i < j < |roots| ==> roots[i] != roots[j])
    && (forall v :: v in roots <==> v in indegree && v !in done && indegree[v] == 0)
  }

  method InitialRoots(indegree: map<Node, int>) returns (roots: seq<Node>)
    ensures Frontier(roots, indegree, {})
  {
    roots := [];
    var todo := indegree.Keys;
    while todo != {}
      invariant todo <= indegree.Keys
      invariant Frontier(roots, indegree, todo)
      decreases todo
    {
      var v :| v in todo;
      if indegree[v] == 0 {
        roots := roots + [v];
      }
      todo := todo - {v};
    }
  }

  lemma PopChangesOpenPredecessors(edges: set<Edge>, nodes: set<Node>, node: Node, done: set<Node>, v: Node)
    requires node in nodes && node !in done && v in nodes
    ensures |OpenPredecessors(edges, nodes, v, done)| ==
            |OpenPredecessors(edges, nodes, v, done + {node})| + (if v in Successors(edges, nodes, node) then 1 else 0)
  {
    var was, now := OpenPredecessors(edges, nodes, v, done), OpenPredecessors(edges, nodes, v, done + {node});
    assert was == now + (if (node, v) in edges then {node} else {});
  }

  /** `queued` lists the reached nodes without open predecessors, each once. */
  ghost predicate Queued(queued: seq<Node>, indegree: map<Node, int>, reached: set<Node>) {
    && (forall i, j :: 0 <= i < j < |queued| ==> queued[i] != queued[j])
    && (forall v :: v in queued <==> v in reached && v in indegree && indegree[v] == 0)
  }

  /** The inner loop: every neighbour loses one in-degree, and those that reach zero are queued. */
  method Relax(neighbours: set<Node>, indegree0: map<Node, int>, roots0: seq<Node>)
    returns (indegree: map<Node, int>, roots: seq<Node>)
    requires neighbours <= indegree0.Keys
    ensures indegree.Keys == indegree0.Keys
    ensures forall v :: v in indegree ==> indegree[v] == indegree0[v] - (if v in neighbours then 1 else 0)
    ensures roots0 <= roots && Queued(roots[|roots0|..], indegree, neighbours)
  {
    indegree, roots := indegree0, roots0;
    var todo := neighbours;
    while todo != {}
      invariant todo <= neighbours
      invariant indegree.Keys == indegree0.Keys
      invariant forall v :: v in indegree ==>
        indegree[v] == indegree0[v] - (if v in neighbours && v !in todo then 1 else 0)
      invariant roots0 <= roots && Queued(roots[|roots0|..], indegree, neighbours - todo)
      decreases todo
    {
      var v :| v in todo;
      indegree := indegree[v := indegree[v] - 1];
      if indegree[v] == 0 {
        assert (roots + [v])[|roots0|..] == roots[|roots0|..] + [v];
        roots := roots + [v];
      }
      todo := todo - {v};
    }
    assert neighbours - todo == neighbours;
  }

  lemma RelaxedFrontier(neighbours: set<Node>, indegree0: map<Node, int>, indegree: map<Node, int>,
                        roots0: seq<Node>, roots: seq<Node>, done: set<Node>)
    requires Frontier(roots0, indegree0, done) && neighbours <= indegree0.Keys && neighbours !! done
    requires forall v :: v in neighbours ==> indegree0[v] > 0
    requires indegree.Keys == indegree0.Keys
    requires forall v :: v in indegree ==> indegree[v] == indegree0[v] - (if v in neighbours then 1 else 0)
    requires roots0 <= roots && Queued(roots[|roots0|..], indegree, neighbours)
    ensures Frontier(roots, indegree, done)
  {
    var queued := roots[|roots0|..];
    assert roots == roots0 + queued;
    assert forall v :: v in roots <==> v in roots0 || v in queued;
    forall i, j | 0 <= i < j < |roots| ensures roots[i] != roots[j] {
      if j < |roots0| {
        assert roots[i] == roots0[i] && roots[j] == roots0[j];
      } else if i >= |roots0| {
        assert roots[i] == queued[i - |roots0|] && roots[j] == queued[j - |roots0|];
      } else {
        assert roots0[i] in roots0 && queued[j - |roots0|] in queued;
      }
    }
  }

  lemma PopKeepsCounts(edges: set<Edge>, indegree0: map<Node, int>, indegree: map<Node, int>,
                       done: set<Node>, node: Node)
    requires node in indegree0 && node !in done && CountsOpen(indegree0, edges, done)
    requires indegree.Keys == indegree0.Keys
    requires forall v :: v in indegree ==>
      indegree[v] == indegree0[v] - (if v in Successors(edges, indegree.Keys, node) then 1 else 0)
    ensures CountsOpen(indegree, edges, done + {node})
  {
    forall v | v in indegree ensures indegree[v] == |OpenPredecessors(edges, indegree.Keys, v, done + {node})| {
      PopChangesOpenPredecessors(edges, indegree.Keys, node, done, v);
    }
  }

  /** The ranked nodes, the open in-degrees and the frontier belong to one scan of `edges`. */
  ghost predicate Scanning(edges: set<Edge>, graph: map<Node, set<Node>>, indegree: map<Node, int>,
                           rank: map<Node, nat>, visited: nat)
  {
    && graph.Keys == indegree.Keys && Within(edges, graph.Keys)
    && (forall u :: u in graph ==> graph[u] == Successors(edges, graph.Keys, u))
    && CountsOpen(indegree, edges, rank.Keys)
    && rank.Keys <= indegree.Keys && |rank.Keys| == visited
    && (forall v :: v in rank ==> rank[v] < visited)
    && RankedPrefix(edges, rank)
  }

  /** `_contains_cycle`: true exactly when the edge set has a directed cycle. */
  method ContainsCycle(edges: set<Edge>) returns (cyclic: bool)
    ensures cyclic <==> HasCycle(edges)
  {
    var graph, indegree := BuildGraph(edges);
    var roots := InitialRoots(indegree);
    var visited := 0;
    ghost var rank: map<Node, nat> := map[];
    assert rank.Keys == {};
    while roots != []
      invariant Scanning(edges, graph, indegree, rank, visited)
      invariant Frontier(roots, indegree, rank.Keys)
      decreases graph.Keys - rank.Keys
    {
      var node := roots[|roots| - 1];
      PoppedFrontier(roots, indegree, rank.Keys);
      roots := roots[..|roots| - 1];
      ghost var indegree0, roots0 := indegree, roots;
      RootIsFree(edges, graph, indegree, rank, visited, node);
      indegree, roots := Relax(graph[node], indegree, roots);
      RelaxedFrontier(graph[node], indegree0, indegree, roots0, roots, rank.Keys + {node});
      ScanStep(edges, graph, indegree0, indegree, rank, visited, node);
      rank := rank[node := visited];
      visited := visited + 1;
    }
    cyclic := visited != |indegree.Keys|;
    KahnVerdict(edges, indegree, rank);
  }

  lemma RootIsFree(edges: set<Edge>, graph: map<Node, set<Node>>, indegree: map<Node, int>,
                   rank: map<Node, nat>, visited: nat, node: Node)
    requires Scanning(edges, graph, indegree, rank, visited)
    requires node in indegree && indegree[node] == 0 && node !in rank
    ensures graph[node] <= indegree.Keys && graph[node] !! rank.Keys + {node}
    ensures forall v :: v in graph[node] ==> indegree[v] > 0
  {
  }

  lemma RankStep(edges: set<Edge>, nodes: set<Node>, rank: map<Node, nat>, visited: nat, node: Node)
    requires Within(edges, nodes) && RankedPrefix(edges, rank)
    requires rank.Keys <= nodes && |rank.Keys| == visited && forall v :: v in rank ==> rank[v] < visited
    requires node in nodes && node !in rank
    requires |OpenPredecessors(edges, nodes, node, rank.Keys)| == 0
    ensures var next := rank[node := visited];
      && next.Keys == rank.Keys + {node} && next.Keys <= nodes && |next.Keys| == visited + 1
      && (forall v :: v in next ==> next[v] < visited + 1)
      && RankedPrefix(edges, next)
  {
  }

  lemma ScanStep(edges: set<Edge>, graph: map<Node, set<Node>>, indegree0: map<Node, int>, indegree: map<Node, int>,
                 rank: map<Node, nat>, visited: nat, node: Node)
    requires Scanning(edges, graph, indegree0, rank, visited)
    requires node in indegree0 && indegree0[node] == 0 && node !in rank
    requires indegree.Keys == indegree0.Keys
    requires forall v :: v in indegree ==> indegree[v] == indegree0[v] - (if v in graph[node] then 1 else 0)
    ensures rank[node := visited].Keys == rank.Keys + {node}
    ensures Scanning(edges, graph, indegree, rank[node := visited], visited + 1)
  {
    RankStep(edges, graph.Keys, rank, visited, node);
    PopKeepsCounts(edges, indegree0, indegree, rank.Keys, node);
  }

  lemma PoppedFrontier(roots: seq<Node>, indegree: map<Node, int>, done: set<Node>)
    requires roots != [] && Frontier(roots, indegree, done)
    ensures var node := roots[|roots| - 1];
      && node in indegree && indegree[node] == 0 && node !in done
      && Frontier(roots[..|roots| - 1], indegree, done + {node})
  {
  }

  /** With an empty frontier, either every node was ranked or the rest has no source. */
  lemma KahnVerdict(edges: set<Edge>, indegree: map<Node, int>, rank: map<Node, nat>)
    requires Within(edges, indegree.Keys)
    requires CountsOpen(indegree, edges, rank.Keys)
    requires Frontier([], indegree, rank.Keys)
    requires rank.Keys <= indegree.Keys && RankedPrefix(edges, rank)
    ensures |rank.Keys| != |indegree.Keys| <==> HasCycle(edges)
  {
    var nodes := indegree.Keys;
    var rest := nodes - rank.Keys;
    assert nodes == rank.Keys + rest;
    if rest == {} {
      RankedGraphIsAcyclic(edges, rank);
    } else {
      forall v | v in rest ensures HasPredecessorIn(edges, rest, v) {
        assert indegree[v] != 0;
        var u :| u in OpenPredecessors(edges, nodes, v, rank.Keys);
        assert u in rest && (u, v) in edges;
      }
      NoSourceHasCycle(edges, rest);
    }
  }
}
