/** The builder's two depth-first searches. */
module Search {
  import opened Ids
  import opened Plans
  import opened Digraph
  import opened Wiring

  datatype Colour = Visiting | Done

  function Successors(nodeMap: map<Id, Node>, id: Id): seq<Id> {
    if id in nodeMap then nodeMap[id].successors else []
  }

  /** The node table's successor lists are the arcs out of the graph's nodes. */
  ghost predicate Describes(nodeMap: map<Id, Node>, g: Graph) {
    && nodeMap.Keys == g.nodes
    && (forall u, v :: v in Successors(nodeMap, u) <==> u in g.nodes && (u, v) in g.arcs)
  }

  lemma WiredDescribes(ids: set<Id>, edges: seq<Edge>, nodeMap: map<Id, Node>)
    requires Wired(ids, edges, nodeMap)
    ensures Describes(nodeMap, GraphOf(ids, edges))
  {
    var g := GraphOf(ids, edges);
    forall u, v
      ensures v in Successors(nodeMap, u) <==> u in g.nodes && (u, v) in g.arcs
    {
      if u in nodeMap {
        assert NodeWired(edges, u, nodeMap[u]);
        SameMultiset(nodeMap[u].successors, Targets(edges, u));
        TargetsAre(edges, u);
        if (u, v) in g.arcs {
          var e :| e in edges && (e.from, e.to) == (u, v);
        }
        if v in Targets(edges, u) {
          var e :| e in edges && e.from == u && e.to == v;
          assert (u, v) in g.arcs;
        }
      }
    }
  }

  /** Everything a search can meet. */
  ghost function Universe(g: Graph): set<Id> {
    g.nodes + set a | a in g.arcs :: a.1
  }

  // ----- Cycle detection -----

  function Finished(visited: map<Id, Colour>): set<Id> {
    set n | n in visited && visited[n] == Done
  }

  /** The nodes being visited are exactly the nodes of the walk from the search's start. */
  ghost predicate OnStack(g: Graph, visited: map<Id, Colour>, stack: seq<Id>) {
    && (stack == [] || Walk(g, stack))
    && Inside(g, stack)
    && (forall n :: n in stack <==> n in visited && visited[n] == Visiting)
  }

  /** Finished nodes lead to finished nodes only, and none of them lies on a cycle. */
  ghost predicate Settles(g: Graph, done: set<Id>) {
    && (forall u, v :: u in done && u in g.nodes && (u, v) in g.arcs ==> v in done)
    && (forall p :: IsCycle(g, p) ==> p[0] !in done)
  }

  ghost predicate Searching(g: Graph, visited: map<Id, Colour>, stack: seq<Id>) {
    && visited.Keys <= Universe(g)
    && OnStack(g, visited, stack)
    && Settles(g, Finished(visited))
  }

  lemma {:induction false} StaysInside(g: Graph, p: seq<Id>, done: set<Id>, i: nat)
    requires Walk(g, p) && Inside(g, p) && i < |p|
    requires forall u, v :: u in done && u in g.nodes && (u, v) in g.arcs ==> v in done
    requires p[0] in done
    ensures p[i] in done
  {
    if i > 0 {
      StaysInside(g, p, done, i - 1);
      assert (p[i - 1], p[i - 1 + 1]) in g.arcs;
    }
  }

  /** A node all of whose successors are finished may be finished too. */
  lemma FinishNode(g: Graph, done: set<Id>, id: Id)
    requires Settles(g, done) && id !in done
    requires forall v :: id in g.nodes && (id, v) in g.arcs ==> v in done
    ensures Settles(g, done + {id})
  {
    forall p | IsCycle(g, p)
      ensures p[0] !in done + {id}
    {
      if p[0] == id {
        var q := p[1..];
        assert (p[0], p[0 + 1]) in g.arcs;
        forall i | 0 <= i < |q| - 1
          ensures (q[i], q[i + 1]) in g.arcs
        {
          assert (p[i + 1], p[i + 1 + 1]) in g.arcs;
        }
        StaysInside(g, q, done, |q| - 1);
        assert false;
      }
    }
  }

  lemma BackEdge(g: Graph, visited: map<Id, Colour>, stack: seq<Id>, id: Id)
    requires OnStack(g, visited, stack) && id in stack
    requires stack != [] && (stack[|stack| - 1], id) in g.arcs
    ensures Cyclic(g)
  {
    var i :| 0 <= i < |stack| && stack[i] == id;
    var p := stack[i..] + [id];
    forall m | 0 <= m < |p| - 1
      ensures (p[m], p[m + 1]) in g.arcs
    {
      if m < |p| - 2 {
        assert (stack[i + m], stack[i + m + 1]) in g.arcs;
      }
    }
    assert IsCycle(g, p);
  }

  /** Visits `id`, the next node after `stack`; true means that a cycle was closed. */
  method Visit(ghost g: Graph, nodeMap: map<Id, Node>, id: Id, visited0: map<Id, Colour>, ghost stack: seq<Id>)
    returns (found: bool, visited: map<Id, Colour>)
    requires Describes(nodeMap, g) && id in Universe(g)
    requires Searching(g, visited0, stack)
    requires stack != [] ==> (stack[|stack| - 1], id) in g.arcs
    requires stack == [] ==> id !in visited0
    ensures found ==> Cyclic(g)
    ensures !found ==> Searching(g, visited, stack) && id in Finished(visited)
    ensures !found ==> visited0.Keys <= visited.Keys && Finished(visited0) <= Finished(visited)
    decreases Universe(g) - visited0.Keys, 0
  {
    visited := visited0;
    if id in visited && visited[id] == Visiting {
      BackEdge(g, visited, stack, id);
      return true, visited;
    }
    if id in visited && visited[id] == Done {
      return false, visited;
    }
    visited := visited[id := Visiting];
    if id in nodeMap {
      Push(g, visited0, stack, id);
      Grows(g, visited0, visited, id);
      found, visited := VisitAll(g, nodeMap, id, visited, stack + [id]);
      if found {
        return;
      }
      Pop(g, nodeMap, visited, stack, id);
    } else {
      Leaf(g, visited0, stack, id);
    }
    visited := visited[id := Done];
    found := false;
  }

  /** Visits the successors of the node on top of the stack. */
  method VisitAll(ghost g: Graph, nodeMap: map<Id, Node>, id: Id, visited0: map<Id, Colour>, ghost stack: seq<Id>)
    returns (found: bool, visited: map<Id, Colour>)
    requires Describes(nodeMap, g) && id in nodeMap
    requires Searching(g, visited0, stack)
    requires stack != [] && stack[|stack| - 1] == id
    ensures found ==> Cyclic(g)
    ensures !found ==> Searching(g, visited, stack)
    ensures !found ==> visited0.Keys <= visited.Keys && Finished(visited0) <= Finished(visited)
    ensures !found ==> forall j :: 0 <= j < |nodeMap[id].successors| ==> nodeMap[id].successors[j] in Finished(visited)
    decreases Universe(g) - visited0.Keys, 1
  {
    found, visited := false, visited0;
    var successors := nodeMap[id].successors;
    for i := 0 to |successors|
      invariant !found && Searching(g, visited, stack)
      invariant visited0.Keys <= visited.Keys && Finished(visited0) <= Finished(visited)
      invariant forall j :: 0 <= j < i ==> successors[j] in Finished(visited)
    {
      assert successors[i] in Successors(nodeMap, id);
      assert Universe(g) - visited.Keys <= Universe(g) - visited0.Keys;
      found, visited := Visit(g, nodeMap, successors[i], visited, stack);
      if found {
        return;
      }
    }
  }

  lemma Push(g: Graph, visited: map<Id, Colour>, stack: seq<Id>, id: Id)
    requires Searching(g, visited, stack) && id in g.nodes && id !in visited
    requires stack != [] ==> (stack[|stack| - 1], id) in g.arcs
    ensures Searching(g, visited[id := Visiting], stack + [id])
    ensures Finished(visited) <= Finished(visited[id := Visiting])
  {
    var deeper := stack + [id];
    assert Finished(visited[id := Visiting]) == Finished(visited);
    assert Inside(g, deeper);
    forall i | 0 <= i < |deeper| - 1
      ensures (deeper[i], deeper[i + 1]) in g.arcs
    {
      if i < |stack| - 1 {
        assert (stack[i], stack[i + 1]) in g.arcs;
      }
    }
  }

  lemma Pop(g: Graph, nodeMap: map<Id, Node>, visited: map<Id, Colour>, stack: seq<Id>, id: Id)
    requires Describes(nodeMap, g) && id in nodeMap
    requires Searching(g, visited, stack + [id]) && id !in stack
    requires forall j :: 0 <= j < |nodeMap[id].successors| ==> nodeMap[id].successors[j] in Finished(visited)
    ensures Searching(g, visited[id := Done], stack)
    ensures Finished(visited[id := Done]) == Finished(visited) + {id}
  {
    var deeper := stack + [id];
    assert deeper[|stack|] == id;
    assert id in deeper;
    assert Finished(visited[id := Done]) == Finished(visited) + {id};
    forall v | (id, v) in g.arcs
      ensures v in Finished(visited)
    {
      assert v in Successors(nodeMap, id);
    }
    FinishNode(g, Finished(visited), id);
    forall i | 0 <= i < |stack| - 1
      ensures (stack[i], stack[i + 1]) in g.arcs
    {
      assert (deeper[i], deeper[i + 1]) in g.arcs;
    }
    forall i | 0 <= i < |stack|
      ensures stack[i] in g.nodes
    {
      assert deeper[i] in g.nodes;
    }
  }

  lemma Leaf(g: Graph, visited: map<Id, Colour>, stack: seq<Id>, id: Id)
    requires Searching(g, visited, stack) && id in Universe(g) && id !in g.nodes && id !in visited
    ensures Searching(g, visited[id := Visiting][id := Done], stack)
    ensures Finished(visited[id := Visiting][id := Done]) == Finished(visited) + {id}
  {
    assert Finished(visited[id := Visiting][id := Done]) == Finished(visited) + {id};
    FinishNode(g, Finished(visited), id);
  }

  lemma Grows(g: Graph, before: map<Id, Colour>, after: map<Id, Colour>, id: Id)
    requires id in Universe(g) && id !in before && before.Keys + {id} <= after.Keys
    ensures Universe(g) - after.Keys < Universe(g) - before.Keys
  {
    assert id in Universe(g) - before.Keys;
  }

  /** True exactly when the declared nodes contain a cycle. */
  method HasCycle(ghost g: Graph, nodes: seq<Id>, nodeMap: map<Id, Node>) returns (found: bool)
    requires Describes(nodeMap, g) && Elements(nodes) == g.nodes
    ensures found <==> Cyclic(g)
  {
    var visited: map<Id, Colour> := map[];
    for i := 0 to |nodes|
      invariant Searching(g, visited, [])
      invariant forall j :: 0 <= j < i ==> nodes[j] in Finished(visited)
    {
      assert nodes[i] in Elements(nodes);
      if nodes[i] !in visited {
        found, visited := Visit(g, nodeMap, nodes[i], visited, []);
        if found {
          return;
        }
      } else {
        assert visited[nodes[i]] == Done;
      }
    }
    forall n | n in g.nodes
      ensures n in Finished(visited)
    {
      assert n in Elements(nodes);
    }
    found := false;
  }

  // ----- Reachability -----

  /** `reached` is found from `starts`, and only the nodes on the stack may lead out of it. */
  ghost predicate Reaching(g: Graph, starts: set<Id>, reached: set<Id>, stack: set<Id>) {
    && stack <= reached <= Universe(g)
    && (forall v :: v in reached ==> ReachableFrom(g, starts, v))
    && (forall u, v :: u in reached && u !in stack && u in g.nodes && (u, v) in g.arcs ==> v in reached)
  }

  method Reach(ghost g: Graph, ghost starts: set<Id>, nodeMap: map<Id, Node>, id: Id, reached0: set<Id>,
               ghost stack: set<Id>)
    returns (reached: set<Id>)
    requires Describes(nodeMap, g) && id in Universe(g) && ReachableFrom(g, starts, id)
    requires Reaching(g, starts, reached0, stack)
    ensures Reaching(g, starts, reached, stack) && reached0 <= reached && id in reached
    decreases Universe(g) - reached0
  {
    if id in reached0 {
      return reached0;
    }
    reached := reached0 + {id};
    if id in nodeMap {
      var successors := nodeMap[id].successors;
      for i := 0 to |successors|
        invariant Reaching(g, starts, reached, stack + {id})
        invariant reached0 + {id} <= reached
        invariant forall j :: 0 <= j < i ==> successors[j] in reached
      {
        assert successors[i] in Successors(nodeMap, id);
        ExtendSearchPath(g, starts, id, successors[i]);
        assert id in Universe(g) - reached0;
        reached := Reach(g, starts, nodeMap, successors[i], reached, stack + {id});
      }
      forall v | (id, v) in g.arcs
        ensures v in reached
      {
        assert v in Successors(nodeMap, id);
      }
    }
  }

  lemma StartIsReachable(g: Graph, starts: set<Id>, s: Id)
    requires s in starts
    ensures ReachableFrom(g, starts, s)
  {
    assert SearchPath(g, starts, s, [s]);
  }

  /** Everything the roots lead to, ids that are no unit included. */
  method ReachableSet(ghost g: Graph, ghost starts: set<Id>, nodes: seq<Id>, nodeMap: map<Id, Node>,
                      inDegree: map<Id, int>)
    returns (reached: set<Id>)
    requires Describes(nodeMap, g) && Elements(nodes) == g.nodes == inDegree.Keys
    requires starts <= g.nodes
    requires forall n :: n in g.nodes ==> (inDegree[n] == 0 <==> n in starts)
    ensures forall v :: v in reached <==> ReachableFrom(g, starts, v)
  {
    reached := {};
    for i := 0 to |nodes|
      invariant Reaching(g, starts, reached, {})
      invariant forall j :: 0 <= j < i && nodes[j] in starts ==> nodes[j] in reached
    {
      assert nodes[i] in Elements(nodes);
      if inDegree[nodes[i]] == 0 {
        StartIsReachable(g, starts, nodes[i]);
        reached := Reach(g, starts, nodeMap, nodes[i], reached, {});
      }
    }
    ReachedEverything(g, nodes, starts, reached);
  }

  lemma ReachedEverything(g: Graph, nodes: seq<Id>, starts: set<Id>, reached: set<Id>)
    requires Reaching(g, starts, reached, {}) && starts <= Elements(nodes)
    requires forall j :: 0 <= j < |nodes| && nodes[j] in starts ==> nodes[j] in reached
    ensures forall v :: v in reached <==> ReachableFrom(g, starts, v)
  {
    forall v | ReachableFrom(g, starts, v)
      ensures v in reached
    {
      var p :| SearchPath(g, starts, v, p);
      PathIsReached(g, starts, reached, v, p, |p| - 1);
    }
  }

  lemma {:induction false} PathIsReached(g: Graph, starts: set<Id>, reached: set<Id>, v: Id, p: seq<Id>, i: nat)
    requires Reaching(g, starts, reached, {}) && starts <= reached
    requires SearchPath(g, starts, v, p) && i < |p|
    ensures p[i] in reached
  {
    if i > 0 {
      PathIsReached(g, starts, reached, v, p, i - 1);
      assert (p[i - 1], p[i - 1 + 1]) in g.arcs && p[..|p| - 1][i - 1] in g.nodes;
    }
  }
}
