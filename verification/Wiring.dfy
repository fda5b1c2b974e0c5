/** The canonical execution graph and the first half of its builder: nodes and edges. */
module Wiring {
  import opened Ids
  import opened Plans
  import opened Digraph

  datatype Node = Node(
    id: Id,
    activation: Activation,
    predecessors: seq<Id>,
    successors: seq<Id>,
    layer: nat)

  /** `nodes` lists the ids in unit order; `nodeMap` holds the nodes themselves. */
  datatype Ceg = Ceg(
    nodes: seq<Id>,
    edges: seq<Edge>,
    nodeMap: map<Id, Node>,
    inDegree: map<Id, int>,
    layers: seq<seq<Id>>,
    maxDepth: nat)

  // ----- What the edges of an RIR say -----

  function GraphOf(ids: set<Id>, edges: seq<Edge>): Graph {
    Graph(ids, set e | e in edges :: (e.from, e.to))
  }

  /** The targets of the edges out of `u`, in edge order and with repetitions. */
  function Targets(edges: seq<Edge>, u: Id): seq<Id> {
    if edges == [] then []
    else
      var e := edges[|edges| - 1];
      Targets(edges[..|edges| - 1], u) + if e.from == u then [e.to] else []
  }

  /** The sources of the edges into `v`, in edge order and with repetitions. */
  function Sources(edges: seq<Edge>, v: Id): seq<Id> {
    if edges == [] then []
    else
      var e := edges[|edges| - 1];
      Sources(edges[..|edges| - 1], v) + if e.to == v then [e.from] else []
  }

  /** How many edges into `v` come from outside `done`. */
  function Pending(edges: seq<Edge>, v: Id, done: set<Id>): nat {
    if edges == [] then 0
    else
      var e := edges[|edges| - 1];
      Pending(edges[..|edges| - 1], v, done) + if e.to == v && e.from !in done then 1 else 0
  }

  lemma {:induction false} SourcesAre(edges: seq<Edge>, v: Id)
    ensures forall u :: u in Sources(edges, v) <==> exists e :: e in edges && e.from == u && e.to == v
    ensures |Sources(edges, v)| == Pending(edges, v, {})
  {
    if edges != [] {
      SourcesAre(edges[..|edges| - 1], v);
      assert edges == edges[..|edges| - 1] + [edges[|edges| - 1]];
    }
  }

  lemma {:induction false} SourcesAreFew(edges: seq<Edge>, n: Id)
    ensures |Sources(edges, n)| <= |edges|
  {
    if edges != [] {
      SourcesAreFew(edges[..|edges| - 1], n);
    }
  }

  lemma {:induction false} SourcesJoin(a: seq<Edge>, b: seq<Edge>, n: Id)
    ensures Sources(a + b, n) == Sources(a, n) + Sources(b, n)
  {
    if b == [] {
      assert a + b == a;
    } else {
      assert (a + b)[..|a + b| - 1] == a + b[..|b| - 1];
      SourcesJoin(a, b[..|b| - 1], n);
    }
  }

  lemma {:induction false} TargetsAre(edges: seq<Edge>, u: Id)
    ensures forall v :: v in Targets(edges, u) <==> exists e :: e in edges && e.from == u && e.to == v
  {
    if edges != [] {
      TargetsAre(edges[..|edges| - 1], u);
      assert edges == edges[..|edges| - 1] + [edges[|edges| - 1]];
    }
  }

  lemma {:induction false} NothingPending(edges: seq<Edge>, v: Id, done: set<Id>)
    ensures Pending(edges, v, done) == 0 <==> forall e :: e in edges && e.to == v ==> e.from in done
  {
    if edges != [] {
      NothingPending(edges[..|edges| - 1], v, done);
      assert edges == edges[..|edges| - 1] + [edges[|edges| - 1]];
    }
  }

  /** Finishing `u` takes off exactly the edges from `u`. */
  lemma {:induction false} PendingDrops(edges: seq<Edge>, u: Id, v: Id, done: set<Id>)
    requires u !in done
    ensures Pending(edges, v, done) == Pending(edges, v, done + {u}) + multiset(Targets(edges, u))[v]
  {
    if edges != [] {
      PendingDrops(edges[..|edges| - 1], u, v, done);
    }
  }

  // ----- Wiring -----

  ghost predicate NodeWired(edges: seq<Edge>, n: Id, node: Node) {
    && node.id == n
    && node.predecessors == Sources(edges, n)
    && multiset(node.successors) == multiset(Targets(edges, n))
  }

  /** The node table has the nodes `ids` and records, up to the order of successors, the edges. */
  ghost predicate Wired(ids: set<Id>, edges: seq<Edge>, nodeMap: map<Id, Node>) {
    nodeMap.Keys == ids && forall n :: n in nodeMap ==> NodeWired(edges, n, nodeMap[n])
  }

  ghost predicate SameActivations(a: map<Id, Node>, b: map<Id, Node>) {
    a.Keys == b.Keys && forall n :: n in a ==> a[n].activation == b[n].activation
  }

  /** Replacing one node by a rewired copy keeps the rest of the table. */
  lemma Rewire(ids: set<Id>, edges: seq<Edge>, nodeMap: map<Id, Node>, n: Id, node: Node)
    requires Wired(ids, edges, nodeMap) && n in nodeMap
    requires NodeWired(edges, n, node) && node.activation == nodeMap[n].activation
    ensures Wired(ids, edges, nodeMap[n := node]) && SameActivations(nodeMap, nodeMap[n := node])
  {
    assert nodeMap[n := node].Keys == nodeMap.Keys;
  }

  ghost predicate Degrees(edges: seq<Edge>, ids: set<Id>, inDegree: map<Id, int>) {
    inDegree.Keys == ids && forall n :: n in ids ==> inDegree[n] == |Sources(edges, n)|
  }

  ghost predicate Lists(units: seq<Unit>, nodes: seq<Id>) {
    |nodes| == |units| && forall i :: 0 <= i < |units| ==> nodes[i] == units[i].id
  }

  /** Each unit's activation rule is the one in the node table. */
  ghost predicate Activations(units: seq<Unit>, nodeMap: map<Id, Node>) {
    forall i :: 0 <= i < |units| ==> units[i].id in nodeMap && nodeMap[units[i].id].activation == units[i].activation
  }

  lemma AddOne(units: seq<Unit>, i: nat, nodes: seq<Id>, nodeMap: map<Id, Node>, inDegree: map<Id, int>)
    requires UniqueIds(units) && i < |units|
    requires Lists(units[..i], nodes) && Activations(units[..i], nodeMap)
    requires Wired(Elements(nodes), [], nodeMap) && Degrees([], Elements(nodes), inDegree)
    ensures var u := units[i];
            && Lists(units[..i + 1], nodes + [u.id])
            && Activations(units[..i + 1], nodeMap[u.id := Node(u.id, u.activation, [], [], 0)])
            && Wired(Elements(nodes + [u.id]), [], nodeMap[u.id := Node(u.id, u.activation, [], [], 0)])
            && Degrees([], Elements(nodes + [u.id]), inDegree[u.id := 0])
  {
    assert Elements(nodes + [units[i].id]) == Elements(nodes) + {units[i].id};
  }

  method AddNodes(units: seq<Unit>) returns (nodes: seq<Id>, nodeMap: map<Id, Node>, inDegree: map<Id, int>)
    requires UniqueIds(units)
    ensures Lists(units, nodes) && Activations(units, nodeMap)
    ensures nodeMap.Keys == Elements(nodes)
    ensures Wired(Elements(nodes), [], nodeMap) && Degrees([], Elements(nodes), inDegree)
  {
    nodes, nodeMap, inDegree := [], map[], map[];
    for i := 0 to |units|
      invariant Lists(units[..i], nodes) && Activations(units[..i], nodeMap)
      invariant Wired(Elements(nodes), [], nodeMap) && Degrees([], Elements(nodes), inDegree)
    {
      var u := units[i];
      AddOne(units, i, nodes, nodeMap, inDegree);
      nodes := nodes + [u.id];
      nodeMap := nodeMap[u.id := Node(u.id, u.activation, [], [], 0)];
      inDegree := inDegree[u.id := 0];
    }
    assert units[..|units|] == units;
  }

  lemma EdgeAdds(edges: seq<Edge>, e: Edge, n: Id)
    ensures Sources(edges + [e], n) == Sources(edges, n) + if e.to == n then [e.from] else []
    ensures Targets(edges + [e], n) == Targets(edges, n) + if e.from == n then [e.to] else []
  {
    assert (edges + [e])[..|edges|] == edges;
  }

  /** The entry of one node after the edge `e` was added. */
  function Grown(n: Id, node: Node, e: Edge): Node {
    node.(successors := if e.from == n then node.successors + [e.to] else node.successors,
          predecessors := if e.to == n then node.predecessors + [e.from] else node.predecessors)
  }

  lemma GrownIsWired(edges: seq<Edge>, e: Edge, n: Id, node: Node)
    requires NodeWired(edges, n, node)
    ensures NodeWired(edges + [e], n, Grown(n, node, e))
  {
    EdgeAdds(edges, e, n);
  }

  method AddEdges(edges: seq<Edge>, nodeMap0: map<Id, Node>, inDegree0: map<Id, int>)
    returns (nodeMap: map<Id, Node>, inDegree: map<Id, int>)
    requires Wired(nodeMap0.Keys, [], nodeMap0) && Degrees([], nodeMap0.Keys, inDegree0)
    ensures Wired(nodeMap0.Keys, edges, nodeMap) && Degrees(edges, nodeMap0.Keys, inDegree)
    ensures SameActivations(nodeMap0, nodeMap)
  {
    nodeMap, inDegree := nodeMap0, inDegree0;
    for i := 0 to |edges|
      invariant Wired(nodeMap0.Keys, edges[..i], nodeMap) && Degrees(edges[..i], nodeMap0.Keys, inDegree)
      invariant SameActivations(nodeMap0, nodeMap)
    {
      var e := edges[i];
      ghost var before, degreesBefore := nodeMap, inDegree;
      nodeMap, inDegree := AttachEdge(e, nodeMap, inDegree);
      GrownTableIsWired(edges[..i], e, before, nodeMap);
      DegreesGrow(edges[..i], e, nodeMap0.Keys, degreesBefore, inDegree);
      assert edges[..i + 1] == edges[..i] + [e];
    }
    assert edges[..|edges|] == edges;
  }

  /** Links `e` into the two nodes it touches, as far as they exist. */
  method AttachEdge(e: Edge, nodeMap0: map<Id, Node>, inDegree0: map<Id, int>)
    returns (nodeMap: map<Id, Node>, inDegree: map<Id, int>)
    requires inDegree0.Keys == nodeMap0.Keys
    ensures nodeMap.Keys == nodeMap0.Keys
    ensures forall n :: n in nodeMap0 ==> nodeMap[n] == Grown(n, nodeMap0[n], e)
    ensures inDegree == if e.to in inDegree0 then inDegree0[e.to := inDegree0[e.to] + 1] else inDegree0
  {
    nodeMap, inDegree := nodeMap0, inDegree0;
    if e.from in nodeMap {
      var from := nodeMap[e.from];
      nodeMap := nodeMap[e.from := from.(successors := from.successors + [e.to])];
    }
    if e.to in nodeMap {
      var to := nodeMap[e.to];
      nodeMap := nodeMap[e.to := to.(predecessors := to.predecessors + [e.from])];
      inDegree := inDegree[e.to := inDegree[e.to] + 1];
    }
  }

  lemma DegreesGrow(edges: seq<Edge>, e: Edge, ids: set<Id>, before: map<Id, int>, after: map<Id, int>)
    requires Degrees(edges, ids, before)
    requires after == if e.to in ids then before[e.to := before[e.to] + 1] else before
    ensures Degrees(edges + [e], ids, after)
  {
  }

  lemma GrownTableIsWired(edges: seq<Edge>, e: Edge, before: map<Id, Node>, after: map<Id, Node>)
    requires Wired(before.Keys, edges, before) && after.Keys == before.Keys
    requires forall n :: n in before ==> after[n] == Grown(n, before[n], e)
    ensures Wired(before.Keys, edges + [e], after) && SameActivations(before, after)
  {
    forall n | n in after
      ensures NodeWired(edges + [e], n, after[n])
    {
      GrownIsWired(edges, e, n, before[n]);
    }
  }
}
