/** Kahn's algorithm, layer by layer. */
module Kahn {
  import opened Ids
  import opened Plans
  import opened Digraph
  import opened Wiring

  function Count(m: map<Id, int>, v: Id): int {
    if v in m then m[v] else 0
  }

  /** What releasing a list of targets does to the in-degrees. */
  ghost predicate Releases(targets: seq<Id>, inDeg0: map<Id, int>, inDeg: map<Id, int>, released: seq<Id>) {
    && inDeg.Keys == inDeg0.Keys + Elements(targets)
    && (forall v :: Count(inDeg, v) == Count(inDeg0, v) - multiset(targets)[v])
    && Distinct(released)
    && (forall v :: v in released <==> 0 < Count(inDeg0, v) <= multiset(targets)[v])
  }

  lemma ReleasesForgetsOrder(a: seq<Id>, b: seq<Id>, inDeg0: map<Id, int>, inDeg: map<Id, int>, released: seq<Id>)
    requires multiset(a) == multiset(b) && Releases(a, inDeg0, inDeg, released)
    ensures Releases(b, inDeg0, inDeg, released)
  {
    SameMultiset(a, b);
    assert Elements(a) == Elements(b);
  }

  lemma ReleaseOne(targets: seq<Id>, succ: Id, inDeg0: map<Id, int>, inDeg: map<Id, int>, released: seq<Id>)
    requires Releases(targets, inDeg0, inDeg, released)
    ensures var left := Count(inDeg, succ) - 1;
            Releases(targets + [succ], inDeg0, inDeg[succ := left], if left == 0 then released + [succ] else released)
  {
    assert Elements(targets + [succ]) == Elements(targets) + {succ};
  }

  /** Takes one off the in-degree of every listed successor and queues those that reach zero. */
  method Release(successors: seq<Id>, inDeg0: map<Id, int>) returns (inDeg: map<Id, int>, released: seq<Id>)
    ensures Releases(successors, inDeg0, inDeg, released)
  {
    inDeg, released := inDeg0, [];
    for i := 0 to |successors|
      invariant Releases(successors[..i], inDeg0, inDeg, released)
    {
      var succ := successors[i];
      assert successors[..i + 1] == successors[..i] + [succ];
      ReleaseOne(successors[..i], succ, inDeg0, inDeg, released);
      inDeg := inDeg[succ := Count(inDeg, succ) - 1];
      if inDeg[succ] == 0 {
        released := released + [succ];
      }
    }
    assert successors[..|successors|] == successors;
  }

  ghost predicate IsLayer(g: Graph, k: nat, ids: seq<Id>) {
    Sorted(ids) && Distinct(ids) && Elements(ids) == Layer(g, k)
  }

  ghost predicate KahnPrefix(g: Graph, layers: seq<seq<Id>>) {
    forall k :: 0 <= k < |layers| ==> layers[k] != [] && IsLayer(g, k, layers[k])
  }

  /** `layers` are the rounds of peeling, each non-empty and in id order, up to the last one. */
  ghost predicate KahnLayers(g: Graph, layers: seq<seq<Id>>) {
    && KahnPrefix(g, layers)
    && Settled(g, |layers| + 1) == Settled(g, |layers|)
  }

  /** In-degrees count the edges that still wait; ids that are no unit never reach zero. */
  ghost predicate Counts(g: Graph, edges: seq<Edge>, done: set<Id>, inDeg: map<Id, int>) {
    && g.nodes <= inDeg.Keys
    && (forall v :: v in inDeg ==> if v in g.nodes then inDeg[v] == Pending(edges, v, done) else inDeg[v] < 0)
  }

  /** Waiting on nothing outside `done` is having all predecessors in `done`. */
  lemma PendingIsPredecessors(ids: set<Id>, edges: seq<Edge>, done: set<Id>)
    ensures forall v :: Pending(edges, v, done) == 0 <==> PredecessorsIn(GraphOf(ids, edges), v, done)
  {
    var g := GraphOf(ids, edges);
    forall v
      ensures Pending(edges, v, done) == 0 <==> PredecessorsIn(g, v, done)
    {
      NothingPending(edges, v, done);
      if Pending(edges, v, done) == 0 {
        forall u | (u, v) in g.arcs
          ensures u in done
        {
          var e :| e in edges && (e.from, e.to) == (u, v);
        }
      } else {
        var e :| e in edges && e.to == v && e.from !in done;
        assert (e.from, v) in g.arcs;
      }
    }
  }

  /** The nodes finished when `i` nodes of round `layer` are. */
  ghost function Finished(g: Graph, layer: nat, current: seq<Id>, i: nat): set<Id>
    requires i <= |current|
  {
    Settled(g, layer) + Elements(current[..i])
  }

  /** Midway through a round: `next` are the nodes this round has freed so far. */
  ghost predicate Midway(g: Graph, edges: seq<Edge>, layer: nat, current: seq<Id>, i: nat,
                         inDeg: map<Id, int>, next: seq<Id>)
  {
    && i <= |current|
    && Counts(g, edges, Finished(g, layer, current, i), inDeg)
    && Distinct(next)
    && (forall v :: v in next <==>
          && v in g.nodes && v !in Settled(g, layer + 1)
          && Pending(edges, v, Finished(g, layer, current, i)) == 0)
  }

  lemma RoundStarts(ids: set<Id>, edges: seq<Edge>, layer: nat, current: seq<Id>, inDeg: map<Id, int>)
    requires var g := GraphOf(ids, edges); Counts(g, edges, Settled(g, layer), inDeg)
    ensures Midway(GraphOf(ids, edges), edges, layer, current, 0, inDeg, [])
  {
    var g := GraphOf(ids, edges);
    assert Finished(g, layer, current, 0) == Settled(g, layer);
    PendingIsPredecessors(ids, edges, Settled(g, layer));
  }

  lemma RoundEnds(ids: set<Id>, edges: seq<Edge>, layer: nat, current: seq<Id>, inDeg: map<Id, int>, next: seq<Id>)
    requires var g := GraphOf(ids, edges);
             Midway(g, edges, layer, current, |current|, inDeg, next) && IsLayer(g, layer, current)
    ensures var g := GraphOf(ids, edges);
            && Counts(g, edges, Settled(g, layer + 1), inDeg)
            && IsLayer(g, layer + 1, Sort(next))
  {
    var g := GraphOf(ids, edges);
    SortKeepsMembers(next);
    assert current[..|current|] == current;
    SettledGrows(g, layer, layer + 1);
    assert Finished(g, layer, current, |current|) == Settled(g, layer + 1);
    PendingIsPredecessors(ids, edges, Settled(g, layer + 1));
  }

  lemma FinishedGrows(g: Graph, layer: nat, current: seq<Id>, i: nat)
    requires IsLayer(g, layer, current) && i < |current|
    ensures current[i] in g.nodes && current[i] !in Finished(g, layer, current, i)
    ensures Finished(g, layer, current, i + 1) == Finished(g, layer, current, i) + {current[i]}
  {
    var id := current[i];
    assert current[..i + 1] == current[..i] + [id];
    assert id in Elements(current) && id !in current[..i];
  }

  /** One step of the inner loop: a node of the layer is finished and its successors released. */
  lemma FinishOne(ids: set<Id>, edges: seq<Edge>, layer: nat, current: seq<Id>, i: nat,
                  inDeg0: map<Id, int>, inDeg: map<Id, int>, next: seq<Id>, released: seq<Id>)
    requires IsLayer(GraphOf(ids, edges), layer, current) && i < |current|
    requires Midway(GraphOf(ids, edges), edges, layer, current, i, inDeg0, next)
    requires Releases(Targets(edges, current[i]), inDeg0, inDeg, released)
    ensures Midway(GraphOf(ids, edges), edges, layer, current, i + 1, inDeg, next + released)
  {
    var g, id := GraphOf(ids, edges), current[i];
    var done := Finished(g, layer, current, i);
    FinishedGrows(g, layer, current, i);
    PendingDropsAll(edges, id, done);
    CountsStep(g, edges, done, id, inDeg0, inDeg, released);
    PendingIsPredecessors(ids, edges, done);
    PendingIsPredecessors(ids, edges, Settled(g, layer));
    forall v
      ensures v in next + released <==>
                v in g.nodes && v !in Settled(g, layer + 1) && Pending(edges, v, done + {id}) == 0
    {
      if v in g.nodes {
        assert Count(inDeg0, v) == Pending(edges, v, done);
        assert v in Settled(g, layer + 1) ==> Pending(edges, v, done) == 0;
      }
    }
    DistinctAppend(next, released);
  }

  lemma PendingDropsAll(edges: seq<Edge>, id: Id, done: set<Id>)
    requires id !in done
    ensures forall v :: Pending(edges, v, done) == Pending(edges, v, done + {id}) + multiset(Targets(edges, id))[v]
  {
    forall v {
      PendingDrops(edges, id, v, done);
    }
  }

  lemma CountsStep(g: Graph, edges: seq<Edge>, done: set<Id>, id: Id,
                   inDeg0: map<Id, int>, inDeg: map<Id, int>, released: seq<Id>)
    requires Counts(g, edges, done, inDeg0) && id !in done
    requires Releases(Targets(edges, id), inDeg0, inDeg, released)
    ensures Counts(g, edges, done + {id}, inDeg)
  {
    PendingDropsAll(edges, id, done);
    var targets := Targets(edges, id);
    forall v | v in inDeg
      ensures if v in g.nodes then inDeg[v] == Pending(edges, v, done + {id}) else inDeg[v] < 0
    {
      assert inDeg[v] == Count(inDeg0, v) - multiset(targets)[v];
      assert v in inDeg0 || v in multiset(targets);
    }
  }

  lemma SortKeepsMembers(ids: seq<Id>)
    ensures Distinct(Sort(ids)) == Distinct(ids) && Elements(Sort(ids)) == Elements(ids)
  {
    SameMultiset(Sort(ids), ids);
  }

  lemma StartCounts(ids: set<Id>, edges: seq<Edge>, inDegree: map<Id, int>)
    requires Degrees(edges, ids, inDegree)
    ensures Counts(GraphOf(ids, edges), edges, {}, inDegree)
  {
    forall n
      ensures |Sources(edges, n)| == Pending(edges, n, {})
    {
      SourcesAre(edges, n);
    }
  }

  lemma Shrinks(g: Graph, layer: nat, current: seq<Id>)
    requires IsLayer(g, layer, current) && current != []
    ensures |g.nodes - Settled(g, layer + 1)| < |g.nodes - Settled(g, layer)|
  {
    SettledGrows(g, layer, layer + 1);
    assert current[0] in Elements(current);
    Smaller(g.nodes - Settled(g, layer + 1), g.nodes - Settled(g, layer), current[0]);
  }

  lemma Smaller<T>(a: set<T>, b: set<T>, x: T)
    requires a <= b && x in b && x !in a
    ensures |a| < |b|
  {
    assert b == a + (b - a) && x in b - a;
  }

  lemma KahnPrefixGrows(g: Graph, layers: seq<seq<Id>>, current: seq<Id>)
    requires KahnPrefix(g, layers) && current != [] && IsLayer(g, |layers|, current)
    ensures KahnPrefix(g, layers + [current])
  {
  }

  /** Which layer each finished node was given. */
  ghost predicate Recorded(layers: seq<seq<Id>>, nodeLayer: map<Id, nat>) {
    forall n, k :: 0 <= k < |layers| && n in layers[k] ==> n in nodeLayer && nodeLayer[n] == k
  }

  /** A node enters no two layers, so recording a new layer leaves the earlier ones alone. */
  lemma RecordedGrows(g: Graph, layers: seq<seq<Id>>, current: seq<Id>, before: map<Id, nat>)
    requires IsLayer(g, |layers|, current)
    requires Recorded(layers, before) && before.Keys <= Settled(g, |layers|)
    ensures var after := before + AllAt(current, |current|, |layers|);
            Recorded(layers + [current], after) && after.Keys <= Settled(g, |layers| + 1)
  {
    var after := before + AllAt(current, |current|, |layers|);
    SettledGrows(g, |layers|, |layers| + 1);
    assert current[..|current|] == current;
    assert forall n :: n in current <==> n in Elements(current);
  }

  method Roots(ghost ids: set<Id>, ghost edges: seq<Edge>, nodes: seq<Id>, inDegree: map<Id, int>)
    returns (queue: seq<Id>)
    requires Distinct(nodes) && Elements(nodes) == ids && Degrees(edges, ids, inDegree)
    ensures IsLayer(GraphOf(ids, edges), 0, queue)
  {
    queue := [];
    for i := 0 to |nodes|
      invariant Distinct(queue)
      invariant forall v :: v in queue <==> v in nodes[..i] && v in inDegree && inDegree[v] == 0
    {
      assert nodes[..i + 1] == nodes[..i] + [nodes[i]];
      assert nodes[i] in Elements(nodes) && nodes[i] !in nodes[..i];
      if inDegree[nodes[i]] == 0 {
        queue := queue + [nodes[i]];
      }
    }
    assert nodes[..|nodes|] == nodes;
    ghost var g := GraphOf(ids, edges);
    PendingIsPredecessors(ids, edges, {});
    forall v
      ensures v in queue <==> v in Layer(g, 0)
    {
      SourcesAre(edges, v);
      assert v in nodes <==> v in Elements(nodes);
    }
    SortKeepsMembers(queue);
    queue := Sort(queue);
  }

  ghost predicate Assigned(ids: seq<Id>, nodeLayer: map<Id, nat>, nodeMap: map<Id, Node>) {
    forall n :: n in ids && n in nodeLayer ==> n in nodeMap && nodeMap[n].layer == nodeLayer[n]
  }

  lemma AssignNext(nodes: seq<Id>, i: nat, nodeLayer: map<Id, nat>, nodeMap: map<Id, Node>)
    requires i < |nodes| && nodes[i] in nodeMap && Assigned(nodes[..i], nodeLayer, nodeMap)
    ensures var n := nodes[i];
            var layer := if n in nodeLayer then nodeLayer[n] else 0;
            Assigned(nodes[..i + 1], nodeLayer, nodeMap[n := nodeMap[n].(layer := layer)])
  {
    assert nodes[..i + 1] == nodes[..i] + [nodes[i]];
  }

  lemma AssignOne(ids: set<Id>, edges: seq<Edge>, before: map<Id, Node>, nodeMap: map<Id, Node>, n: Id, layer: nat)
    requires Wired(ids, edges, nodeMap) && SameActivations(before, nodeMap) && n in ids
    ensures Wired(ids, edges, nodeMap[n := nodeMap[n].(layer := layer)])
    ensures SameActivations(before, nodeMap[n := nodeMap[n].(layer := layer)])
  {
    assert NodeWired(edges, n, nodeMap[n]);
    Rewire(ids, edges, nodeMap, n, nodeMap[n].(layer := layer));
  }

  method AssignLayers(ghost ids: set<Id>, ghost edges: seq<Edge>,
                      nodes: seq<Id>, nodeMap0: map<Id, Node>, nodeLayer: map<Id, nat>)
    returns (nodeMap: map<Id, Node>)
    requires Elements(nodes) == ids && Wired(ids, edges, nodeMap0)
    ensures Wired(ids, edges, nodeMap) && SameActivations(nodeMap0, nodeMap)
    ensures forall n :: n in nodeMap && n in nodeLayer ==> nodeMap[n].layer == nodeLayer[n]
  {
    nodeMap := nodeMap0;
    for i := 0 to |nodes|
      invariant Wired(ids, edges, nodeMap) && SameActivations(nodeMap0, nodeMap)
      invariant Assigned(nodes[..i], nodeLayer, nodeMap)
    {
      var n := nodes[i];
      assert n in Elements(nodes);
      AssignNext(nodes, i, nodeLayer, nodeMap);
      var layer := if n in nodeLayer then nodeLayer[n] else 0;
      AssignOne(ids, edges, nodeMap0, nodeMap, n, layer);
      nodeMap := nodeMap[n := nodeMap[n].(layer := layer)];
    }
    assert nodes[..|nodes|] == nodes;
    assert forall n :: n in nodeMap ==> n in Elements(nodes);
  }

  /** Takes the next node off the queue, puts its successors in order and releases them. */
  method PopAndFinish(ghost ids: set<Id>, ghost edges: seq<Edge>, queue0: seq<Id>, nodeMap0: map<Id, Node>,
                      inDeg0: map<Id, int>)
    returns (id: Id, nodeMap: map<Id, Node>, inDeg: map<Id, int>, queue: seq<Id>, ghost released: seq<Id>)
    requires queue0 != [] && queue0[0] in ids && Wired(ids, edges, nodeMap0)
    ensures id == queue0[0] && queue == queue0[1..] + released
    ensures Wired(ids, edges, nodeMap) && SameActivations(nodeMap0, nodeMap)
    ensures Releases(Targets(edges, id), inDeg0, inDeg, released)
  {
    id, queue := queue0[0], queue0[1..];
    nodeMap, inDeg, released := nodeMap0, inDeg0, [];
    if id in nodeMap {
      assert NodeWired(edges, id, nodeMap[id]);
      var node := nodeMap[id].(successors := Sort(nodeMap[id].successors));
      Rewire(ids, edges, nodeMap, id, node);
      nodeMap := nodeMap[id := node];
      var freed;
      inDeg, freed := Release(node.successors, inDeg);
      ReleasesForgetsOrder(node.successors, Targets(edges, id), inDeg0, inDeg, freed);
      queue := queue + freed;
      released := freed;
    }
  }

  /** One round: finishes every node of `current` and returns the next layer's queue. */
  method FinishLayer(ghost ids: set<Id>, ghost edges: seq<Edge>, layer: nat, current: seq<Id>,
                     nodeMap0: map<Id, Node>, inDeg0: map<Id, int>, nodeLayer0: map<Id, nat>)
    returns (nodeMap: map<Id, Node>, inDeg: map<Id, int>, nodeLayer: map<Id, nat>, queue: seq<Id>)
    requires Wired(ids, edges, nodeMap0)
    requires var g := GraphOf(ids, edges);
             IsLayer(g, layer, current) && Counts(g, edges, Settled(g, layer), inDeg0)
    ensures Wired(ids, edges, nodeMap) && SameActivations(nodeMap0, nodeMap)
    ensures var g := GraphOf(ids, edges);
            Counts(g, edges, Settled(g, layer + 1), inDeg) && IsLayer(g, layer + 1, queue)
    ensures nodeLayer == nodeLayer0 + AllAt(current, |current|, layer)
  {
    ghost var g := GraphOf(ids, edges);
    nodeMap, inDeg, nodeLayer, queue := nodeMap0, inDeg0, nodeLayer0, current;
    ghost var next: seq<Id> := [];
    RoundStarts(ids, edges, layer, current, inDeg);
    for i := 0 to |current|
      invariant queue == current[i..] + next
      invariant Wired(ids, edges, nodeMap) && SameActivations(nodeMap0, nodeMap)
      invariant nodeLayer == nodeLayer0 + AllAt(current, i, layer)
      invariant Midway(g, edges, layer, current, i, inDeg, next)
    {
      InLayer(g, layer, current, i);
      RecordOne(nodeLayer0, current, i, layer);
      ghost var before, released := inDeg, [];
      var id;
      id, nodeMap, inDeg, queue, released := PopAndFinish(ids, edges, queue, nodeMap, inDeg);
      nodeLayer := nodeLayer[id := layer];
      FinishOne(ids, edges, layer, current, i, before, inDeg, next, released);
      PopOne(current, i, next, released);
      next := next + released;
    }
    RoundEnds(ids, edges, layer, current, inDeg, next);
    assert queue == next;
    queue := Sort(queue);
  }

  lemma InLayer(g: Graph, layer: nat, current: seq<Id>, i: nat)
    requires IsLayer(g, layer, current) && i < |current|
    ensures current[i] in g.nodes
  {
    assert current[i] in Elements(current);
  }

  /** The first `count` nodes of a layer, each with that layer's number. */
  function AllAt(current: seq<Id>, count: nat, layer: nat): map<Id, nat>
    requires count <= |current|
  {
    map n | n in current[..count] :: layer
  }

  lemma PopOne<T>(current: seq<T>, i: nat, next: seq<T>, released: seq<T>)
    requires i < |current|
    ensures (current[i..] + next)[0] == current[i]
    ensures (current[i..] + next)[1..] + released == current[i + 1..] + (next + released)
  {
  }

  lemma RecordOne(nodeLayer: map<Id, nat>, current: seq<Id>, i: nat, layer: nat)
    requires i < |current|
    ensures (nodeLayer + AllAt(current, i, layer))[current[i] := layer] == nodeLayer + AllAt(current, i + 1, layer)
  {
    assert current[..i + 1] == current[..i] + [current[i]];
  }

  lemma NothingLeft(g: Graph, layer: nat)
    requires IsLayer(g, layer, [])
    ensures Settled(g, layer + 1) == Settled(g, layer)
  {
    SettledGrows(g, layer, layer + 1);
    assert Elements<Id>([]) == {};
    assert Layer(g, layer) == {};
    assert Settled(g, layer + 1) == Layer(g, layer) + Settled(g, layer);
  }

  method TopoSort(ghost ids: set<Id>, ghost edges: seq<Edge>,
                  nodes: seq<Id>, nodeMap0: map<Id, Node>, inDegree: map<Id, int>)
    returns (nodeMap: map<Id, Node>, layers: seq<seq<Id>>, maxDepth: nat)
    requires Distinct(nodes) && Elements(nodes) == ids
    requires Wired(ids, edges, nodeMap0) && Degrees(edges, ids, inDegree)
    ensures Wired(ids, edges, nodeMap) && SameActivations(nodeMap0, nodeMap)
    ensures KahnLayers(GraphOf(ids, edges), layers) && maxDepth == |layers|
    ensures forall n, k :: n in nodeMap && 0 <= k < |layers| && n in layers[k] ==> nodeMap[n].layer == k
  {
    var nodeLayer;
    nodeMap, layers, maxDepth, nodeLayer := Peel(ids, edges, nodes, nodeMap0, inDegree);
    nodeMap := AssignLayers(ids, edges, nodes, nodeMap, nodeLayer);
    RecordsTell(layers, nodeLayer, nodeMap);
  }

  lemma RecordsTell(layers: seq<seq<Id>>, nodeLayer: map<Id, nat>, nodeMap: map<Id, Node>)
    requires Recorded(layers, nodeLayer)
    requires forall n :: n in nodeMap && n in nodeLayer ==> nodeMap[n].layer == nodeLayer[n]
    ensures forall n, k :: n in nodeMap && 0 <= k < |layers| && n in layers[k] ==> nodeMap[n].layer == k
  {
  }

  /** The queue loop of the topological sort. */
  method Peel(ghost ids: set<Id>, ghost edges: seq<Edge>,
              nodes: seq<Id>, nodeMap0: map<Id, Node>, inDegree: map<Id, int>)
    returns (nodeMap: map<Id, Node>, layers: seq<seq<Id>>, maxDepth: nat, nodeLayer: map<Id, nat>)
    requires Distinct(nodes) && Elements(nodes) == ids
    requires Wired(ids, edges, nodeMap0) && Degrees(edges, ids, inDegree)
    ensures Wired(ids, edges, nodeMap) && SameActivations(nodeMap0, nodeMap)
    ensures KahnLayers(GraphOf(ids, edges), layers) && maxDepth == |layers|
    ensures Recorded(layers, nodeLayer)
  {
    ghost var g := GraphOf(ids, edges);
    nodeMap, nodeLayer := nodeMap0, map[];
    var inDeg, layer := inDegree, 0;
    var queue := Roots(ids, edges, nodes, inDegree);
    layers, maxDepth := [], 0;
    StartCounts(ids, edges, inDegree);
    while |queue| > 0
      invariant Wired(ids, edges, nodeMap) && SameActivations(nodeMap0, nodeMap)
      invariant layer == |layers| == maxDepth
      invariant Counts(g, edges, Settled(g, layer), inDeg)
      invariant IsLayer(g, layer, queue)
      invariant KahnPrefix(g, layers)
      invariant Recorded(layers, nodeLayer) && nodeLayer.Keys <= Settled(g, layer)
      decreases |g.nodes - Settled(g, layer)|
    {
      var current := queue;
      Shrinks(g, layer, current);
      KahnPrefixGrows(g, layers, current);
      RecordedGrows(g, layers, current, nodeLayer);
      layers := layers + [current];
      maxDepth := layer + 1;
      nodeMap, inDeg, nodeLayer, queue := FinishLayer(ids, edges, layer, current, nodeMap, inDeg, nodeLayer);
      layer := layer + 1;
    }
    NothingLeft(g, layer);
  }
}
