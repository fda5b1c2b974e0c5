/** Building and validating the execution graph, and what acceptance means. */
module Builder {
  import opened Ids
  import opened Plans
  import opened Digraph
  import opened Wiring
  import Kahn
  import Search

  datatype BuildError = CyclesDetected | InDegreeExceeded(node: Id) | MaxDepthExceeded | UnreachableNodes

  datatype BuildResult = Built(ceg: Ceg) | Rejected(error: BuildError)

  const MAX_IN_DEGREE := 1024
  const MAX_DEPTH := 128

  /** The graph an RIR declares. */
  function Declared(rir: Rir): Graph {
    GraphOf(UnitIds(rir.units), rir.edges)
  }

  /** What every built graph says about the RIR it was built from, accepted or not. */
  ghost predicate Represents(rir: Rir, ceg: Ceg) {
    && Lists(rir.units, ceg.nodes) && Distinct(ceg.nodes) && Elements(ceg.nodes) == UnitIds(rir.units)
    && ceg.edges == rir.edges
    && Activations(rir.units, ceg.nodeMap)
    && Wired(UnitIds(rir.units), rir.edges, ceg.nodeMap)
    && Degrees(rir.edges, UnitIds(rir.units), ceg.inDegree)
    && Kahn.KahnLayers(Declared(rir), ceg.layers)
    && ceg.maxDepth == |ceg.layers|
    && (forall n, k :: n in ceg.nodeMap && 0 <= k < |ceg.layers| && n in ceg.layers[k] ==> ceg.nodeMap[n].layer == k)
  }

  // ----- What the validator decides, without its algorithms -----

  ghost predicate WideUnit(rir: Rir, n: Id) {
    n in UnitIds(rir.units) && |Sources(rir.edges, n)| > MAX_IN_DEGREE
  }

  /** Peeling off nodes without waiting predecessors takes more rounds than the limit. */
  ghost predicate TooDeep(rir: Rir) {
    Layer(Declared(rir), MAX_DEPTH) != {}
  }

  /** What a search from the nodes without predecessors meets, units or not. */
  ghost predicate Reachable(rir: Rir, v: Id) {
    ReachableFrom(Declared(rir), Settled(Declared(rir), 1), v)
  }

  /** The search meets as many ids as there are units. */
  ghost predicate ReachesEnough(rir: Rir) {
    exists reached :: ReachIs(rir, reached) && |reached| == |rir.units|
  }

  ghost predicate ReachIs(rir: Rir, reached: set<Id>) {
    forall v :: v in reached <==> Reachable(rir, v)
  }

  ghost predicate Acceptable(rir: Rir) {
    && !Cyclic(Declared(rir))
    && (forall n :: !WideUnit(rir, n))
    && !TooDeep(rir)
    && ReachesEnough(rir)
  }

  /** The first rule, in the validator's order, that an RIR breaks. */
  ghost predicate BreaksFirst(rir: Rir, error: BuildError) {
    if Cyclic(Declared(rir)) then error == CyclesDetected
    else if exists n :: WideUnit(rir, n) then error.InDegreeExceeded? && WideUnit(rir, error.node)
    else if TooDeep(rir) then error == MaxDepthExceeded
    else error == UnreachableNodes && !ReachesEnough(rir)
  }

  lemma DepthLimit(rir: Rir, ceg: Ceg)
    requires Represents(rir, ceg)
    ensures ceg.maxDepth > MAX_DEPTH <==> TooDeep(rir)
  {
    var g := Declared(rir);
    if ceg.maxDepth > MAX_DEPTH {
      var ids := ceg.layers[MAX_DEPTH];
      assert Kahn.IsLayer(g, MAX_DEPTH, ids) && ids[0] in Elements(ids);
    } else {
      SettledStops(g, ceg.maxDepth, MAX_DEPTH);
      SettledStops(g, ceg.maxDepth, MAX_DEPTH + 1);
    }
  }

  lemma RootsHaveDegreeZero(rir: Rir, ceg: Ceg)
    requires Represents(rir, ceg)
    ensures forall n :: n in UnitIds(rir.units) ==> (ceg.inDegree[n] == 0 <==> n in Settled(Declared(rir), 1))
  {
    var g := Declared(rir);
    forall n | n in UnitIds(rir.units)
      ensures ceg.inDegree[n] == 0 <==> n in Settled(g, 1)
    {
      SourcesAre(rir.edges, n);
      Kahn.PendingIsPredecessors(UnitIds(rir.units), rir.edges, {});
      assert Settled(g, 0) == {};
    }
  }

  method Validate(ghost rir: Rir, ceg: Ceg) returns (valid: bool, error: BuildError)
    requires Represents(rir, ceg)
    ensures valid <==> Acceptable(rir)
    ensures !valid ==> BreaksFirst(rir, error)
  {
    ghost var g := Declared(rir);
    Search.WiredDescribes(UnitIds(rir.units), rir.edges, ceg.nodeMap);
    var cyclic := Search.HasCycle(g, ceg.nodes, ceg.nodeMap);
    if cyclic {
      return false, CyclesDetected;
    }
    var wide;
    wide, error := FindWide(rir, ceg);
    if wide {
      return false, error;
    }
    DepthLimit(rir, ceg);
    if ceg.maxDepth > MAX_DEPTH {
      return false, MaxDepthExceeded;
    }
    RootsHaveDegreeZero(rir, ceg);
    var reached := Search.ReachableSet(g, Settled(g, 1), ceg.nodes, ceg.nodeMap, ceg.inDegree);
    SameReach(rir, reached);
    if |reached| != |ceg.nodes| {
      return false, UnreachableNodes;
    }
    return true, UnreachableNodes;
  }

  lemma SameReach(rir: Rir, reached: set<Id>)
    requires ReachIs(rir, reached)
    ensures ReachesEnough(rir) <==> |reached| == |rir.units|
  {
    if ReachesEnough(rir) {
      var other :| ReachIs(rir, other) && |other| == |rir.units|;
      assert other == reached;
    }
  }

  method FindWide(ghost rir: Rir, ceg: Ceg) returns (found: bool, error: BuildError)
    requires Represents(rir, ceg)
    ensures found ==> error.InDegreeExceeded? && WideUnit(rir, error.node)
    ensures !found ==> forall n :: !WideUnit(rir, n)
  {
    found, error := false, CyclesDetected;
    for i := 0 to |ceg.nodes|
      invariant forall j :: 0 <= j < i ==> !WideUnit(rir, ceg.nodes[j])
    {
      var n := ceg.nodes[i];
      assert n in Elements(ceg.nodes);
      assert NodeWired(rir.edges, n, ceg.nodeMap[n]);
      if |ceg.nodeMap[n].predecessors| > MAX_IN_DEGREE {
        return true, InDegreeExceeded(n);
      }
    }
    forall n | n in UnitIds(rir.units)
      ensures !WideUnit(rir, n)
    {
      assert n in Elements(ceg.nodes);
    }
  }

  /** Builds the graph, or says which rule the RIR breaks first. */
  method Build(rir: Rir) returns (r: BuildResult)
    requires UniqueIds(rir.units)
    ensures r.Built? <==> Acceptable(rir)
    ensures r.Built? ==> Represents(rir, r.ceg)
    ensures r.Rejected? ==> BreaksFirst(rir, r.error)
  {
    var nodes, nodeMap, inDegree := AddNodes(rir.units);
    NodesAreUnits(rir.units, nodes);
    ghost var wired := nodeMap;
    nodeMap, inDegree := AddEdges(rir.edges, nodeMap, inDegree);
    var layers, maxDepth;
    nodeMap, layers, maxDepth := Kahn.TopoSort(UnitIds(rir.units), rir.edges, nodes, nodeMap, inDegree);
    var ceg := Ceg(nodes, rir.edges, nodeMap, inDegree, layers, maxDepth);
    assert Activations(rir.units, nodeMap);
    var valid, error := Validate(rir, ceg);
    r := if valid then Built(ceg) else Rejected(error);
  }

  lemma NodesAreUnits(units: seq<Unit>, nodes: seq<Id>)
    requires UniqueIds(units) && Lists(units, nodes)
    ensures Distinct(nodes) && Elements(nodes) == UnitIds(units)
  {
  }

  // ----- What acceptance means -----

  /** Every unit is in some layer, and in one only. */
  ghost predicate Partitions(rir: Rir, layers: seq<seq<Id>>) {
    && (forall n :: n in UnitIds(rir.units) ==> exists k :: 0 <= k < |layers| && n in layers[k])
    && (forall j, k, n :: 0 <= j < |layers| && 0 <= k < |layers| && n in layers[j] && n in layers[k] ==> j == k)
  }

  lemma {:induction false} SettledIsLayered(g: Graph, layers: seq<seq<Id>>, n: Id, m: nat)
    requires Kahn.KahnPrefix(g, layers) && m <= |layers| && n in Settled(g, m)
    ensures exists k :: 0 <= k < m && n in layers[k]
  {
    if n in Settled(g, m - 1) {
      SettledIsLayered(g, layers, n, m - 1);
    } else {
      assert Kahn.IsLayer(g, m - 1, layers[m - 1]);
      assert n in Elements(layers[m - 1]);
    }
  }

  lemma AllSettledPartition(rir: Rir, ceg: Ceg)
    requires Represents(rir, ceg) && Settled(Declared(rir), |ceg.layers|) == UnitIds(rir.units)
    ensures Partitions(rir, ceg.layers)
  {
    var g, layers := Declared(rir), ceg.layers;
    forall n | n in g.nodes
      ensures exists k :: 0 <= k < |layers| && n in layers[k]
    {
      SettledIsLayered(g, layers, n, |layers|);
    }
    forall j, k, n | 0 <= j < |layers| && 0 <= k < |layers| && n in layers[j] && n in layers[k]
      ensures j == k
    {
      InOneLayer(g, layers, j, k, n);
    }
  }

  lemma LayeredIsSettled(g: Graph, layers: seq<seq<Id>>, k: nat, n: Id)
    requires Kahn.KahnPrefix(g, layers) && k < |layers| && n in layers[k]
    ensures n in Settled(g, |layers|)
  {
    assert Kahn.IsLayer(g, k, layers[k]) && n in Elements(layers[k]);
    SettledGrows(g, k + 1, |layers|);
  }

  /** Kahn's layers hold every unit exactly when the declared graph has no cycle and no
      edge arrives from outside the units: the depth-first cycle check agrees with Kahn
      on precisely the graphs whose edge sources are units. */
  lemma LayersPartitionIff(rir: Rir, ceg: Ceg)
    requires Represents(rir, ceg)
    ensures Partitions(rir, ceg.layers) <==> !Cyclic(Declared(rir)) && SourcesDeclared(Declared(rir))
  {
    var g, layers := Declared(rir), ceg.layers;
    PeelsEverythingIff(g, |layers|);
    if Settled(g, |layers|) == g.nodes {
      AllSettledPartition(rir, ceg);
    } else {
      var n :| n in g.nodes && n !in Settled(g, |layers|);
      forall k | 0 <= k < |layers|
        ensures n !in layers[k]
      {
        if n in layers[k] {
          LayeredIsSettled(g, layers, k, n);
        }
      }
    }
  }

  lemma InOneLayer(g: Graph, layers: seq<seq<Id>>, j: nat, k: nat, n: Id)
    requires Kahn.KahnPrefix(g, layers) && j < |layers| && k < |layers| && n in layers[j] && n in layers[k]
    ensures j == k
  {
    assert Kahn.IsLayer(g, j, layers[j]) && Kahn.IsLayer(g, k, layers[k]);
    assert n in Elements(layers[j]) && n in Elements(layers[k]);
    if j < k {
      SettledGrows(g, j + 1, k);
    } else if k < j {
      SettledGrows(g, k + 1, j);
    }
  }

  /** The layer recorded in the node is the one layer that lists it. */
  ghost predicate InItsLayer(ceg: Ceg, n: Id) {
    && n in ceg.nodeMap
    && ceg.nodeMap[n].layer < |ceg.layers|
    && n in ceg.layers[ceg.nodeMap[n].layer]
  }

  lemma EveryUnitIsInItsLayer(rir: Rir, ceg: Ceg, n: Id)
    requires Represents(rir, ceg) && Partitions(rir, ceg.layers) && n in UnitIds(rir.units)
    ensures InItsLayer(ceg, n)
  {
    var m :| 0 <= m < |ceg.layers| && n in ceg.layers[m];
  }

  /** In a graph without cycles whose edge sources are units, a unit's layer is the number of
      edges on the longest path that ends there. */
  lemma LayerIsLongestPath(rir: Rir, ceg: Ceg, n: Id, k: nat)
    requires Represents(rir, ceg) && !Cyclic(Declared(rir)) && SourcesDeclared(Declared(rir))
    requires n in UnitIds(rir.units)
    ensures (InItsLayer(ceg, n) && ceg.nodeMap[n].layer == k) <==>
              (exists p :: Walk(Declared(rir), p) && p[|p| - 1] == n && |p| == k + 1) &&
              (forall p :: Walk(Declared(rir), p) && p[|p| - 1] == n ==> |p| <= k + 1)
  {
    LayerIsLongestWalk(Declared(rir), n, k);
    LayersPartitionIff(rir, ceg);
    EveryUnitIsInItsLayer(rir, ceg, n);
    LayerOfSettled(Declared(rir), ceg.layers, n, ceg.nodeMap[n].layer, k);
  }

  lemma LayerOfSettled(g: Graph, layers: seq<seq<Id>>, n: Id, m: nat, k: nat)
    requires Kahn.KahnPrefix(g, layers) && m < |layers| && n in layers[m]
    ensures n in Layer(g, k) <==> k == m
  {
    assert Kahn.IsLayer(g, m, layers[m]) && n in Elements(layers[m]);
    if k < m {
      SettledGrows(g, k + 1, m);
    } else if m < k {
      SettledGrows(g, m + 1, k);
    }
  }

  /** Every edge between units goes to a strictly later layer. */
  lemma EdgesGoForward(rir: Rir, ceg: Ceg, e: Edge)
    requires Represents(rir, ceg) && !Cyclic(Declared(rir)) && SourcesDeclared(Declared(rir))
    requires e in rir.edges && e.to in UnitIds(rir.units)
    ensures InItsLayer(ceg, e.from) && InItsLayer(ceg, e.to)
    ensures ceg.nodeMap[e.from].layer < ceg.nodeMap[e.to].layer
  {
    var g := Declared(rir);
    assert (e.from, e.to) in g.arcs;
    LayersPartitionIff(rir, ceg);
    EveryUnitIsInItsLayer(rir, ceg, e.from);
    EveryUnitIsInItsLayer(rir, ceg, e.to);
    var j, k := ceg.nodeMap[e.from].layer, ceg.nodeMap[e.to].layer;
    LayerOfSettled(g, ceg.layers, e.to, k, k);
    LayerOfSettled(g, ceg.layers, e.from, j, j);
    ArcGoesForward(g, e.from, j, e.to, k);
  }

  lemma ArcGoesForward(g: Graph, u: Id, j: nat, v: Id, k: nat)
    requires (u, v) in g.arcs && u in Layer(g, j) && v in Layer(g, k)
    ensures j < k
  {
    assert u in Settled(g, k);
    if k <= j {
      SettledGrows(g, k, j);
    }
  }

  /** The recorded depth is the node count of the longest path. */
  lemma DepthIsLongestPath(rir: Rir, ceg: Ceg)
    requires Represents(rir, ceg) && !Cyclic(Declared(rir)) && SourcesDeclared(Declared(rir))
    ensures forall p :: Walk(Declared(rir), p) && Inside(Declared(rir), p) ==> |p| <= ceg.maxDepth
    ensures ceg.maxDepth > 0 ==> exists p :: Walk(Declared(rir), p) && Inside(Declared(rir), p) && |p| == ceg.maxDepth
  {
    var g := Declared(rir);
    PeelsEverythingIff(g, |ceg.layers|);
    forall p | Walk(g, p) && Inside(g, p)
      ensures |p| <= ceg.maxDepth
    {
      assert p[|p| - 1] in g.nodes;
      WalkIsShort(g, p, |ceg.layers|);
    }
    if ceg.maxDepth > 0 {
      var k := ceg.maxDepth - 1;
      var n := ceg.layers[k][0];
      assert Kahn.IsLayer(g, k, ceg.layers[k]) && n in Elements(ceg.layers[k]);
      var p := LongWalkExists(g, n, k);
    }
  }

  lemma UnitIdsSize(units: seq<Unit>)
    requires UniqueIds(units)
    ensures |UnitIds(units)| == |units|
  {
    var ids := seq(|units|, i requires 0 <= i < |units| => units[i].id);
    NodesAreUnits(units, ids);
    DistinctSize(ids);
  }

  /** When both ends of every edge are units and nothing is cyclic, the search meets exactly the
      units, so the reachability rule never rejects anything by itself. */
  lemma ReachabilityNeverRejects(rir: Rir)
    requires UniqueIds(rir.units)
    requires !Cyclic(Declared(rir)) && SourcesDeclared(Declared(rir)) && TargetsDeclared(Declared(rir))
    ensures ReachIs(rir, UnitIds(rir.units)) && ReachesEnough(rir)
  {
    var g, starts := Declared(rir), Settled(Declared(rir), 1);
    AcyclicSettles(g);
    forall v | v in g.nodes
      ensures Reachable(rir, v)
    {
      SettledIsReachable(g, v, |g.nodes|);
    }
    forall v | Reachable(rir, v)
      ensures v in g.nodes
    {
      var p :| SearchPath(g, starts, v, p);
      if |p| > 1 {
        assert (p[|p| - 2], p[|p| - 2 + 1]) in g.arcs;
        assert p[..|p| - 1][|p| - 2] in g.nodes;
      }
    }
    UnitIdsSize(rir.units);
    SameReach(rir, g.nodes);
  }

  /** A plan whose edges join units and never follow one another is accepted, unless it is large. */
  lemma FlatIsAcceptable(rir: Rir)
    requires UniqueIds(rir.units) && |rir.edges| <= MAX_IN_DEGREE
    requires Flat(Declared(rir)) && SourcesDeclared(Declared(rir)) && TargetsDeclared(Declared(rir))
    ensures Acceptable(rir)
  {
    var depth := MAX_DEPTH;
    FlatIsShallow(Declared(rir), depth);
    forall n
      ensures !WideUnit(rir, n)
    {
      SourcesAreFew(rir.edges, n);
    }
    ReachabilityNeverRejects(rir);
  }

  /** There are as many layers as there are rounds that peel something off. */
  lemma LayerCount(g: Graph, layers: seq<seq<Id>>, k: nat)
    requires Kahn.KahnLayers(g, layers)
    requires Settled(g, k + 1) == Settled(g, k) && forall j: nat :: j < k ==> Settled(g, j + 1) != Settled(g, j)
    ensures |layers| == k
  {
    if k < |layers| {
      LayerIsInhabited(g, layers, k);
    }
  }

  lemma LayerIsInhabited(g: Graph, layers: seq<seq<Id>>, k: nat)
    requires Kahn.KahnPrefix(g, layers) && k < |layers|
    ensures Layer(g, k) != {}
  {
    assert Kahn.IsLayer(g, k, layers[k]) && layers[k][0] in Elements(layers[k]);
  }

  /** The layers do not depend on the order in which the builder met the successors of a node. */
  lemma LayersAreDetermined(rir: Rir, a: Ceg, b: Ceg)
    requires Represents(rir, a) && Represents(rir, b)
    ensures a.layers == b.layers
  {
    SameRounds(Declared(rir), a.layers, b.layers);
    SameRounds(Declared(rir), b.layers, a.layers);
    forall k | 0 <= k < |a.layers|
      ensures a.layers[k] == b.layers[k]
    {
      SameLayer(Declared(rir), k, a.layers[k], b.layers[k]);
    }
  }

  lemma SameRounds(g: Graph, a: seq<seq<Id>>, b: seq<seq<Id>>)
    requires Kahn.KahnLayers(g, a) && Kahn.KahnLayers(g, b)
    ensures |a| >= |b|
  {
    if |a| < |b| {
      LayerIsInhabited(g, b, |a|);
    }
  }

  lemma SameLayer(g: Graph, k: nat, a: seq<Id>, b: seq<Id>)
    requires Kahn.IsLayer(g, k, a) && Kahn.IsLayer(g, k, b)
    ensures a == b
  {
    forall n
      ensures n in a <==> n in b
    {
      assert n in a <==> n in Elements(a);
    }
    SortedSetsAgree(a, b);
  }

  /** The graph of a plan with two tiers has them as its layers. */
  lemma TiersAreLayers(rir: Rir, ceg: Ceg, upper: set<Id>, lower: set<Id>)
    requires Represents(rir, ceg) && TwoTiers(Declared(rir), upper, lower) && upper != {} && lower != {}
    ensures |ceg.layers| == 2 && Elements(ceg.layers[0]) == upper && Elements(ceg.layers[1]) == lower
  {
    var g, k := Declared(rir), 2;
    TiersSettle(g, upper, lower);
    TiersAreTwo(g, upper, lower);
    LayerCount(g, ceg.layers, k);
    assert Kahn.IsLayer(g, 0, ceg.layers[0]) && Kahn.IsLayer(g, 1, ceg.layers[1]);
  }

  lemma TiersAreTwo(g: Graph, upper: set<Id>, lower: set<Id>)
    requires TwoTiers(g, upper, lower) && upper != {} && lower != {}
    ensures Layer(g, 0) == upper && Layer(g, 1) == lower
    ensures forall j: nat :: j < 2 ==> Settled(g, j + 1) != Settled(g, j)
    ensures Settled(g, 2 + 1) == Settled(g, 2)
  {
    TiersSettle(g, upper, lower);
    assert Settled(g, 0) == {};
    forall j: nat | j < 2
      ensures Settled(g, j + 1) != Settled(g, j)
    {
      assert j == 0 || j == 1;
    }
  }

  /** The builder accepts a plan with closed edges exactly if no path has more than 128 units and no
      unit more than 1024 edges into it; in particular no path leads back to where it started. */
  lemma ClosedAcceptance(rir: Rir)
    requires UniqueIds(rir.units) && SourcesDeclared(Declared(rir)) && TargetsDeclared(Declared(rir))
    ensures Acceptable(rir) <==>
              && (forall p :: Walk(Declared(rir), p) && Inside(Declared(rir), p) ==> |p| <= 128)
              && (forall n :: n in UnitIds(rir.units) ==> |Sources(rir.edges, n)| <= 1024)
  {
    ShallowIff(Declared(rir), MAX_DEPTH);
    if !Cyclic(Declared(rir)) {
      ReachabilityNeverRejects(rir);
    }
    assert forall n :: n in UnitIds(rir.units) ==> (WideUnit(rir, n) <==> |Sources(rir.edges, n)| > 1024);
  }
}
