/** Directed graphs over identifiers: walks, cycles, and the layering that
    Kahn's algorithm computes, described without the algorithm. */
module Digraph {
  import opened Ids

  /** `nodes` are the declared units; an arc may start or end outside of them. */
  datatype Graph = Graph(nodes: set<Id>, arcs: set<(Id, Id)>)

  ghost predicate Walk(g: Graph, p: seq<Id>) {
    p != [] && forall i :: 0 <= i < |p| - 1 ==> (p[i], p[i + 1]) in g.arcs
  }

  ghost predicate Inside(g: Graph, p: seq<Id>) {
    forall i :: 0 <= i < |p| ==> p[i] in g.nodes
  }

  ghost predicate IsCycle(g: Graph, p: seq<Id>) {
    Walk(g, p) && Inside(g, p) && |p| >= 2 && p[0] == p[|p| - 1]
  }

  ghost predicate Cyclic(g: Graph) {
    exists p :: IsCycle(g, p)
  }

  /** Every arc into a declared node starts at a declared node. */
  ghost predicate SourcesDeclared(g: Graph) {
    forall u, v :: (u, v) in g.arcs && v in g.nodes ==> u in g.nodes
  }

  /** Every arc out of a declared node ends at a declared node. */
  ghost predicate TargetsDeclared(g: Graph) {
    forall u, v :: (u, v) in g.arcs && u in g.nodes ==> v in g.nodes
  }

  /** The nodes whose whole ancestry can be peeled off in `k` rounds. */
  ghost function Settled(g: Graph, k: nat): set<Id> {
    if k == 0 then {} else set n | n in g.nodes && PredecessorsIn(g, n, Settled(g, k - 1))
  }

  ghost predicate PredecessorsIn(g: Graph, n: Id, s: set<Id>) {
    forall u :: (u, n) in g.arcs ==> u in s
  }

  /** The nodes peeled off in round `k`, counting from zero. */
  ghost function Layer(g: Graph, k: nat): set<Id> {
    Settled(g, k + 1) - Settled(g, k)
  }

  lemma {:induction false} SettledGrows(g: Graph, j: nat, k: nat)
    requires j <= k
    ensures Settled(g, j) <= Settled(g, k)
    decreases k
  {
    if 0 < j {
      SettledGrows(g, j - 1, k - 1);
    }
  }

  /** Once a round peels nothing off, no later round does. */
  lemma {:induction false} SettledStops(g: Graph, k: nat, m: nat)
    requires Settled(g, k + 1) == Settled(g, k) && k <= m
    ensures Settled(g, m) == Settled(g, k)
    decreases m
  {
    if k < m {
      SettledStops(g, k, m - 1);
      assert Settled(g, m) == Settled(g, k + 1) by {
        assert Settled(g, m - 1) == Settled(g, k);
      }
    }
  }

  /** A walk that ends at a node of depth `k` has at most `k` nodes. */
  lemma {:induction false} WalkIsShort(g: Graph, p: seq<Id>, k: nat)
    requires Walk(g, p) && p[|p| - 1] in Settled(g, k)
    ensures |p| <= k
    decreases k
  {
    if |p| >= 2 {
      var q := p[..|p| - 1];
      assert (p[|p| - 2], p[|p| - 1]) in g.arcs;
      WalkIsShort(g, q, k - 1);
    }
  }

  /** A declared node that survives `k` rounds is the end of a walk through `k + 1` nodes. */
  lemma {:induction false} LongWalkExists(g: Graph, n: Id, k: nat) returns (p: seq<Id>)
    requires SourcesDeclared(g) && n in g.nodes && n !in Settled(g, k)
    ensures Walk(g, p) && Inside(g, p) && |p| == k + 1 && p[k] == n
    decreases k
  {
    if k == 0 {
      p := [n];
    } else {
      var u :| (u, n) in g.arcs && u !in Settled(g, k - 1);
      var q := LongWalkExists(g, u, k - 1);
      p := q + [n];
    }
  }

  lemma RepetitionIsCycle(g: Graph, p: seq<Id>, i: nat, j: nat)
    requires Walk(g, p) && Inside(g, p) && i < j < |p| && p[i] == p[j]
    ensures Cyclic(g)
  {
    var q := p[i..j + 1];
    forall m | 0 <= m < |q| - 1
      ensures (q[m], q[m + 1]) in g.arcs
    {
      assert q[m] == p[i + m] && q[m + 1] == p[i + m + 1];
    }
    assert IsCycle(g, q);
  }

  /** From a cycle one can always take two steps. */
  lemma CycleSteps(g: Graph, p: seq<Id>) returns (u: Id, v: Id, w: Id)
    requires IsCycle(g, p)
    ensures u in g.nodes && (u, v) in g.arcs && (v, w) in g.arcs
  {
    if |p| == 2 {
      assert (p[0], p[0 + 1]) in g.arcs;
      u, v, w := p[0], p[1], p[1];
    } else {
      u, v, w := WalkSteps(g, p);
    }
  }

  lemma WalkSteps(g: Graph, p: seq<Id>) returns (u: Id, v: Id, w: Id)
    requires Walk(g, p) && |p| > 2
    ensures u == p[0] && v == p[1] && w == p[2] && (u, v) in g.arcs && (v, w) in g.arcs
  {
    u, v, w := p[0], p[1], p[2];
    assert (p[0], p[0 + 1]) in g.arcs && (p[1], p[1 + 1]) in g.arcs;
  }

  /** No walk has more than two nodes. */
  ghost predicate Flat(g: Graph) {
    forall p :: Walk(g, p) ==> |p| <= 2
  }

  lemma ArcsMakeWalk(g: Graph, u: Id, v: Id, w: Id)
    requires (u, v) in g.arcs && (v, w) in g.arcs
    ensures !Flat(g)
  {
    assert Walk(g, [u, v, w]);
  }

  lemma LoopIsCycle(g: Graph, n: Id)
    requires (n, n) in g.arcs && n in g.nodes
    ensures Cyclic(g)
  {
    assert IsCycle(g, [n, n]);
  }

  /** All arcs lead from one set of nodes to another. */
  ghost predicate TwoTiers(g: Graph, upper: set<Id>, lower: set<Id>) {
    && g.nodes == upper + lower && upper !! lower
    && (forall u, v :: (u, v) in g.arcs ==> u in upper && v in lower)
    && (forall v :: v in lower ==> exists u :: (u, v) in g.arcs)
  }

  lemma TiersAreFlat(g: Graph, upper: set<Id>, lower: set<Id>)
    requires TwoTiers(g, upper, lower)
    ensures Flat(g) && SourcesDeclared(g) && TargetsDeclared(g)
  {
    forall p | Walk(g, p)
      ensures |p| <= 2
    {
      if |p| > 2 {
        var u, v, w := WalkSteps(g, p);
      }
    }
  }

  lemma TiersSettle(g: Graph, upper: set<Id>, lower: set<Id>)
    requires TwoTiers(g, upper, lower)
    ensures Settled(g, 1) == upper && Settled(g, 2) == upper + lower && Settled(g, 3) == upper + lower
  {
    assert Settled(g, 0) == {};
    forall n | n in g.nodes
      ensures n in Settled(g, 1) <==> n in upper
      ensures PredecessorsIn(g, n, upper) && PredecessorsIn(g, n, upper + lower)
    {
      if n in lower {
        var u :| (u, n) in g.arcs;
      }
    }
    assert Settled(g, 1) == upper;
  }

  /** Nothing on a cycle is ever peeled off. */
  lemma {:induction false} CycleIsUnsettled(g: Graph, p: seq<Id>, k: nat, i: nat)
    requires IsCycle(g, p) && i < |p|
    ensures p[i] !in Settled(g, k)
    decreases k
  {
    if k > 0 {
      var before := if i == 0 then |p| - 2 else i - 1;
      assert (p[before], p[before + 1]) in g.arcs;
      CycleIsUnsettled(g, p, k - 1, before);
    }
  }

  /** Kahn's peeling reaches every node exactly when the graph of declared nodes
      has no cycle and no arc arrives from an undeclared node. */
  lemma PeelsEverythingIff(g: Graph, k: nat)
    requires Settled(g, k + 1) == Settled(g, k)
    ensures Settled(g, k) == g.nodes <==> !Cyclic(g) && SourcesDeclared(g)
  {
    if Settled(g, k) == g.nodes {
      if Cyclic(g) {
        var p :| IsCycle(g, p);
        CycleIsUnsettled(g, p, k, 0);
      }
      assert Settled(g, k + 1) == g.nodes;
      assert SourcesDeclared(g);
    } else if SourcesDeclared(g) {
      assert Settled(g, k) <= g.nodes;
      var n :| n in g.nodes && n !in Settled(g, k);
      UnpeeledMeansCyclic(g, n, k);
    }
  }

  lemma UnpeeledMeansCyclic(g: Graph, n: Id, k: nat)
    requires SourcesDeclared(g) && Settled(g, k + 1) == Settled(g, k)
    requires n in g.nodes && n !in Settled(g, k)
    ensures Cyclic(g)
  {
    var size := |g.nodes|;
    if k <= size {
      SettledStops(g, k, size);
    } else {
      SettledGrows(g, size, k);
    }
    LongWalkMeansCyclic(g, n);
  }

  /** Without cycles, and with all sources declared, as many rounds as there are nodes suffice. */
  lemma AcyclicSettles(g: Graph)
    requires SourcesDeclared(g) && !Cyclic(g)
    ensures Settled(g, |g.nodes|) == g.nodes
  {
    var size := |g.nodes|;
    forall n | n in g.nodes
      ensures n in Settled(g, size)
    {
      if n !in Settled(g, size) {
        LongWalkMeansCyclic(g, n);
      }
    }
    assert Settled(g, size) <= g.nodes;
  }

  lemma LongWalkMeansCyclic(g: Graph, n: Id)
    requires SourcesDeclared(g) && n in g.nodes && n !in Settled(g, |g.nodes|)
    ensures Cyclic(g)
  {
    var p := LongWalkExists(g, n, |g.nodes|);
    if Distinct(p) {
      Pigeonhole(p, g.nodes);
      assert false;
    }
    var i, j :| 0 <= i < j < |p| && p[i] == p[j];
    RepetitionIsCycle(g, p, i, j);
  }

  /** The layer of a node is the number of arcs on the longest walk that ends there. */
  lemma LayerIsLongestWalk(g: Graph, n: Id, k: nat)
    requires SourcesDeclared(g) && n in g.nodes
    ensures n in Layer(g, k) <==>
              (exists p :: Walk(g, p) && p[|p| - 1] == n && |p| == k + 1) &&
              (forall p :: Walk(g, p) && p[|p| - 1] == n ==> |p| <= k + 1)
  {
    if n in Layer(g, k) {
      var p := LongWalkExists(g, n, k);
      forall q | Walk(g, q) && q[|q| - 1] == n
        ensures |q| <= k + 1
      {
        WalkIsShort(g, q, k + 1);
      }
      assert Walk(g, p) && p[|p| - 1] == n && |p| == k + 1;
    } else {
      if n !in Settled(g, k + 1) {
        var p := LongWalkExists(g, n, k + 1);
        assert Walk(g, p) && p[|p| - 1] == n && |p| == k + 2;
      } else {
        forall p | Walk(g, p) && p[|p| - 1] == n
          ensures |p| <= k
        {
          WalkIsShort(g, p, k);
        }
      }
    }
  }

  /** A flat graph has no cycle and no third layer. */
  lemma FlatIsShallow(g: Graph, k: nat)
    requires Flat(g) && SourcesDeclared(g) && k >= 2
    ensures !Cyclic(g) && Layer(g, k) == {}
  {
    forall p | IsCycle(g, p)
      ensures false
    {
      var u, v, w := CycleSteps(g, p);
      ArcsMakeWalk(g, u, v, w);
    }
    forall n | n in Layer(g, k)
      ensures false
    {
      var p := LongWalkExists(g, n, k);
    }
  }

  /** Round and round a cycle there are walks of any length. */
  lemma {:induction false} CyclesAreEndless(g: Graph, p: seq<Id>, k: nat) returns (q: seq<Id>)
    requires IsCycle(g, p)
    ensures Walk(g, q) && Inside(g, q) && |q| > k && q[|q| - 1] == p[0]
    decreases k
  {
    if k == 0 {
      q := p;
    } else {
      var shorter := CyclesAreEndless(g, p, k - 1);
      q := shorter + p[1..];
      forall i | 0 <= i < |q| - 1
        ensures (q[i], q[i + 1]) in g.arcs
      {
        if i >= |shorter| - 1 {
          var j := i - (|shorter| - 1);
          assert q[i] == p[j] && q[i + 1] == p[j + 1];
        }
      }
    }
  }

  /** A graph is acyclic and has no more than `k` layers exactly when its walks are that short. */
  lemma ShallowIff(g: Graph, k: nat)
    requires SourcesDeclared(g)
    ensures !Cyclic(g) && Layer(g, k) == {} <==> forall p :: Walk(g, p) && Inside(g, p) ==> |p| <= k
  {
    if Cyclic(g) {
      var p :| IsCycle(g, p);
      var q := CyclesAreEndless(g, p, k);
    } else if Layer(g, k) != {} {
      var n :| n in Layer(g, k);
      var p := LongWalkExists(g, n, k);
    } else {
      ShallowSettles(g, k);
      forall p | Walk(g, p) && Inside(g, p)
        ensures |p| <= k
      {
        assert p[|p| - 1] in g.nodes;
        WalkIsShort(g, p, k);
      }
    }
  }

  lemma ShallowSettles(g: Graph, k: nat)
    requires SourcesDeclared(g) && !Cyclic(g) && Layer(g, k) == {}
    ensures Settled(g, k) == g.nodes
  {
    var size := |g.nodes|;
    AcyclicSettles(g);
    SettledGrows(g, k, k + 1);
    assert Settled(g, k + 1) == Settled(g, k) + Layer(g, k);
    if k <= size {
      SettledStops(g, k, size);
    } else {
      SettledGrows(g, size, k);
    }
    assert Settled(g, k) <= g.nodes;
  }

  /** What a search from the given starting points may visit. */
  ghost predicate ReachableFrom(g: Graph, starts: set<Id>, v: Id) {
    exists p :: SearchPath(g, starts, v, p)
  }

  /** A walk from a starting point to `v` whose nodes, except perhaps `v`, are declared. */
  ghost predicate SearchPath(g: Graph, starts: set<Id>, v: Id, p: seq<Id>) {
    Walk(g, p) && p[0] in starts && p[|p| - 1] == v && Inside(g, p[..|p| - 1])
  }

  lemma ExtendSearchPath(g: Graph, starts: set<Id>, u: Id, v: Id)
    requires ReachableFrom(g, starts, u) && u in g.nodes && (u, v) in g.arcs
    ensures ReachableFrom(g, starts, v)
  {
    var p :| SearchPath(g, starts, u, p);
    var q := p + [v];
    forall i | 0 <= i < |q| - 1
      ensures q[i] in g.nodes && (q[i], q[i + 1]) in g.arcs
    {
      if i < |p| - 1 {
        assert p[..|p| - 1][i] in g.nodes;
      }
    }
    assert q[..|q| - 1] == p;
    assert SearchPath(g, starts, v, q);
  }

  /** Everything that is peeled off can be reached from the nodes without predecessors. */
  lemma {:induction false} SettledIsReachable(g: Graph, n: Id, k: nat)
    requires n in Settled(g, k)
    ensures ReachableFrom(g, Settled(g, 1), n)
    decreases k
  {
    if exists u :: (u, n) in g.arcs {
      var u :| (u, n) in g.arcs;
      SettledIsReachable(g, u, k - 1);
      ExtendSearchPath(g, Settled(g, 1), u, n);
    } else {
      assert SearchPath(g, Settled(g, 1), n, [n]);
    }
  }
}
