/** An edge whose source is no unit: the validator lets it pass, the layering does not. */
module Dangling {
  import opened Ids
  import opened Plans
  import opened Digraph
  import opened Wiring
  import opened Builder
  import opened Statuses
  import opened Runs
  import opened Courses
  import opened CalmRuns
  import opened Scheduling
  import Kahn
  import Loader

  /** Two units in a row, the second of which also waits for something that does not exist. */
  ghost predicate HasGhostSource(rir: Rir, a: Id, b: Id, x: Id) {
    && a != b && x != a && x != b
    && UnitIds(rir.units) == {a, b} && |rir.units| == 2
    && |rir.edges| == 2
    && rir.edges[0].from == a && rir.edges[0].to == b
    && rir.edges[1].from == x && rir.edges[1].to == b
  }

  /** The smallest such plan. */
  function Plan(a: Id, b: Id, x: Id): Rir {
    Rir(Loader.SCHEMA_VERSION, Loader.MODE, 1, Char('h', Empty),
        [Unit(a, Task, [], [], Activation(AllSuccess, [], []), NoGate),
         Unit(b, Task, [a], [], Activation(AllSuccess, [a], []), NoGate)],
        [Edge(a, b, Dependency), Edge(x, b, Dependency)],
        [])
  }

  /** The loader checks the units' own dependency lists, not the edges, and so accepts it. */
  lemma PlanIsValid(a: Id, b: Id, x: Id)
    requires a != b && x != a && x != b
    ensures Loader.ValidRir(Plan(a, b, x)) && HasGhostSource(Plan(a, b, x), a, b, x)
  {
    var rir := Plan(a, b, x);
    assert rir.units[0] in rir.units && rir.units[1] in rir.units;
    assert rir.units[0].id == a;
    assert UnitIds(rir.units) == {a, b};
  }

  lemma ArcsAre(rir: Rir, a: Id, b: Id, x: Id)
    requires HasGhostSource(rir, a, b, x)
    ensures Declared(rir) == Graph({a, b}, {(a, b), (x, b)})
  {
    assert rir.edges == [rir.edges[0], rir.edges[1]];
  }

  lemma NoCycle(g: Graph, a: Id, b: Id, x: Id)
    requires a != b && x != b && g == Graph({a, b}, {(a, b), (x, b)})
    ensures !Cyclic(g)
  {
    forall p | IsCycle(g, p)
      ensures false
    {
      var u, v, w := CycleSteps(g, p);
    }
  }

  lemma OnlyTheFirstSettles(g: Graph, a: Id, b: Id, x: Id, k: nat)
    requires a != b && x != a && x != b && g == Graph({a, b}, {(a, b), (x, b)})
    ensures Settled(g, k) == if k == 0 then {} else {a}
    decreases k
  {
  }

  lemma BothAreReached(rir: Rir, a: Id, b: Id, x: Id)
    requires HasGhostSource(rir, a, b, x)
    ensures ReachIs(rir, {a, b})
  {
    var g := Declared(rir);
    ArcsAre(rir, a, b, x);
    OnlyTheFirstSettles(g, a, b, x, 1);
    assert SearchPath(g, {a}, a, [a]);
    assert SearchPath(g, {a}, b, [a, b]);
    forall v | Reachable(rir, v)
      ensures v in {a, b}
    {
      var p :| SearchPath(g, {a}, v, p);
      if |p| > 1 {
        assert (p[|p| - 2], p[|p| - 2 + 1]) in g.arcs;
      }
    }
  }

  lemma NarrowUnits(rir: Rir, a: Id, b: Id, x: Id, n: Id)
    requires HasGhostSource(rir, a, b, x)
    ensures !WideUnit(rir, n)
  {
    SourcesAreFew(rir.edges, n);
  }

  lemma NothingDeeper(g: Graph, a: Id, b: Id, x: Id, k: nat)
    requires a != b && x != a && x != b && g == Graph({a, b}, {(a, b), (x, b)}) && k > 0
    ensures Layer(g, k) == {}
  {
    OnlyTheFirstSettles(g, a, b, x, k);
    OnlyTheFirstSettles(g, a, b, x, k + 1);
  }

  lemma IsAccepted(rir: Rir, a: Id, b: Id, x: Id)
    requires HasGhostSource(rir, a, b, x)
    ensures Acceptable(rir)
  {
    ArcsAre(rir, a, b, x);
    NoCycle(Declared(rir), a, b, x);
    forall n
      ensures !WideUnit(rir, n)
    {
      NarrowUnits(rir, a, b, x, n);
    }
    var depth := MAX_DEPTH;
    NothingDeeper(Declared(rir), a, b, x, depth);
    BothAreReached(rir, a, b, x);
    assert |{a, b}| == 2;
  }

  lemma NotInLayers(g: Graph, layers: seq<seq<Id>>, a: Id, b: Id, x: Id)
    requires a != b && x != a && x != b && g == Graph({a, b}, {(a, b), (x, b)})
    requires Kahn.KahnPrefix(g, layers)
    ensures forall k :: 0 <= k < |layers| ==> b !in layers[k]
  {
    OnlyTheFirstSettles(g, a, b, x, |layers|);
    forall k | 0 <= k < |layers|
      ensures b !in layers[k]
    {
      if b in layers[k] {
        LayeredIsSettled(g, layers, k, b);
      }
    }
  }

  /** Such an RIR is accepted, its second unit is reachable, and yet no layer holds that unit. */
  lemma AcceptedButNotLayered(rir: Rir, ceg: Ceg, a: Id, b: Id, x: Id)
    requires HasGhostSource(rir, a, b, x) && Represents(rir, ceg)
    ensures Acceptable(rir) && Reachable(rir, b)
    ensures forall k :: 0 <= k < |ceg.layers| ==> b !in ceg.layers[k]
  {
    IsAccepted(rir, a, b, x);
    BothAreReached(rir, a, b, x);
    ArcsAre(rir, a, b, x);
    NotInLayers(Declared(rir), ceg.layers, a, b, x);
  }

  /** A unit that is in no layer is never dispatched, at any moment of any run. */
  lemma UnlayeredNeverRuns(rir: Rir, ceg: Ceg, d: Dispatch, waves: seq<seq<seq<Id>>>, calm: bool, log: seq<Event>,
                           k: nat, n: Id)
    requires AreAllWaves(rir, ceg, waves) && forall l :: 0 <= l < |ceg.layers| ==> Distinct(ceg.layers[l])
    requires Run(ceg, d, waves, calm, log) && k <= |log|
    requires forall l :: 0 <= l < |ceg.layers| ==> n !in ceg.layers[l]
    ensures n in After(log[..k]) ==> !After(log[..k])[n].Running?
  {
    RunPrefix(ceg, d, waves, calm, log, k);
    RunsAreTogether(ceg, d, waves, calm, log[..k]);
    WavesCover(rir, ceg, waves);
    var states := After(log[..k]);
    if n in states && states[n].Running? {
      var l: nat, w: nat :| RunningIn(waves, l, w, states);
      assert InSomeWave(waves[l], n);
    }
  }
}
