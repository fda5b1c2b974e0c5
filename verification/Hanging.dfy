/** An accepted plan on which the scheduler awaits a wave for ever. */
module Hanging {
  import opened Ids
  import opened Plans
  import opened Digraph
  import opened Wiring
  import opened Builder
  import opened Statuses
  import opened Runs
  import opened Courses
  import opened CalmRuns
  import opened Scheduling
  import opened Kernel
  import Loader
  import Waves

  /** A root `a`, a unit `b` that requires it, and a unit `c` behind it whose rule is none the
      kernel evaluates. Nothing is shared, so `b` and `c` are in one wave. */
  function Plan(a: Id, b: Id, c: Id, rule: Id): Rir {
    Rir(Loader.SCHEMA_VERSION, Loader.MODE, 1, Char('h', Empty),
        [Unit(a, Task, [], [], Activation(AllSuccess, [], []), NoGate),
         Unit(b, Task, [a], [], Activation(AllSuccess, [a], []), NoGate),
         Unit(c, Task, [a], [], Activation(Other(rule), [a], []), NoGate)],
        [Edge(a, b, Dependency), Edge(a, c, Dependency)],
        [])
  }

  /** What matters about the plan. */
  ghost predicate Forks(rir: Rir, a: Id, b: Id, c: Id) {
    && a != b && a != c && b != c
    && UnitIds(rir.units) == {a, b, c} && UniqueIds(rir.units)
    && |rir.edges| == 2
    && rir.edges[0].from == a && rir.edges[0].to == b
    && rir.edges[1].from == a && rir.edges[1].to == c
    && rir.regions == []
    && (forall i :: 0 <= i < |rir.units| ==> rir.units[i].contracts == [] && HasRule(rir.units[i], a, b, c))
  }

  ghost predicate HasRule(u: Unit, a: Id, b: Id, c: Id) {
    var rule := u.activation;
    if u.id == a then rule == Activation(AllSuccess, [], [])
    else if u.id == b then rule == Activation(AllSuccess, [a], [])
    else rule.condition.Other? && rule.required == [a] && rule.optional == []
  }

  lemma PlanForks(a: Id, b: Id, c: Id, rule: Id)
    requires a != b && a != c && b != c
    ensures Loader.ValidRir(Plan(a, b, c, rule)) && Forks(Plan(a, b, c, rule), a, b, c)
  {
    var rir := Plan(a, b, c, rule);
    assert rir.units[0] in rir.units && rir.units[1] in rir.units && rir.units[2] in rir.units;
    assert rir.units[0].id == a;
    assert UnitIds(rir.units) == {a, b, c};
  }

  lemma ForkHasTiers(rir: Rir, a: Id, b: Id, c: Id)
    requires Forks(rir, a, b, c)
    ensures TwoTiers(Declared(rir), {a}, {b, c})
  {
    var g := Declared(rir);
    assert rir.edges == [rir.edges[0], rir.edges[1]];
    assert g.arcs == {(a, b), (a, c)};
    assert (a, b) in g.arcs && (a, c) in g.arcs;
  }

  lemma SourcesOf(rir: Rir, a: Id, b: Id, c: Id, n: Id)
    requires Forks(rir, a, b, c) && (n == b || n == c)
    ensures a in Sources(rir.edges, n)
  {
    SourcesAre(rir.edges, n);
    assert rir.edges[0] in rir.edges && rir.edges[1] in rir.edges;
  }

  lemma RulesLookBack(rir: Rir, a: Id, b: Id, c: Id, u: Unit, x: Id)
    requires Forks(rir, a, b, c) && u in rir.units && x in u.activation.Candidates()
    ensures x in Sources(rir.edges, u.id)
  {
    assert u.id in UnitIds(rir.units) && HasRule(u, a, b, c);
    if u.id != a {
      SourcesOf(rir, a, b, c, u.id);
    }
  }

  /** The builder accepts the plan, and its rules name predecessors only. */
  lemma ForkIsAccepted(rir: Rir, a: Id, b: Id, c: Id)
    requires Forks(rir, a, b, c)
    ensures Acceptable(rir) && BackwardRir(rir)
  {
    ForkHasTiers(rir, a, b, c);
    TiersAreFlat(Declared(rir), {a}, {b, c});
    FlatIsAcceptable(rir);
    forall i, x | 0 <= i < |rir.units| && x in rir.units[i].activation.Candidates()
      ensures x in Sources(rir.edges, rir.units[i].id)
    {
      RulesLookBack(rir, a, b, c, rir.units[i], x);
    }
  }

  /** The same of the built graph. */
  ghost predicate GraphForks(ceg: Ceg, a: Id, b: Id, c: Id) {
    && a != b && a != c && b != c
    && ceg.nodeMap.Keys == {a, b, c} && ceg.inDegree.Keys == {a, b, c}
    && ceg.nodeMap[a].activation == Activation(AllSuccess, [], [])
    && ceg.nodeMap[b].activation == Activation(AllSuccess, [a], [])
    && ceg.nodeMap[c].activation.condition.Other? && ceg.inDegree[c] != 0
  }

  lemma GraphForksToo(rir: Rir, a: Id, b: Id, c: Id, ceg: Ceg)
    requires Forks(rir, a, b, c) && Represents(rir, ceg)
    ensures GraphForks(ceg, a, b, c)
  {
    var i := UnitOf(rir, ceg, a);
    var j := UnitOf(rir, ceg, b);
    var k := UnitOf(rir, ceg, c);
    SourcesOf(rir, a, b, c, c);
  }

  /** Once the root succeeds, one unit behind it is dispatched; the other never ends. */
  lemma MeaningsAre(ceg: Ceg, a: Id, b: Id, c: Id, d: Dispatch)
    requires GraphForks(ceg, a, b, c) && Backward(ceg)
    ensures Fires(ceg, d, a) && Meaning(ceg, d, a) == Landed(d(a))
    ensures Fires(ceg, d, b) <==> Outcome(d(a)).Success?
    ensures !Fires(ceg, d, c) && Meaning(ceg, d, c).Blocked?
  {
    var required := [a];
    assert ceg.nodeMap[b].activation.Candidates() == required;
    assert a in required && forall n :: n in required ==> n == a;
  }

  /** The second layer is one wave. */
  ghost predicate WavesFork(waves: seq<seq<seq<Id>>>, a: Id, b: Id, c: Id) {
    && |waves| == 2 && |waves[1]| == 1
    && (forall n :: n in waves[1][0] <==> n == b || n == c)
    && (forall w, n :: 0 <= w < |waves[0]| && n in waves[0][w] ==> n == a)
  }

  lemma NoConflicts(rir: Rir, a: Id, b: Id, c: Id)
    requires Forks(rir, a, b, c)
    ensures forall x, y :: !Waves.Conflict(rir, x, y)
  {
    forall x, y
      ensures !Waves.Conflict(rir, x, y)
    {
      Waves.NothingShared(rir, x, y);
    }
  }

  lemma ListsTheSame(layer: seq<Id>, ids: set<Id>)
    requires Elements(layer) == ids
    ensures forall n :: n in layer <==> n in ids
  {
  }

  lemma UpperWaves(rir: Rir, a: Id, layer: seq<Id>, waves: seq<seq<Id>>)
    requires Distinct(layer) && Elements(layer) == {a} && Waves.AreWaves(rir, layer, waves)
    ensures forall w, n :: 0 <= w < |waves| && n in waves[w] ==> n == a
  {
    ListsTheSame(layer, {a});
    Waves.WavesSplit(rir, layer, waves);
    forall w, n | 0 <= w < |waves| && n in waves[w]
      ensures n == a
    {
      assert n in layer;
    }
  }

  lemma LowerWave(rir: Rir, a: Id, b: Id, c: Id, layer: seq<Id>, waves: seq<seq<Id>>)
    requires Forks(rir, a, b, c)
    requires Distinct(layer) && Elements(layer) == {b, c} && Waves.AreWaves(rir, layer, waves)
    ensures |waves| == 1 && forall n :: n in waves[0] <==> n == b || n == c
  {
    ListsTheSame(layer, {b, c});
    NoConflicts(rir, a, b, c);
    Waves.NoConflictsOneWave(rir, layer, waves);
  }

  lemma WavesForkToo(rir: Rir, a: Id, b: Id, c: Id, ceg: Ceg, waves: seq<seq<seq<Id>>>)
    requires Forks(rir, a, b, c) && Represents(rir, ceg) && AreAllWaves(rir, ceg, waves)
    ensures WavesFork(waves, a, b, c)
  {
    ForkHasTiers(rir, a, b, c);
    TiersAreLayers(rir, ceg, {a}, {b, c});
    LayersAreDistinct(rir, ceg);
    UpperWaves(rir, a, ceg.layers[0], waves[0]);
    LowerWave(rir, a, b, c, ceg.layers[1], waves[1]);
  }

  lemma RootNeverJams(ceg: Ceg, a: Id, b: Id, c: Id, waves: seq<seq<Id>>, d: Dispatch)
    requires GraphForks(ceg, a, b, c) && Backward(ceg) && Outcome(d(a)).Success?
    requires forall w, n :: 0 <= w < |waves| && n in waves[w] ==> n == a
    ensures !LayerJams(ceg, d, waves)
  {
    MeaningsAre(ceg, a, b, c, d);
    assert IsTerminal(Meaning(ceg, d, a));
  }

  lemma LowerJams(ceg: Ceg, a: Id, b: Id, c: Id, wave: seq<Id>, d: Dispatch)
    requires GraphForks(ceg, a, b, c) && Backward(ceg) && Outcome(d(a)).Success?
    requires b in wave && c in wave
    ensures WaveJams(ceg, d, wave)
  {
    MeaningsAre(ceg, a, b, c, d);
  }

  /** Where the root succeeds the second wave jams, and no earlier one does. */
  lemma ForkJams(ceg: Ceg, a: Id, b: Id, c: Id, waves: seq<seq<seq<Id>>>, d: Dispatch)
    requires GraphForks(ceg, a, b, c) && WavesFork(waves, a, b, c) && Backward(ceg) && Outcome(d(a)).Success?
    ensures Jams(ceg, d, waves)
    ensures forall l, w :: JamsFirst(ceg, d, waves, l, w) ==> l == 1 && w == 0
  {
    LowerJams(ceg, a, b, c, waves[1][0], d);
    assert LayerJams(ceg, d, waves[1]);
    RootNeverJams(ceg, a, b, c, waves[0], d);
  }

  /** With no deadline and no cancellation, an execution of the plan whose root succeeds never
      returns, whatever the other answers. */
  method RunForever(a: Id, b: Id, c: Id, rule: Id, d: Dispatch, env: Surroundings) returns (x: Execution)
    requires a != b && a != c && b != c
    requires Steady(d) && Outcome(d(a)).Success? && Untimed(env)
    ensures x.Ran? && x.result == NeverReturns(1, 0)
  {
    PlanForks(a, b, c, rule);
    var rir := Plan(a, b, c, rule);
    x := RunFork(rir, a, b, c, d, env);
  }

  method RunFork(rir: Rir, ghost a: Id, ghost b: Id, ghost c: Id, d: Dispatch, env: Surroundings)
    returns (x: Execution)
    requires Forks(rir, a, b, c)
    requires Steady(d) && Outcome(d(a)).Success? && Untimed(env)
    ensures x.Ran? && x.result == NeverReturns(1, 0)
  {
    ForkIsAccepted(rir, a, b, c);
    ghost var waves, log, heard;
    x, waves, log, heard := Execute(rir, d, env, true);
    GraphForksToo(rir, a, b, c, x.ceg);
    WavesForkToo(rir, a, b, c, x.ceg, waves);
    ForkJams(x.ceg, a, b, c, waves, d);
  }
}
