/** An accepted plan on which the consistency check reports a failure of its own dependency rule
    although the run went exactly as the plan says. */
module Alternative {
  import opened Ids
  import opened Plans
  import opened Digraph
  import opened Wiring
  import opened Builder
  import opened Runs
  import opened Courses
  import opened CalmRuns
  import opened Scheduling
  import opened Kernel
  import opened Robustness
  import opened Consistency
  import Loader

  /** Two roots `a` and `b`, and a unit `c` that depends on both and starts as soon as one succeeds. */
  function Plan(a: Id, b: Id, c: Id): Rir {
    Rir(Loader.SCHEMA_VERSION, Loader.MODE, 1, Char('h', Empty),
        [Unit(a, Task, [], [], Activation(AllSuccess, [], []), NoGate),
         Unit(b, Task, [], [], Activation(AllSuccess, [], []), NoGate),
         Unit(c, Task, [a, b], [], Activation(AnySuccess, [a, b], []), NoGate)],
        [Edge(a, c, Dependency), Edge(b, c, Dependency)],
        [])
  }

  /** What matters about the plan. */
  ghost predicate Joins(rir: Rir, a: Id, b: Id, c: Id) {
    && a != b && a != c && b != c
    && UnitIds(rir.units) == {a, b, c} && UniqueIds(rir.units)
    && rir.edges == [Edge(a, c, Dependency), Edge(b, c, Dependency)]
    && (forall i :: 0 <= i < |rir.units| ==> HasRule(rir.units[i], a, b, c))
  }

  ghost predicate HasRule(u: Unit, a: Id, b: Id, c: Id) {
    u.activation == if u.id == c then Activation(AnySuccess, [a, b], []) else Activation(AllSuccess, [], [])
  }

  lemma PlanJoins(a: Id, b: Id, c: Id)
    requires a != b && a != c && b != c
    ensures Loader.ValidRir(Plan(a, b, c)) && Joins(Plan(a, b, c), a, b, c)
  {
    var rir := Plan(a, b, c);
    assert rir.units[0] in rir.units && rir.units[1] in rir.units && rir.units[2] in rir.units;
    assert rir.units[0].id == a && rir.units[1].id == b;
    assert UnitIds(rir.units) == {a, b, c};
  }

  lemma JoinHasTiers(rir: Rir, a: Id, b: Id, c: Id)
    requires Joins(rir, a, b, c)
    ensures TwoTiers(Declared(rir), {a, b}, {c})
  {
    var g := Declared(rir);
    assert rir.edges[0] in rir.edges && rir.edges[1] in rir.edges;
    assert g.arcs == {(a, c), (b, c)};
    assert (a, c) in g.arcs;
  }

  lemma SourcesOf(rir: Rir, a: Id, b: Id, c: Id)
    requires Joins(rir, a, b, c)
    ensures a in Sources(rir.edges, c) && b in Sources(rir.edges, c)
  {
    SourcesAre(rir.edges, c);
    assert rir.edges[0] in rir.edges && rir.edges[1] in rir.edges;
  }

  lemma RulesLookBack(rir: Rir, a: Id, b: Id, c: Id, u: Unit)
    requires Joins(rir, a, b, c) && u in rir.units
    ensures forall x :: x in u.activation.Candidates() ==> x in Sources(rir.edges, u.id)
    ensures Decidable(u.activation)
  {
    assert HasRule(u, a, b, c);
    SourcesOf(rir, a, b, c);
    forall x | x in u.activation.Candidates()
      ensures x in Sources(rir.edges, u.id)
    {
      assert x in [a, b];
    }
  }

  /** The builder accepts the plan, and on it every cooperative run is calm and completes. */
  lemma JoinIsAccepted(rir: Rir, a: Id, b: Id, c: Id)
    requires Joins(rir, a, b, c)
    ensures Acceptable(rir) && WellFormedRir(rir)
  {
    JoinHasTiers(rir, a, b, c);
    TiersAreFlat(Declared(rir), {a, b}, {c});
    FlatIsAcceptable(rir);
    forall i | 0 <= i < |rir.units|
      ensures forall x :: x in rir.units[i].activation.Candidates() ==> x in Sources(rir.edges, rir.units[i].id)
      ensures UnitDecides(rir, rir.units[i])
    {
      RulesLookBack(rir, a, b, c, rir.units[i]);
    }
  }

  /** `c` can succeed without `a`, so the plan is fragile. */
  lemma JoinIsFragile(rir: Rir, a: Id, b: Id, c: Id, ceg: Ceg)
    requires Joins(rir, a, b, c) && Represents(rir, ceg) && Backward(ceg)
    ensures {a, b, c} == ceg.nodeMap.Keys && SucceedsWithout(ceg, a, c) && !Robust(ceg)
    ensures !DependenciesSucceed(ceg, OnlyFails(a))
  {
    var i := UnitOf(rir, ceg, b);
    var j := UnitOf(rir, ceg, c);
    StartsWithout(ceg, a, b, c);
    assert JoinsNodes(ceg, ceg.edges[0]);
    FragileFails(ceg, 0);
  }

  lemma StartsWithout(ceg: Ceg, a: Id, b: Id, c: Id)
    requires Backward(ceg) && a != b && a != c && b in ceg.nodeMap && c in ceg.nodeMap
    requires ceg.nodeMap[b].activation == Activation(AllSuccess, [], [])
    requires ceg.nodeMap[c].activation == Activation(AnySuccess, [a, b], [])
    ensures SucceedsWithout(ceg, a, c)
  {
    assert SucceedsWithout(ceg, a, b);
    assert b in [a, b];
  }

  lemma OnlyFailsIsCalm(rir: Rir, u: Id, env: Surroundings)
    requires WellFormedRir(rir)
    ensures Cooperative(OnlyFails(u)) && Calm(rir, OnlyFails(u), env)
  {
  }

  /** When only `a` fails, the consistency check of this plan reports and does not pass, whatever
      the deadlines and cancellations. */
  method CheckFails(a: Id, b: Id, c: Id, env: Surroundings, replayEnv: Surroundings) returns (r: ConsistencyResult)
    requires a != b && a != c && b != c
    ensures r.Reported? && r.report.journalKernel && r.report.traceJournal && r.report.replayJournal
    ensures !r.report.structural && !r.report.pass
  {
    PlanJoins(a, b, c);
    r := CheckJoin(Plan(a, b, c), a, b, c, env, replayEnv);
  }

  method CheckJoin(rir: Rir, a: Id, ghost b: Id, ghost c: Id, env: Surroundings, replayEnv: Surroundings)
    returns (r: ConsistencyResult)
    requires Joins(rir, a, b, c)
    ensures r.Reported? && r.report.journalKernel && r.report.traceJournal && r.report.replayJournal
    ensures !r.report.structural && !r.report.pass
  {
    JoinIsAccepted(rir, a, b, c);
    OnlyFailsIsCalm(rir, a, env);
    OnlyFailsIsCalm(rir, a, replayEnv);
    ghost var first, again;
    r, first, again := FullConsistencyCheck(rir, OnlyFails(a), env, replayEnv, true);
    JoinIsFragile(rir, a, b, c, first.ceg);
  }
}
