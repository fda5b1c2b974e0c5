/** Structural verification and replay comparison. */
module Verifying {
  import opened Ids
  import opened Options
  import opened Plans
  import opened Wiring
  import opened Statuses
  import opened Observers

  // ----- Structural verification -----

  datatype Violation =
    | MissingNode(node: Id)
    | NotTerminal(node: Id)
    | DependencyUnmet(node: Id, dependency: Id)
    | RequirementUnmet(node: Id, requirement: Id)

  datatype Report = Report(pass: bool, violations: seq<Violation>)

  ghost predicate Is(m: map<Id, Status>, n: Id, s: Status) {
    n in m && m[n] == s
  }

  predicate IsDependency(e: Edge, from: Id, to: Id) {
    e.kind.Dependency? && e.from == from && e.to == to
  }

  /** What each kind of violation says about the graph and the journaled statuses. */
  ghost predicate Holds(ceg: Ceg, terminals: map<Id, Status>, v: Violation) {
    match v
    case MissingNode(n) => n in ceg.nodes && n !in terminals
    case NotTerminal(n) => n in ceg.nodes && n in terminals && !IsTerminal(terminals[n])
    case DependencyUnmet(n, dep) =>
      && (exists i :: 0 <= i < |ceg.edges| && IsDependency(ceg.edges[i], dep, n))
      && Is(terminals, n, Success) && dep in terminals && terminals[dep] != Success
    case RequirementUnmet(n, req) =>
      && n in ceg.nodes && n in ceg.nodeMap && ceg.nodeMap[n].activation.condition.AllSuccess?
      && Is(terminals, n, Success) && req in ceg.nodeMap[n].activation.required && !Is(terminals, req, Success)
  }

  /** All nodes terminal, no success without its dependencies and requirements. */
  ghost predicate Sound(ceg: Ceg, terminals: map<Id, Status>) {
    && (forall n :: n in ceg.nodes ==> n in terminals && IsTerminal(terminals[n]))
    && DependenciesMet(ceg, terminals)
    && (forall n :: n in ceg.nodes && SucceedsOnAll(ceg, terminals, n) ==>
          RequirementsMet(ceg.nodeMap[n].activation.required, terminals))
  }

  /** An `all_success` node that succeeded. */
  ghost predicate SucceedsOnAll(ceg: Ceg, terminals: map<Id, Status>, n: Id) {
    n in ceg.nodeMap && ceg.nodeMap[n].activation.condition.AllSuccess? && Is(terminals, n, Success)
  }

  ghost predicate DependenciesMet(ceg: Ceg, terminals: map<Id, Status>) {
    forall i :: 0 <= i < |ceg.edges| && ceg.edges[i].kind.Dependency? && Is(terminals, ceg.edges[i].to, Success) ==>
      ceg.edges[i].from !in terminals || terminals[ceg.edges[i].from] == Success
  }

  ghost predicate RequirementsMet(required: seq<Id>, terminals: map<Id, Status>) {
    forall r :: r in required ==> Is(terminals, r, Success)
  }

  method CheckTerminal(ceg: Ceg, terminals: map<Id, Status>) returns (found: seq<Violation>)
    ensures forall v :: v in found <==> (v.MissingNode? || v.NotTerminal?) && Holds(ceg, terminals, v)
  {
    found := [];
    for i := 0 to |ceg.nodes|
      invariant forall v :: v in found <==>
                  (v.MissingNode? || v.NotTerminal?) && v.node in ceg.nodes[..i] && Holds(ceg, terminals, v)
    {
      var n := ceg.nodes[i];
      assert ceg.nodes[..i + 1] == ceg.nodes[..i] + [n];
      if n !in terminals {
        found := found + [MissingNode(n)];
      } else if !IsTerminal(terminals[n]) {
        found := found + [NotTerminal(n)];
      }
    }
    assert ceg.nodes[..|ceg.nodes|] == ceg.nodes;
  }

  ghost predicate FoundBefore(ceg: Ceg, terminals: map<Id, Status>, count: nat, v: Violation) {
    v.DependencyUnmet? &&
    exists i :: 0 <= i < count && i < |ceg.edges| && UnmetAt(ceg.edges[i], terminals, v)
  }

  ghost predicate UnmetAt(e: Edge, terminals: map<Id, Status>, v: Violation) {
    && e.kind.Dependency? && v == DependencyUnmet(e.to, e.from)
    && Is(terminals, e.to, Success) && e.from in terminals && terminals[e.from] != Success
  }

  method CheckDependencies(ceg: Ceg, terminals: map<Id, Status>) returns (found: seq<Violation>)
    ensures forall v :: v in found <==> v.DependencyUnmet? && Holds(ceg, terminals, v)
  {
    found := [];
    for i := 0 to |ceg.edges|
      invariant forall v :: v in found <==> FoundBefore(ceg, terminals, i, v)
    {
      var e := ceg.edges[i];
      ghost var before := found;
      if e.kind.Dependency? && e.to in terminals && e.from in terminals {
        if terminals[e.to].Success? && !terminals[e.from].Success? {
          found := found + [DependencyUnmet(e.to, e.from)];
        }
      }
      forall v
        ensures v in found <==> FoundBefore(ceg, terminals, i + 1, v)
      {
        assert v in found <==> v in before || UnmetAt(e, terminals, v);
      }
    }
    forall v
      ensures v in found <==> v.DependencyUnmet? && Holds(ceg, terminals, v)
    {
      if v.DependencyUnmet? && Holds(ceg, terminals, v) {
        var i :| 0 <= i < |ceg.edges| && IsDependency(ceg.edges[i], v.dependency, v.node);
        assert UnmetAt(ceg.edges[i], terminals, v);
      }
    }
  }

  method CheckActivation(ceg: Ceg, terminals: map<Id, Status>) returns (found: seq<Violation>)
    requires Elements(ceg.nodes) == ceg.nodeMap.Keys
    ensures forall v :: v in found <==> v.RequirementUnmet? && Holds(ceg, terminals, v)
  {
    found := [];
    for i := 0 to |ceg.nodes|
      invariant forall v :: v in found <==> v.RequirementUnmet? && v.node in ceg.nodes[..i] && Holds(ceg, terminals, v)
    {
      var n := ceg.nodes[i];
      assert ceg.nodes[..i + 1] == ceg.nodes[..i] + [n];
      assert n in Elements(ceg.nodes);
      var a := ceg.nodeMap[n].activation;
      if a.condition.AllSuccess? && n in terminals && terminals[n].Success? {
        var unmet := CheckRequirements(n, a.required, terminals);
        found := found + unmet;
      }
    }
    assert ceg.nodes[..|ceg.nodes|] == ceg.nodes;
  }

  method CheckRequirements(n: Id, required: seq<Id>, terminals: map<Id, Status>) returns (found: seq<Violation>)
    ensures forall v :: v in found <==>
              v.RequirementUnmet? && v.node == n && v.requirement in required && !Is(terminals, v.requirement, Success)
  {
    found := [];
    for i := 0 to |required|
      invariant forall v :: v in found <==>
                  v.RequirementUnmet? && v.node == n && v.requirement in required[..i]
                      && !Is(terminals, v.requirement, Success)
    {
      assert required[..i + 1] == required[..i] + [required[i]];
      if required[i] !in terminals || !terminals[required[i]].Success? {
        found := found + [RequirementUnmet(n, required[i])];
      }
    }
    assert required[..|required|] == required;
  }

  /** Reports exactly the violations there are, and passes exactly when there is none. */
  method Structural(ceg: Ceg, lines: seq<Entry>) returns (report: Report)
    requires Elements(ceg.nodes) == ceg.nodeMap.Keys
    ensures forall v :: v in report.violations <==> Holds(ceg, LastWrites(lines), v)
    ensures report.pass <==> Sound(ceg, LastWrites(lines))
  {
    var terminals := LoadTerminals(lines);
    var missing := CheckTerminal(ceg, terminals);
    var dependencies := CheckDependencies(ceg, terminals);
    var activations := CheckActivation(ceg, terminals);
    var violations := missing + dependencies + activations;
    report := Report(|violations| == 0, violations);
    SoundnessIsAbsence(ceg, terminals, violations);
  }

  lemma SoundnessIsAbsence(ceg: Ceg, terminals: map<Id, Status>, violations: seq<Violation>)
    requires forall v :: v in violations <==> Holds(ceg, terminals, v)
    ensures violations == [] <==> Sound(ceg, terminals)
  {
    if violations == [] {
      forall n | n in ceg.nodes
        ensures n in terminals && IsTerminal(terminals[n])
      {
        assert !Holds(ceg, terminals, MissingNode(n)) && !Holds(ceg, terminals, NotTerminal(n));
      }
      forall i | 0 <= i < |ceg.edges| && ceg.edges[i].kind.Dependency? && Is(terminals, ceg.edges[i].to, Success)
        ensures ceg.edges[i].from !in terminals || terminals[ceg.edges[i].from] == Success
      {
        assert !Holds(ceg, terminals, DependencyUnmet(ceg.edges[i].to, ceg.edges[i].from));
      }
      forall n, r | n in ceg.nodes && n in ceg.nodeMap && ceg.nodeMap[n].activation.condition.AllSuccess?
                    && Is(terminals, n, Success) && r in ceg.nodeMap[n].activation.required
        ensures Is(terminals, r, Success)
      {
        assert !Holds(ceg, terminals, RequirementUnmet(n, r));
      }
    } else {
      assert violations[0] in violations;
      assert Holds(ceg, terminals, violations[0]);
      if violations[0].RequirementUnmet? {
        assert !RequirementsMet(ceg.nodeMap[violations[0].node].activation.required, terminals);
      }
    }
  }

  // ----- Replay -----

  datatype Divergence = Divergence(node: Id, journal: Option<Status>, replay: Option<Status>)

  ghost predicate Diverges(journal: map<Id, Status>, replay: map<Id, Status>, d: Divergence) {
    && (d.node in journal || d.node in replay)
    && d.journal == Lookup(journal, d.node) && d.replay == Lookup(replay, d.node)
    && d.journal != d.replay
  }

  /** Lists exactly the nodes on which the two maps differ; they match when there is none. */
  method Compare(journal: map<Id, Status>, replay: map<Id, Status>)
    returns (matches: bool, divergences: seq<Divergence>)
    ensures forall d :: d in divergences <==> Diverges(journal, replay, d)
    ensures matches <==> journal == replay
  {
    matches, divergences := true, [];
    var todo := journal.Keys;
    while todo != {}
      invariant todo <= journal.Keys
      invariant forall d :: d in divergences <==> d.node in journal && d.node !in todo && Diverges(journal, replay, d)
      invariant matches <==> divergences == []
      decreases |todo|
    {
      var n :| n in todo;
      todo := todo - {n};
      if Lookup(replay, n) != Some(journal[n]) {
        divergences := divergences + [Divergence(n, Some(journal[n]), Lookup(replay, n))];
        matches := false;
      }
    }
    var extra := replay.Keys;
    while extra != {}
      invariant extra <= replay.Keys
      invariant forall d :: d in divergences <==>
              (d.node in journal || d.node !in extra) && Diverges(journal, replay, d)
      invariant matches <==> divergences == []
      decreases |extra|
    {
      var n :| n in extra;
      extra := extra - {n};
      if n !in journal {
        divergences := divergences + [Divergence(n, None, Some(replay[n]))];
        matches := false;
      }
    }
    NoDivergenceIsEquality(journal, replay, divergences);
  }

  lemma NoDivergenceIsEquality(journal: map<Id, Status>, replay: map<Id, Status>, divergences: seq<Divergence>)
    requires forall d :: d in divergences <==> Diverges(journal, replay, d)
    ensures divergences == [] <==> journal == replay
  {
    if divergences == [] {
      forall n
        ensures n in journal <==> n in replay
        ensures n in journal && n in replay ==> journal[n] == replay[n]
      {
        assert !Diverges(journal, replay, Divergence(n, Lookup(journal, n), Lookup(replay, n)));
      }
      assert journal.Keys == replay.Keys;
    } else {
      assert divergences[0] in divergences;
    }
  }

  /** The statuses are unsound exactly if some node is missing or unfinished, some dependency edge leads
      from a node that has a status other than SUCCESS to one that is SUCCESS, or some `all_success`
      node is SUCCESS while one that it requires is not. */
  lemma UnsoundIff(ceg: Ceg, terminals: map<Id, Status>)
    ensures !Sound(ceg, terminals) <==>
              || (exists n :: n in ceg.nodes && (n !in terminals || !IsTerminal(terminals[n])))
              || (exists e :: e in ceg.edges && e.kind == Dependency && e.to in terminals && terminals[e.to] == Success
                              && e.from in terminals && terminals[e.from] != Success)
              || (exists n, r :: n in ceg.nodes && n in ceg.nodeMap && ceg.nodeMap[n].activation.condition == AllSuccess
                                 && n in terminals && terminals[n] == Success
                                 && r in ceg.nodeMap[n].activation.required
                                 && (r !in terminals || terminals[r] != Success))
  {
    if e :| e in ceg.edges && e.kind == Dependency && e.to in terminals && terminals[e.to] == Success
            && e.from in terminals && terminals[e.from] != Success {
      var i :| 0 <= i < |ceg.edges| && ceg.edges[i] == e;
      assert ceg.edges[i].kind.Dependency? && Is(terminals, ceg.edges[i].to, Success);
    }
    if !DependenciesMet(ceg, terminals) {
      var i :| 0 <= i < |ceg.edges| && ceg.edges[i].kind.Dependency? && Is(terminals, ceg.edges[i].to, Success)
               && ceg.edges[i].from in terminals && terminals[ceg.edges[i].from] != Success;
      assert ceg.edges[i] in ceg.edges;
    }
    if n, r :| n in ceg.nodes && n in ceg.nodeMap && ceg.nodeMap[n].activation.condition == AllSuccess
               && n in terminals && terminals[n] == Success && r in ceg.nodeMap[n].activation.required
               && (r !in terminals || terminals[r] != Success) {
      assert SucceedsOnAll(ceg, terminals, n) && !Is(terminals, r, Success);
    }
  }
}
