/** The cross-domain consistency check: journal, trace, replay and structure against one run. */
module Consistency {
  import opened Ids
  import opened Options
  import opened Plans
  import opened Wiring
  import opened Builder
  import opened Statuses
  import opened Observers
  import opened Activating
  import opened Runs
  import opened Courses
  import opened CalmRuns
  import opened Scheduling
  import opened Verifying
  import opened Kernel
  import opened Robustness
  import opened Replaying
  import Waves

  // ----- The events the check feeds to its observers -----

  /** One event per node with a status, in node order. */
  function FinalEvents(nodes: seq<Id>, states: map<Id, Status>): seq<Event> {
    if nodes == [] then []
    else
      var n := nodes[|nodes| - 1];
      FinalEvents(nodes[..|nodes| - 1], states) + if n in states then [Event(n, states[n])] else []
  }

  method CollectFinal(nodes: seq<Id>, states: map<Id, Status>) returns (events: seq<Event>)
    ensures events == FinalEvents(nodes, states)
  {
    events := [];
    for i := 0 to |nodes|
      invariant events == FinalEvents(nodes[..i], states)
    {
      assert nodes[..i + 1][..i] == nodes[..i];
      if nodes[i] in states {
        events := events + [Event(nodes[i], states[nodes[i]])];
      }
    }
    assert nodes[..|nodes|] == nodes;
  }

  /** Replaying the final statuses, one event per node, gives them back. */
  lemma {:induction false} FinalEventsRecover(nodes: seq<Id>, states: map<Id, Status>)
    requires Distinct(nodes)
    ensures var events := FinalEvents(nodes, states);
            && ValidLog(events)
            && (forall n :: n in After(events) <==> n in nodes && n in states)
            && (forall n :: n in After(events) ==> After(events)[n] == states[n])
  {
    if nodes != [] {
      var shorter, n := nodes[..|nodes| - 1], nodes[|nodes| - 1];
      FinalEventsRecover(shorter, states);
      assert nodes == shorter + [n] && n !in shorter;
      var events := FinalEvents(shorter, states);
      if n in states {
        LogGrows(events, Event(n, states[n]));
        assert FinalEvents(nodes, states) == events + [Event(n, states[n])];
      } else {
        assert FinalEvents(nodes, states) == events;
      }
    }
  }

  // ----- The four checks -----

  method SameStatuses(journal: map<Id, Status>, kernel: map<Id, Status>) returns (same: bool)
    ensures same <==> journal == kernel
  {
    var todo := journal.Keys;
    while todo != {}
      invariant todo <= journal.Keys
      invariant forall n :: n in journal && n !in todo ==> Is(kernel, n, journal[n])
      decreases |todo|
    {
      var n :| n in todo;
      todo := todo - {n};
      if n !in kernel || kernel[n] != journal[n] {
        return false;
      }
    }
    todo := kernel.Keys;
    while todo != {}
      invariant todo <= kernel.Keys
      invariant forall n :: n in kernel && n !in todo ==> Is(journal, n, kernel[n])
      decreases |todo|
    {
      var n :| n in todo;
      todo := todo - {n};
      if n !in journal || journal[n] != kernel[n] {
        return false;
      }
    }
    assert journal.Keys == kernel.Keys;
    same := true;
  }

  method TraceMatches(traces: Traces, journal: map<Id, Status>) returns (same: bool)
    ensures same <==> forall n :: n in traces ==> Lookup(journal, n) == traces[n] && traces[n].Some?
  {
    var todo := traces.Keys;
    while todo != {}
      invariant todo <= traces.Keys
      invariant forall n :: n in traces && n !in todo ==> Lookup(journal, n) == traces[n] && traces[n].Some?
      decreases |todo|
    {
      var n :| n in todo;
      todo := todo - {n};
      if n !in journal || traces[n] != Some(journal[n]) {
        return false;
      }
    }
    same := true;
  }

  datatype ConsistencyReport = ConsistencyReport(
    journalKernel: bool,
    traceJournal: bool,
    replayJournal: bool,
    structural: bool,
    pass: bool)

  /** The four checks on a finished run and its replay. The journal always agrees with the
      kernel; the trace agrees exactly when everything is terminal; the replay exactly when it
      ended in the same status map; the structure exactly when it is sound. */
  method Check(ceg: Ceg, states: map<Id, Status>, replayed: map<Id, Status>) returns (report: ConsistencyReport)
    requires Distinct(ceg.nodes) && Elements(ceg.nodes) == ceg.nodeMap.Keys == states.Keys
    ensures report.journalKernel
    ensures report.traceJournal <==> forall n :: n in states ==> IsTerminal(states[n])
    ensures report.replayJournal <==> states == replayed
    ensures report.structural <==> Sound(ceg, states)
    ensures report.pass <==> report.journalKernel && report.traceJournal && report.replayJournal && report.structural
  {
    var events := CollectFinal(ceg.nodes, states);
    FinalEventsAre(ceg.nodes, states, events);
    var journal := new Journal();
    journal.Subscribe(events);
    var collector := new Collector();
    collector.Subscribe(events);
    JournalOf(events);
    TraceKnowsTerminals(events);

    var terminals := LoadTerminals(journal.entries);
    var journalKernel := SameStatuses(terminals, states);
    var traceJournal := TraceMatches(collector.traces, terminals);
    TracesOf(states, collector.traces);
    var lines := LoadTerminals(journal.entries);
    var replayJournal, _ := Compare(lines, replayed);
    var structure := Structural(ceg, journal.entries);
    report := ConsistencyReport(journalKernel, traceJournal, replayJournal, structure.pass,
                                journalKernel && traceJournal && replayJournal && structure.pass);
  }

  lemma FinalEventsAre(nodes: seq<Id>, states: map<Id, Status>, events: seq<Event>)
    requires Distinct(nodes) && Elements(nodes) == states.Keys && events == FinalEvents(nodes, states)
    ensures ValidLog(events) && After(events) == states
  {
    FinalEventsRecover(nodes, states);
    forall n
      ensures n in After(events) <==> n in states
    {
      assert n in nodes <==> n in Elements(nodes);
    }
    assert After(events).Keys == states.Keys;
  }

  lemma JournalOf(events: seq<Event>)
    ensures LastWrites(Journaled(events)) == After(events)
  {
    JournalIsFaithful(events, Empty);
  }

  lemma TracesOf(states: map<Id, Status>, traces: Traces)
    requires traces.Keys == states.Keys
    requires forall n :: n in states ==> traces[n] == if IsTerminal(states[n]) then Some(states[n]) else None
    ensures (forall n :: n in traces ==> Lookup(states, n) == traces[n] && traces[n].Some?)
            <==> forall n :: n in states ==> IsTerminal(states[n])
  {
  }

  // ----- The check over two executions -----

  /** Two graphs built from one RIR give every node the same meaning. */
  lemma {:induction false} MeaningIsBuildIndependent(a: Ceg, b: Ceg, d: Dispatch, n: Id)
    requires Backward(a) && Backward(b) && n in a.nodeMap
    requires SameRules(a, b)
    ensures Meaning(a, d, n) == Meaning(b, d, n)
    decreases a.nodeMap[n].layer
  {
    assert LooksBack(a, n) && LooksBack(b, n);
    var rule := a.nodeMap[n].activation;
    forall c | c in rule.Candidates()
      ensures Meaning(a, d, c) == Meaning(b, d, c)
    {
      MeaningIsBuildIndependent(a, b, d, c);
    }
    SameCandidatesSameFiring(a, b, d, n);
  }

  lemma SameCandidatesSameFiring(a: Ceg, b: Ceg, d: Dispatch, n: Id)
    requires Backward(a) && Backward(b) && n in a.nodeMap && n in b.nodeMap
    requires a.nodeMap[n].activation == b.nodeMap[n].activation
    requires forall c :: c in a.nodeMap[n].activation.Candidates() ==>
               c in a.nodeMap && c in b.nodeMap && Meaning(a, d, c) == Meaning(b, d, c)
    ensures Fires(a, d, n) == Fires(b, d, n) && GivesUp(a, d, n) == GivesUp(b, d, n)
  {
  }

  lemma FiringIsBuildIndependent(a: Ceg, b: Ceg, d: Dispatch, n: Id)
    requires Backward(a) && Backward(b) && n in a.nodeMap && SameRules(a, b)
    ensures Fires(a, d, n) == Fires(b, d, n) && Meaning(a, d, n) == Meaning(b, d, n)
  {
    assert LooksBack(a, n) && LooksBack(b, n);
    forall c | c in a.nodeMap[n].activation.Candidates()
      ensures Meaning(a, d, c) == Meaning(b, d, c)
    {
      MeaningIsBuildIndependent(a, b, d, c);
    }
    SameCandidatesSameFiring(a, b, d, n);
  }

  lemma WaveJamsAlike(a: Ceg, b: Ceg, d: Dispatch, wave: seq<Id>)
    requires Backward(a) && Backward(b) && SameRules(a, b)
    ensures WaveJams(a, d, wave) == WaveJams(b, d, wave)
  {
    forall n | n in wave && n in a.nodeMap
      ensures Fires(a, d, n) == Fires(b, d, n) && Meaning(a, d, n) == Meaning(b, d, n)
    {
      FiringIsBuildIndependent(a, b, d, n);
    }
  }

  /** The waves, and whether one of them jams, do not depend on the graph built from the plan. */
  lemma JamsAreBuildIndependent(rir: Rir, a: Ceg, b: Ceg, d: Dispatch, wavesA: seq<seq<seq<Id>>>,
                                wavesB: seq<seq<seq<Id>>>)
    requires Represents(rir, a) && Represents(rir, b) && Backward(a) && Backward(b)
    requires AreAllWaves(rir, a, wavesA) && AreAllWaves(rir, b, wavesB)
    ensures wavesA == wavesB && Jams(a, d, wavesA) == Jams(b, d, wavesB)
  {
    SameActivationRules(rir, a, b);
    SameWaves(rir, a, b, wavesA, wavesB);
    forall l, w | 0 <= l < |wavesA| && 0 <= w < |wavesA[l]|
      ensures WaveJams(a, d, wavesA[l][w]) == WaveJams(b, d, wavesA[l][w])
    {
      WaveJamsAlike(a, b, d, wavesA[l][w]);
    }
    forall l | 0 <= l < |wavesA|
      ensures LayerJams(a, d, wavesA[l]) == LayerJams(b, d, wavesA[l])
    {
    }
  }

  lemma MeaningsAgree(rir: Rir, a: Ceg, b: Ceg, d: Dispatch, statesA: map<Id, Status>, statesB: map<Id, Status>)
    requires Represents(rir, a) && Represents(rir, b)
    requires IsMeaning(a, d, statesA) && IsMeaning(b, d, statesB)
    ensures statesA == statesB
  {
    SameActivationRules(rir, a, b);
    SameMeanings(a, b, d, statesA, statesB);
  }

  lemma SameMeanings(a: Ceg, b: Ceg, d: Dispatch, statesA: map<Id, Status>, statesB: map<Id, Status>)
    requires IsMeaning(a, d, statesA) && IsMeaning(b, d, statesB) && SameRules(a, b)
    ensures statesA == statesB
  {
    assert statesA.Keys == statesB.Keys;
    forall n | n in statesA
      ensures statesA[n] == statesB[n]
    {
      MeaningIsBuildIndependent(a, b, d, n);
    }
  }

  /** Whether a plan is robust does not depend on the graph built from it. */
  lemma RobustIsBuildIndependent(rir: Rir, a: Ceg, b: Ceg)
    requires Represents(rir, a) && Represents(rir, b) && Backward(a) && Backward(b)
    ensures Robust(a) == Robust(b)
  {
    SameActivationRules(rir, a, b);
    SameRobustness(a, b);
  }

  /** Every node becomes terminal by itself. */
  ghost predicate Ends(ceg: Ceg, d: Dispatch)
    requires Backward(ceg)
  {
    forall n :: n in ceg.nodeMap ==> IsTerminal(Meaning(ceg, d, n))
  }

  lemma ListedAreTerminalIff(rir: Rir, ceg: Ceg, d: Dispatch, states: map<Id, Status>)
    requires Represents(rir, ceg) && IsMeaning(ceg, d, states)
    ensures (forall n :: n in ceg.nodes ==> n in states && IsTerminal(states[n])) <==> Ends(ceg, d)
    ensures (forall n :: n in states ==> IsTerminal(states[n])) <==> Ends(ceg, d)
  {
    forall n
      ensures n in ceg.nodes <==> n in ceg.nodeMap
    {
      assert n in ceg.nodes <==> n in Elements(ceg.nodes);
    }
  }

  lemma DependenciesAreMeanings(ceg: Ceg, d: Dispatch, states: map<Id, Status>)
    requires IsMeaning(ceg, d, states)
    ensures DependenciesMet(ceg, states) <==> DependenciesSucceed(ceg, d)
  {
  }

  /** A node that fired met its rule. */
  lemma MeaningsActivate(ceg: Ceg, d: Dispatch, states: map<Id, Status>)
    requires IsMeaning(ceg, d, states)
    ensures forall n :: n in ceg.nodes && SucceedsOnAll(ceg, states, n) ==>
              RequirementsMet(ceg.nodeMap[n].activation.required, states)
  {
    forall n | SucceedsOnAll(ceg, states, n)
      ensures RequirementsMet(ceg.nodeMap[n].activation.required, states)
    {
      assert LooksBack(ceg, n) && Fires(ceg, d, n);
    }
  }

  /** On the statuses that a calm run completes with, the structure is sound exactly when every node
      has become terminal and the dependency edges are respected; the other rules cannot fail. */
  lemma MeaningSoundness(rir: Rir, ceg: Ceg, d: Dispatch, states: map<Id, Status>)
    requires Represents(rir, ceg) && IsMeaning(ceg, d, states)
    ensures Sound(ceg, states) <==> Ends(ceg, d) && DependenciesSucceed(ceg, d)
  {
    ListedAreTerminalIff(rir, ceg, d, states);
    DependenciesAreMeanings(ceg, d, states);
    MeaningsActivate(ceg, d, states);
  }

  /** The statuses that a calm run completes with. */
  ghost function MeaningMap(ceg: Ceg, d: Dispatch): map<Id, Status>
    requires Backward(ceg)
  {
    map n | n in ceg.nodeMap :: Meaning(ceg, d, n)
  }

  lemma MapIsMeaning(ceg: Ceg, d: Dispatch)
    requires Backward(ceg)
    ensures IsMeaning(ceg, d, MeaningMap(ceg, d))
  {
  }

  lemma CooperativeSoundness(rir: Rir, ceg: Ceg, d: Dispatch)
    requires Represents(rir, ceg) && WellFormed(ceg) && Cooperative(d)
    ensures Sound(ceg, MeaningMap(ceg, d)) <==> DependenciesSucceed(ceg, d)
  {
    AllBecomeTerminal(ceg, d);
    assert Ends(ceg, d);
    MapIsMeaning(ceg, d);
    MeaningSoundness(rir, ceg, d, MeaningMap(ceg, d));
  }

  /** The structural verification accepts the outcome of every cooperative dispatch exactly when the
      plan is robust, that is when no dependency edge leads to a unit that can succeed without it. */
  lemma SoundIffRobust(rir: Rir, ceg: Ceg)
    requires Represents(rir, ceg) && WellFormed(ceg)
    ensures (forall d :: Cooperative(d) ==> Sound(ceg, MeaningMap(ceg, d))) <==> Robust(ceg)
  {
    if Robust(ceg) {
      forall d | Cooperative(d)
        ensures Sound(ceg, MeaningMap(ceg, d))
      {
        RobustRespects(ceg, d);
        CooperativeSoundness(rir, ceg, d);
      }
    } else {
      RespectedIff(ceg);
      var d: Dispatch :| Cooperative(d) && !DependenciesSucceed(ceg, d);
      CooperativeSoundness(rir, ceg, d);
    }
  }

  /** The ACTIVATION rule reports nothing on the statuses of any run, at any moment. */
  lemma ActivationRuleNeverFails(rir: Rir, ceg: Ceg, d: Dispatch, calm: bool, waves: seq<seq<seq<Id>>>, log: seq<Event>)
    requires IsRunOf(rir, ceg, d, calm, waves, log)
    ensures forall v: Violation :: v.RequirementUnmet? ==> !Holds(ceg, After(log), v)
    ensures forall n :: n in ceg.nodes && SucceedsOnAll(ceg, After(log), n) ==>
              RequirementsMet(ceg.nodeMap[n].activation.required, After(log))
  {
    ActivationSafety(ceg, d, waves, calm, log);
    forall n | SucceedsOnAll(ceg, After(log), n)
      ensures RequirementsMet(ceg.nodeMap[n].activation.required, After(log))
    {
      var a := ceg.nodeMap[n].activation;
      assert Started(After(log)[n]);
      forall r | r in a.required
        ensures Is(After(log), r, Success)
      {
        var i :| 0 <= i < |a.required| && a.required[i] == r;
        assert Succeeded(After(log), a.required[i]);
      }
    }
  }

  /** The check fails without a report when there is no graph or a run does not return. */
  datatype ConsistencyResult = Unbuilt(error: BuildError) | NoReport | Reported(report: ConsistencyReport)

  /** What one execution of the plan has left as evidence. */
  datatype Evidence = Evidence(ceg: Ceg, waves: seq<seq<seq<Id>>>, log: seq<Event>, result: RunResult)

  ghost predicate IsEvidence(rir: Rir, d: Dispatch, env: Surroundings, calm: bool, e: Evidence) {
    && IsRunOf(rir, e.ceg, d, calm && !e.result.Escalated?, e.waves, e.log)
    && EndsWith(e.ceg, d, env, e.waves, FirstStates(e.ceg), e.result, After(e.log))
    && After(e.log).Keys == UnitIds(rir.units)
  }

  /** No wave is awaited for ever. */
  ghost predicate ReturnsIn(ceg: Ceg, d: Dispatch, waves: seq<seq<seq<Id>>>, env: Surroundings) {
    exists s :: Leaves(ceg, d, waves, env, s)
  }

  /** The report on a run that left `states` and its replay that left `replayed`. */
  ghost predicate IsReport(ceg: Ceg, states: map<Id, Status>, replayed: map<Id, Status>, report: ConsistencyReport) {
    && report.journalKernel
    && (report.traceJournal <==> forall n :: n in states ==> IsTerminal(states[n]))
    && (report.replayJournal <==> states == replayed)
    && (report.structural <==> Sound(ceg, states))
    && (report.pass <==> report.traceJournal && report.replayJournal && report.structural)
  }

  lemma ReturnsIff(rir: Rir, d: Dispatch, env: Surroundings, calm: bool, e: Evidence, ceg: Ceg,
                   waves: seq<seq<seq<Id>>>)
    requires IsEvidence(rir, d, env, calm, e) && Represents(rir, ceg) && AreAllWaves(rir, ceg, waves)
    ensures waves == e.waves
    ensures EndsWith(ceg, d, env, waves, FirstStates(ceg), e.result, After(e.log))
    ensures ReturnsIn(ceg, d, waves, env) <==> Returns(e.result)
  {
    SameWaves(rir, e.ceg, ceg, e.waves, waves);
    SameActivationRules(rir, e.ceg, ceg);
    EndIsBuildIndependent(e.ceg, ceg, d, env, waves, e.result, After(e.log));
    if Returns(e.result) {
      assert Leaves(ceg, d, waves, env, After(e.log));
    } else if s :| Leaves(ceg, d, waves, env, s) {
      var r :| EndsWith(ceg, d, env, waves, FirstStates(ceg), r, s) && Returns(r);
      EndsOnce(ceg, d, env, waves, FirstStates(ceg), r, s, e.result, After(e.log));
      assert false;
    }
  }

  /** If the run completes the replay leaves the same statuses, and in any case exactly if it ends
      alike. */
  lemma ReplayedAlike(ceg: Ceg, d: Dispatch, waves: seq<seq<seq<Id>>>, env: Surroundings, r: RunResult,
                      s: map<Id, Status>, other: Surroundings, q: RunResult, t: map<Id, Status>)
    requires EndsWith(ceg, d, env, waves, FirstStates(ceg), r, s) && Returns(r)
    requires EndsWith(ceg, d, other, waves, FirstStates(ceg), q, t) && Returns(q)
    ensures s == t <==> EndsAlike(ceg, d, waves, env, other)
    ensures r.Completed? ==> s == t
  {
    assert Leaves(ceg, d, waves, env, s) && Leaves(ceg, d, waves, other, t);
    if r.Completed? {
      CompletedReplaysAgree(ceg, d, env, waves, s, env, other);
    }
    forall x, y | Leaves(ceg, d, waves, env, x) && Leaves(ceg, d, waves, other, y)
      ensures x == s && y == t
    {
      var p :| EndsWith(ceg, d, env, waves, FirstStates(ceg), p, x) && Returns(p);
      var o :| EndsWith(ceg, d, other, waves, FirstStates(ceg), o, y) && Returns(o);
      EndsOnce(ceg, d, env, waves, FirstStates(ceg), p, x, r, s);
      EndsOnce(ceg, d, other, waves, FirstStates(ceg), o, y, q, t);
    }
  }

  /** What the check says where runs are calm and nothing escalates. */
  ghost predicate CalmVerdict(ceg: Ceg, d: Dispatch, waves: seq<seq<seq<Id>>>, r: ConsistencyResult) {
    && Backward(ceg) && (r.NoReport? <==> Jams(ceg, d, waves))
    && (r.Reported? ==>
          && r.report.replayJournal
          && (r.report.traceJournal <==> Ends(ceg, d))
          && (r.report.structural <==> Ends(ceg, d) && DependenciesSucceed(ceg, d))
          && (r.report.pass <==> r.report.structural))
  }

  /** What it says where moreover every rule can be decided and every answer is accepted. */
  ghost predicate CooperativeVerdict(ceg: Ceg, d: Dispatch, r: ConsistencyResult) {
    && Backward(ceg) && r.Reported? && Ends(ceg, d)
    && (Robust(ceg) ==> r.report.pass)
    && (Robust(ceg) <==> forall e :: Cooperative(e) ==> DependenciesSucceed(ceg, e))
  }

  /** Executes, replays and checks. There is a report exactly when both executions return. It says of
      the first that journal and kernel agree, whether every unit is terminal, whether the structure
      is sound, and whether the second has ended in the same status map; which it has whenever the
      first completes, whatever the two surroundings. Where rules name predecessors only, nothing
      escalates and nothing is cut short, there is no report exactly when some wave jams, and a
      report passes exactly when every unit becomes terminal and no dependency edge leads from a
      unit that does not succeed to one that does. Where moreover every rule can be decided and every
      answer is accepted there is a report; it passes for every such dispatch exactly when the plan
      is robust. */
  method FullConsistencyCheck(rir: Rir, d: Dispatch, env: Surroundings, replayEnv: Surroundings, ghost calm: bool)
    returns (r: ConsistencyResult, ghost first: Evidence, ghost again: Evidence)
    requires UniqueIds(rir.units)
    requires calm ==> Steady(d) && Calm(rir, d, env) && Calm(rir, d, replayEnv)
    ensures r.Unbuilt? <==> !Acceptable(rir)
    ensures r.Unbuilt? ==> BreaksFirst(rir, r.error)
    ensures !r.Unbuilt? ==>
              && IsEvidence(rir, d, env, calm, first)
              && (r.Reported? <==>
                    && ReturnsIn(first.ceg, d, first.waves, env)
                    && ReturnsIn(first.ceg, d, first.waves, replayEnv))
    ensures r.Reported? ==>
              && IsEvidence(rir, d, replayEnv, calm, again)
              && IsReport(first.ceg, After(first.log), After(again.log), r.report)
              && (r.report.replayJournal <==> EndsAlike(first.ceg, d, first.waves, env, replayEnv))
              && (first.result.Completed? ==> r.report.replayJournal)
    ensures calm && !r.Unbuilt? ==> CalmVerdict(first.ceg, d, first.waves, r)
    ensures calm && !r.Unbuilt? && WellFormedRir(rir) && Cooperative(d) ==> CooperativeVerdict(first.ceg, d, r)
  {
    ghost var waves, log, heard;
    var x;
    x, waves, log, heard := Execute(rir, d, env, calm);
    first := Evidence(Ceg([], [], map[], map[], [], 0), [], [], ClaimFailed);
    again := first;
    if x.NotBuilt? {
      return Unbuilt(x.error), first, again;
    }
    first := Evidence(x.ceg, waves, log, x.result);
    ReturnsIff(rir, d, env, calm, first, x.ceg, waves);
    if !x.result.Completed? && !x.result.Escalated? {
      return NoReport, first, again;
    }
    var replayed;
    replayed, again := Replay(rir, d, replayEnv, calm, x.ceg, waves);
    if calm {
      BothJam(rir, d, x.ceg, again.ceg, waves, again.waves, x.result, replayed);
    }
    if !replayed.Completed? && !replayed.Escalated? {
      return NoReport, first, again;
    }
    var report := Check(x.ceg, x.result.states, replayed.states);
    ReplayedAlike(x.ceg, d, waves, env, x.result, x.result.states, replayEnv, replayed, replayed.states);
    if calm {
      CalmReport(rir, x.ceg, again.ceg, d, waves, x.result, replayed, report);
    }
    r := Reported(report);
  }

  /** Executes the plan again. The evidence stands for any graph of the plan. */
  method Replay(rir: Rir, d: Dispatch, env: Surroundings, ghost calm: bool, ghost ceg: Ceg,
                ghost waves: seq<seq<seq<Id>>>)
    returns (result: RunResult, ghost again: Evidence)
    requires UniqueIds(rir.units) && Acceptable(rir) && Represents(rir, ceg) && AreAllWaves(rir, ceg, waves)
    requires calm ==> Calm(rir, d, env)
    ensures IsEvidence(rir, d, env, calm, again) && again.result == result
    ensures EndsWith(ceg, d, env, waves, FirstStates(ceg), result, After(again.log))
    ensures ReturnsIn(ceg, d, waves, env) <==> Returns(result)
    ensures calm ==> IsOutcome(again.ceg, d, again.waves, result)
  {
    ghost var wavesAgain, log, heard;
    var x;
    x, wavesAgain, log, heard := Execute(rir, d, env, calm);
    result := x.result;
    again := Evidence(x.ceg, wavesAgain, log, result);
    ReturnsIff(rir, d, env, calm, again, ceg, waves);
  }

  lemma BothJam(rir: Rir, d: Dispatch, a: Ceg, b: Ceg, wavesA: seq<seq<seq<Id>>>, wavesB: seq<seq<seq<Id>>>,
                r: RunResult, q: RunResult)
    requires Represents(rir, a) && Represents(rir, b) && Steady(d)
    requires AreAllWaves(rir, a, wavesA) && AreAllWaves(rir, b, wavesB)
    requires IsOutcome(a, d, wavesA, r) && IsOutcome(b, d, wavesB, q)
    ensures r.NeverReturns? <==> q.NeverReturns?
    ensures r.NeverReturns? <==> Jams(a, d, wavesA)
  {
    JamsAreBuildIndependent(rir, a, b, d, wavesA, wavesB);
  }

  lemma CalmReport(rir: Rir, a: Ceg, b: Ceg, d: Dispatch, waves: seq<seq<seq<Id>>>, r: RunResult, q: RunResult,
                   report: ConsistencyReport)
    requires Represents(rir, a) && Represents(rir, b) && Steady(d)
    requires r.Completed? && q.Completed? && IsMeaning(a, d, r.states) && IsMeaning(b, d, q.states)
    requires IsReport(a, r.states, q.states, report) && !Jams(a, d, waves)
    ensures CalmVerdict(a, d, waves, Reported(report))
    ensures WellFormed(a) && Cooperative(d) ==> CooperativeVerdict(a, d, Reported(report))
  {
    ReportIsExact(rir, a, b, d, r.states, q.states);
    if WellFormed(a) && Cooperative(d) {
      AllBecomeTerminal(a, d);
    }
  }

  lemma ReportIsExact(rir: Rir, a: Ceg, b: Ceg, d: Dispatch, states: map<Id, Status>, replayed: map<Id, Status>)
    requires Represents(rir, a) && Represents(rir, b) && IsMeaning(a, d, states) && IsMeaning(b, d, replayed)
    ensures states == replayed
    ensures Sound(a, states) <==> Ends(a, d) && DependenciesSucceed(a, d)
    ensures (forall n :: n in states ==> IsTerminal(states[n])) <==> Ends(a, d)
    ensures Robust(a) <==> forall e :: Cooperative(e) ==> DependenciesSucceed(a, e)
  {
    MeaningsAgree(rir, a, b, d, states, replayed);
    MeaningSoundness(rir, a, d, states);
    ListedAreTerminalIff(rir, a, d, states);
    RespectedIff(a);
  }
}
