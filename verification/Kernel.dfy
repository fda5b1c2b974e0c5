/** The kernel put together: build, wave computation and run, and how an execution ends. */
module Kernel {
  import opened Ids
  import opened Options
  import opened Digraph
  import opened Plans
  import opened Wiring
  import opened Builder
  import opened Statuses
  import opened Commit
  import opened Observers
  import opened Runs
  import opened Courses
  import opened CalmRuns
  import opened Scheduling
  import Kahn

  // ----- Which RIRs can be executed to the end -----

  /** Edges start at units and rules name predecessors only. */
  ghost predicate BackwardRir(rir: Rir) {
    && UniqueIds(rir.units)
    && SourcesDeclared(Declared(rir))
    && (forall i, c :: 0 <= i < |rir.units| && c in rir.units[i].activation.Candidates() ==>
          c in Sources(rir.edges, rir.units[i].id))
  }

  /** In addition, every unit with predecessors has a rule that can be decided once they are terminal. */
  ghost predicate WellFormedRir(rir: Rir) {
    BackwardRir(rir) && forall i :: 0 <= i < |rir.units| ==> UnitDecides(rir, rir.units[i])
  }

  ghost predicate UnitDecides(rir: Rir, u: Unit) {
    Sources(rir.edges, u.id) != [] ==> Decidable(u.activation)
  }

  lemma UnitOf(rir: Rir, ceg: Ceg, n: Id) returns (i: nat)
    requires Represents(rir, ceg) && n in ceg.nodeMap
    ensures i < |rir.units| && rir.units[i].id == n && ceg.nodeMap[n].activation == rir.units[i].activation
  {
    assert n in Elements(ceg.nodes);
    var k :| 0 <= k < |ceg.nodes| && ceg.nodes[k] == n;
    i := k;
  }

  lemma CandidatesAreEarlier(rir: Rir, ceg: Ceg, n: Id)
    requires Represents(rir, ceg) && BackwardRir(rir) && !Cyclic(Declared(rir)) && n in ceg.nodeMap
    ensures LooksBack(ceg, n)
    ensures ceg.inDegree[n] == 0 ==> ceg.nodeMap[n].activation.Candidates() == []
  {
    var i := UnitOf(rir, ceg, n);
    var u := rir.units[i];
    SourcesAre(rir.edges, n);
    forall c | c in u.activation.Candidates()
      ensures c in ceg.nodeMap && ceg.nodeMap[c].layer < ceg.nodeMap[n].layer
    {
      var e :| e in rir.edges && e.from == c && e.to == n;
      EdgesGoForward(rir, ceg, e);
    }
    if u.activation.Candidates() != [] {
      assert u.activation.Candidates()[0] in Sources(rir.edges, n);
    }
  }

  lemma RulesDecide(rir: Rir, ceg: Ceg, n: Id)
    requires Represents(rir, ceg) && WellFormedRir(rir) && n in ceg.nodeMap && ceg.inDegree[n] != 0
    ensures Decidable(ceg.nodeMap[n].activation)
  {
    var i := UnitOf(rir, ceg, n);
    SourcesAre(rir.edges, n);
    assert UnitDecides(rir, rir.units[i]);
  }

  lemma BuiltIsLayered(rir: Rir, ceg: Ceg)
    requires Represents(rir, ceg) && SourcesDeclared(Declared(rir)) && !Cyclic(Declared(rir))
    ensures Layered(ceg)
  {
    LayersPartitionIff(rir, ceg);
    RootsHaveDegreeZero(rir, ceg);
    forall n | n in ceg.nodeMap
      ensures InItsLayer(ceg, n)
    {
      EveryUnitIsInItsLayer(rir, ceg, n);
    }
    forall l, n | 0 <= l < |ceg.layers| && n in ceg.layers[l]
      ensures n in ceg.nodeMap && ceg.nodeMap[n].layer == l && (l == 0 ==> n in ceg.inDegree && ceg.inDegree[n] == 0)
    {
      assert Kahn.IsLayer(Declared(rir), l, ceg.layers[l]);
      assert n in Elements(ceg.layers[l]);
    }
  }

  /** On the graph of an accepted RIR whose rules name predecessors only, runs can be calm; and
      where every rule can be decided, the graph is well formed. */
  lemma BuiltLooksBack(rir: Rir, ceg: Ceg)
    requires Represents(rir, ceg) && BackwardRir(rir) && !Cyclic(Declared(rir))
    ensures Backward(ceg) && Layered(ceg)
    ensures WellFormedRir(rir) ==> WellFormed(ceg)
  {
    BuiltIsLayered(rir, ceg);
    forall n | n in ceg.nodeMap
      ensures LooksBack(ceg, n)
      ensures ceg.inDegree[n] == 0 ==> ceg.nodeMap[n].activation.Candidates() == []
      ensures WellFormedRir(rir) && ceg.inDegree[n] != 0 ==> Decidable(ceg.nodeMap[n].activation)
    {
      CandidatesAreEarlier(rir, ceg, n);
      if WellFormedRir(rir) && ceg.inDegree[n] != 0 {
        RulesDecide(rir, ceg, n);
      }
    }
  }

  lemma LayersAreDistinct(rir: Rir, ceg: Ceg)
    requires Represents(rir, ceg)
    ensures forall l :: 0 <= l < |ceg.layers| ==> ceg.layers[l] != [] && Distinct(ceg.layers[l])
  {
  }

  // ----- Execution -----

  datatype Execution = NotBuilt(error: BuildError) | Ran(ceg: Ceg, result: RunResult)

  /** What the log of an execution is evidence of. */
  ghost predicate IsRunOf(rir: Rir, ceg: Ceg, d: Dispatch, calm: bool, waves: seq<seq<seq<Id>>>, log: seq<Event>) {
    Represents(rir, ceg) && AreAllWaves(rir, ceg, waves) && Run(ceg, d, waves, calm, log)
  }

  /** Nothing but an escalation forces a status: rules name predecessors only, and either there are
      no deadlines and cancellations or every unit becomes terminal by itself. */
  ghost predicate Calm(rir: Rir, d: Dispatch, env: Surroundings) {
    BackwardRir(rir) && (Untimed(env) || (WellFormedRir(rir) && Cooperative(d)))
  }

  /** The entries repeat the log, with every node's true earlier status, and their last writes are
      the statuses it leaves. */
  ghost predicate Records(entries: seq<Entry>, log: seq<Event>) {
    && |entries| == |log| && LastWrites(entries) == After(log)
    && (forall k :: 0 <= k < |log| ==> entries[k] == TrueEntry(log, k))
  }

  function TrueEntry(log: seq<Event>, k: nat): Entry
    requires k < |log|
  {
    Entry(k, log[k].node, Lookup(After(log[..k]), log[k].node), log[k].status)
  }

  lemma JournalRecords(log: seq<Event>)
    ensures Records(Journaled(log), log)
  {
    JournalIsFaithful(log, Empty);
    forall k | 0 <= k < |log|
      ensures Journaled(log)[k] == TrueEntry(log, k)
    {
      EntryIsTrue(log, k);
    }
  }

  /** Builds the RIR and runs it. How the execution ends, and with what statuses, is what the course
      of the run says, in any surroundings; where the waves of the plan tell that nothing is cut
      short, it is what recursion over the graph says. `heard` is what readers of the event channel
      have got and will get: with at most 256 units, the whole log. */
  method Execute(rir: Rir, d: Dispatch, env: Surroundings, ghost calm: bool)
    returns (x: Execution, ghost waves: seq<seq<seq<Id>>>, ghost log: seq<Event>, ghost heard: seq<Event>)
    requires UniqueIds(rir.units)
    requires calm ==> Calm(rir, d, env)
    ensures x.NotBuilt? <==> !Acceptable(rir)
    ensures x.NotBuilt? ==> BreaksFirst(rir, x.error)
    ensures x.Ran? ==> IsRunOf(rir, x.ceg, d, calm && !x.result.Escalated?, waves, log)
    ensures x.Ran? ==> EndsWith(x.ceg, d, env, waves, FirstStates(x.ceg), x.result, After(log))
    ensures x.Ran? ==> After(log).Keys == UnitIds(rir.units)
    ensures x.Ran? && x.result.Completed? ==> NoneRunning(x.result.states)
    ensures x.Ran? && x.result.Escalated? ==> Runs.Finished(x.ceg, x.result.states)
    ensures x.Ran? && calm ==> IsOutcome(x.ceg, d, waves, x.result)
    ensures x.Ran? && calm && WellFormedRir(rir) && Cooperative(d) ==>
              WellFormed(x.ceg) && x.result.Completed? && Runs.Finished(x.ceg, x.result.states)
    ensures x.Ran? && Inert(rir) ==> x.result.Completed? && NeverStarted(x.ceg, x.result.states)
    ensures x.Ran? && |rir.units| <= 256 ==> heard == log && Records(Journaled(heard), log)
  {
    waves, log, heard := [], [], [];
    var built := Build(rir);
    if built.Rejected? {
      return NotBuilt(built.error), waves, log, heard;
    }
    var result;
    result, waves, log, heard := RunBuilt(rir, built.ceg, d, env, calm);
    JournalRecords(log);
    if calm && WellFormedRir(rir) && Cooperative(d) {
      WellFormedFinishes(rir, built.ceg, d, waves, result);
    }
    x := Ran(built.ceg, result);
  }

  /** How a calm run ends. */
  ghost predicate IsOutcome(ceg: Ceg, d: Dispatch, waves: seq<seq<seq<Id>>>, result: RunResult) {
    && Backward(ceg)
    && (result.Completed? || result.Escalated? || result.NeverReturns?)
    && (result.Escalated? <==> RunEscalates(ceg, d, waves))
    && (result.NeverReturns? <==> RunJams(ceg, d, waves))
    && (Steady(d) ==> !result.Escalated? && (result.NeverReturns? <==> Jams(ceg, d, waves)))
    && (result.NeverReturns? ==> JamsFirst(ceg, d, waves, result.layer, result.wave))
    && (result.Completed? ==> IsMeaning(ceg, d, result.states))
  }

  lemma EndsAsOutcome(ceg: Ceg, d: Dispatch, waves: seq<seq<seq<Id>>>, states: map<Id, Status>, result: RunResult)
    requires Backward(ceg) && EndsAs(ceg, d, waves, states, result) && states.Keys == ceg.nodeMap.Keys
    requires result.Completed? ==> result.states == states
    ensures IsOutcome(ceg, d, waves, result)
  {
    if Steady(d) {
      SteadyNeverEscalates(ceg, d, waves);
    }
    if result.Completed? {
      forall n | n in states
        ensures states[n] == Meaning(ceg, d, n)
      {
        assert At(ceg, d, states, n);
      }
    }
  }

  /** Splits a built graph into waves and commits the first statuses. */
  method Schedule(rir: Rir, ceg: Ceg, ghost d: Dispatch, ghost calm: bool) returns (scheduler: Scheduler)
    requires Represents(rir, ceg)
    ensures fresh(scheduler) && fresh(scheduler.sm) && fresh(scheduler.comm) && scheduler.ceg == ceg
    ensures scheduler.Valid(d, calm) && scheduler.Full() && scheduler.sm.states == FirstStates(ceg)
    ensures AreAllWaves(rir, ceg, scheduler.waves)
  {
    var sm := new StatusMap();
    var comm := new Engine(sm);
    scheduler := new Scheduler(ceg, sm, comm);
    LayersAreDistinct(rir, ceg);
    scheduler.ComputeWaves(rir);
    SplitIsAll(rir, ceg, scheduler.waves);
    scheduler.InitStatusMap(d, calm);
  }

  /** What the log and the result of an execution say. */
  ghost predicate IsEnd(rir: Rir, ceg: Ceg, d: Dispatch, env: Surroundings, calm: bool, waves: seq<seq<seq<Id>>>,
                        log: seq<Event>, result: RunResult)
  {
    && IsRunOf(rir, ceg, d, calm && !result.Escalated?, waves, log)
    && EndsWith(ceg, d, env, waves, FirstStates(ceg), result, After(log))
    && After(log).Keys == UnitIds(rir.units)
    && (result.Completed? ==> NoneRunning(result.states))
    && (result.Escalated? ==> Runs.Finished(ceg, result.states))
    && (calm ==> IsOutcome(ceg, d, waves, result))
    && (Inert(rir) ==> result.Completed? && NeverStarted(ceg, result.states))
  }

  /** What the main loop guarantees makes an end. */
  lemma LoopMakesEnd(rir: Rir, ceg: Ceg, d: Dispatch, env: Surroundings, calm: bool, waves: seq<seq<seq<Id>>>,
                     log: seq<Event>, states: map<Id, Status>, result: RunResult)
    requires Represents(rir, ceg) && IsRunOf(rir, ceg, d, calm && !result.Escalated?, waves, log)
    requires AllKnown(ceg, states) && states == After(log)
    requires EndsWith(ceg, d, env, waves, FirstStates(ceg), result, states)
    requires result.Completed? ==> NoneRunning(states)
    requires calm ==> Benign(ceg, d, waves, env)
    ensures IsEnd(rir, ceg, d, env, calm, waves, log, result)
  {
    if calm {
      CalmEnds(ceg, d, env, waves, result, states);
      EndsAsOutcome(ceg, d, waves, states, result);
    }
    if result.Escalated? {
      EscalationFinishes(ceg, d, env, waves, states, result);
    }
    if Inert(rir) {
      InertIsQuiet(rir, ceg);
      QuietEnds(ceg, d, env, waves, FirstStates(ceg), result, states);
    }
  }

  /** After an escalation every node is terminal. */
  lemma EscalationFinishes(ceg: Ceg, d: Dispatch, env: Surroundings, waves: seq<seq<seq<Id>>>, states: map<Id, Status>,
                           result: RunResult)
    requires EndsWith(ceg, d, env, waves, FirstStates(ceg), result, states) && result.Escalated?
    requires states.Keys == ceg.nodeMap.Keys
    ensures Runs.Finished(ceg, states)
  {
    var l, w := StopOf(ceg, d, env, waves, FirstStates(ceg), result, states);
  }

  lemma FirstStatesStart(ceg: Ceg)
    ensures NoneRunning(FirstStates(ceg)) && forall n :: !IsTerminated(FirstStates(ceg), n)
  {
  }

  /** Runs the main loop on a scheduled graph. */
  method RunScheduled(rir: Rir, scheduler: Scheduler, d: Dispatch, env: Surroundings, ghost calm: bool)
    returns (result: RunResult)
    requires scheduler.Valid(d, calm) && scheduler.Full() && scheduler.sm.states == FirstStates(scheduler.ceg)
    requires Represents(rir, scheduler.ceg) && AreAllWaves(rir, scheduler.ceg, scheduler.waves)
    requires calm ==> Benign(scheduler.ceg, d, scheduler.waves, env)
    modifies scheduler.comm, scheduler.sm
    ensures scheduler.Valid(d, calm && !result.Escalated?)
    ensures IsEnd(rir, scheduler.ceg, d, env, calm, scheduler.waves, scheduler.comm.log, result)
  {
    FirstStatesStart(scheduler.ceg);
    if calm {
      CalmForcesNone(scheduler.ceg, d, env, scheduler.waves);
    }
    result := scheduler.RunLoop(d, env, calm);
    LoopMakesEnd(rir, scheduler.ceg, d, env, calm, scheduler.waves, scheduler.comm.log, scheduler.sm.states, result);
  }

  /** Runs a built graph. */
  method RunBuilt(rir: Rir, ceg: Ceg, d: Dispatch, env: Surroundings, ghost calm: bool)
    returns (result: RunResult, ghost waves: seq<seq<seq<Id>>>, ghost log: seq<Event>, ghost heard: seq<Event>)
    requires Acceptable(rir) && Represents(rir, ceg)
    requires calm ==> Calm(rir, d, env)
    ensures IsEnd(rir, ceg, d, env, calm, waves, log, result)
    ensures |rir.units| <= 256 ==> heard == log
  {
    var scheduler := Schedule(rir, ceg, d, calm);
    var comm := scheduler.comm;
    if calm {
      CalmIsBenign(rir, ceg, d, scheduler.waves, env);
    }
    result := RunScheduled(rir, scheduler, d, env, calm);
    waves, log, heard := scheduler.waves, comm.log, comm.received + comm.events;
    if |rir.units| <= 256 {
      LogIsAboutNodes(ceg, d, waves, calm && !result.Escalated?, log);
      comm.NothingIsDropped(ceg.nodes);
    }
  }

  lemma LogIsAboutNodes(ceg: Ceg, d: Dispatch, waves: seq<seq<seq<Id>>>, calm: bool, log: seq<Event>)
    requires Elements(ceg.nodes) == ceg.nodeMap.Keys && Run(ceg, d, waves, calm, log)
    ensures About(log, ceg.nodes)
  {
    RunsAreValid(ceg, d, waves, calm, log);
    forall i | 0 <= i < |log|
      ensures log[i].node in ceg.nodes
    {
      assert log[i].node in Elements(ceg.nodes);
    }
  }

  lemma CalmIsBenign(rir: Rir, ceg: Ceg, d: Dispatch, waves: seq<seq<seq<Id>>>, env: Surroundings)
    requires Acceptable(rir) && Represents(rir, ceg) && AreAllWaves(rir, ceg, waves) && Calm(rir, d, env)
    ensures Benign(ceg, d, waves, env)
  {
    BuiltLooksBack(rir, ceg);
    LayersAreDistinct(rir, ceg);
    WavesCover(rir, ceg, waves);
    if WellFormedRir(rir) && Cooperative(d) {
      AllBecomeTerminal(ceg, d);
    }
  }

  lemma AllBecomeTerminal(ceg: Ceg, d: Dispatch)
    requires WellFormed(ceg) && Cooperative(d)
    ensures forall n :: n in ceg.nodeMap ==> IsTerminal(Meaning(ceg, d, n))
  {
    forall n | n in ceg.nodeMap
      ensures IsTerminal(Meaning(ceg, d, n))
    {
      MeaningIsTerminal(ceg, d, n);
    }
  }

  /** Where every unit becomes terminal by itself no wave jams, and the run completes. */
  lemma WellFormedFinishes(rir: Rir, ceg: Ceg, d: Dispatch, waves: seq<seq<seq<Id>>>, result: RunResult)
    requires Acceptable(rir) && Represents(rir, ceg) && WellFormedRir(rir) && Cooperative(d)
    requires IsOutcome(ceg, d, waves, result)
    ensures WellFormed(ceg) && result.Completed? && Runs.Finished(ceg, result.states)
  {
    BuiltLooksBack(rir, ceg);
    AllBecomeTerminal(ceg, d);
  }

  /** No unit has a rule that the kernel can evaluate. */
  ghost predicate Inert(rir: Rir) {
    forall i :: 0 <= i < |rir.units| ==> rir.units[i].activation.condition.Other?
  }

  /** Roots are skipped and everything else stays blocked. */
  ghost predicate NeverStarted(ceg: Ceg, states: map<Id, Status>) {
    && states.Keys == ceg.nodeMap.Keys == ceg.inDegree.Keys
    && (forall n :: n in states ==> states[n] == if ceg.inDegree[n] == 0 then Skipped else Blocked)
  }

  /** An inert graph is quiet from the start: its first statuses are its last. */
  lemma InertIsQuiet(rir: Rir, ceg: Ceg)
    requires Represents(rir, ceg) && Inert(rir)
    ensures Quiet(ceg, FirstStates(ceg)) && NeverStarted(ceg, FirstStates(ceg))
  {
    forall n | n in ceg.nodeMap
      ensures ceg.nodeMap[n].activation.condition.Other?
    {
      var i := UnitOf(rir, ceg, n);
    }
    UnknownRulesStay(ceg);
    assert Wired(UnitIds(rir.units), rir.edges, ceg.nodeMap) && Degrees(rir.edges, UnitIds(rir.units), ceg.inDegree);
  }

  lemma UnknownRulesStay(ceg: Ceg)
    requires forall n :: n in ceg.nodeMap ==> ceg.nodeMap[n].activation.condition.Other?
    ensures Quiet(ceg, FirstStates(ceg))
    ensures forall n :: n in ceg.nodeMap && n in ceg.inDegree ==>
              FirstStates(ceg)[n] == if ceg.inDegree[n] == 0 then Skipped else Blocked
  {
  }

  /** Every node has the status that recursion over the graph gives it. */
  ghost predicate IsMeaning(ceg: Ceg, d: Dispatch, states: map<Id, Status>) {
    && Backward(ceg) && states.Keys == ceg.nodeMap.Keys
    && (forall n :: n in states ==> states[n] == Meaning(ceg, d, n))
  }

  // ----- Which units a completed execution has terminated -----

  lemma WavesHoldOnce(rir: Rir, ceg: Ceg, waves: seq<seq<seq<Id>>>, n: Id, l: nat, w: nat)
    requires Represents(rir, ceg) && AreAllWaves(rir, ceg, waves)
    requires l < |waves| && w < |waves[l]| && n in waves[l][w]
    ensures OnlyIn(waves, n, l, w) && n in ceg.layers[l] && n in ceg.nodeMap && ceg.nodeMap[n].layer == l
  {
    LayersAreDistinct(rir, ceg);
    WavesCover(rir, ceg, waves);
    forall m, v | 0 <= m < |waves| && 0 <= v < |waves[m]| && n in waves[m][v]
      ensures n in ceg.layers[m] && n in ceg.nodeMap && ceg.nodeMap[n].layer == m
    {
      assert InSomeWave(waves[m], n);
      assert Kahn.IsLayer(Declared(rir), m, ceg.layers[m]);
      assert n in Elements(ceg.layers[m]);
    }
  }

  /** Whatever the deadlines and cancellations, a completed execution has terminated a unit exactly if
      that unit's own wave dispatched something and, with all answers in, the unit had answered
      TERMINATED or was not terminal; and in the second case the wave had a deadline or was
      cancelled. Units of other waves are never touched. */
  lemma TerminatedByOwnWave(rir: Rir, ceg: Ceg, d: Dispatch, env: Surroundings, waves: seq<seq<seq<Id>>>,
                            states: map<Id, Status>, n: Id, l: nat, w: nat)
    requires Represents(rir, ceg) && AreAllWaves(rir, ceg, waves)
    requires EndsWith(ceg, d, env, waves, FirstStates(ceg), Completed(states), states)
    requires l < |waves| && w < |waves[l]| && n in waves[l][w]
    ensures var before := Reaching(ceg, d, waves, FirstStates(ceg), l, w);
            && (IsTerminated(states, n) <==> EndsTerminated(d, before, waves[l][w], n))
            && (IsTerminated(states, n) ==>
                  || (ReadyIn(before, n) && Landed(d(n)).Terminated?)
                  || Forces(ceg, d, env, before, waves[l][w], l, w))
  {
    WavesHoldOnce(rir, ceg, waves, n, l, w);
    FirstStatesStart(ceg);
    TerminatedIff(ceg, d, waves, FirstStates(ceg), n, l, w);
    if IsTerminated(states, n) {
      OnlyLimitedWavesForce(ceg, d, env, waves, FirstStates(ceg), states, n, l, w);
    }
  }
}
