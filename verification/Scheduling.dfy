/** The scheduler: the main loop that claims, dispatches, commits and recomputes. */
module Scheduling {
  import opened Ids
  import opened Plans
  import opened Wiring
  import opened Statuses
  import opened Commit
  import opened Activating
  import opened Runs
  import opened Courses
  import opened CalmRuns
  import Waves

  /** The result when the loop does not reach its end. */
  function CutShort(ended: WaveResult, states: map<Id, Status>, layer: nat, wave: nat): RunResult
    requires !ended.Continue?
  {
    match ended
    case ClaimError => ClaimFailed
    case Escalate => Escalated(states)
    case Stuck => NeverReturns(layer, wave)
  }

  // ----- What the methods do to the statuses -----

  /** The listed nodes that were not terminal are now TERMINATED. */
  ghost predicate Halted(before: map<Id, Status>, after: map<Id, Status>, ids: seq<Id>) {
    && after.Keys == before.Keys
    && (forall n :: n in before ==>
          after[n] == if n in ids && !IsTerminal(before[n]) then Terminated else before[n])
  }

  /** The answers for `ids` have been committed, as far as the engine accepts them. */
  ghost predicate Collected(d: Dispatch, before: map<Id, Status>, after: map<Id, Status>, ids: set<Id>) {
    && after.Keys == before.Keys
    && (forall n :: n in before ==>
          after[n] == if n in ids && Allowed(Running, Outcome(d(n))) then Outcome(d(n)) else before[n])
  }

  /** The ready nodes of the wave, and nothing else, are now running. */
  ghost predicate Claimed(before: map<Id, Status>, after: map<Id, Status>, wave: seq<Id>, ready: seq<Id>) {
    && after.Keys == before.Keys
    && Distinct(ready)
    && (forall n :: n in ready <==> n in wave && n in before && before[n].Ready?)
    && (forall n :: n in before ==> after[n] == if n in ready then Running else before[n])
  }

  lemma ReadyAreClaimed(before: map<Id, Status>, after: map<Id, Status>, wave: seq<Id>, ready: seq<Id>)
    requires Claimed(before, after, wave, ready)
    ensures forall n :: n in ready <==> n in wave && ReadyIn(before, n)
    ensures ready != [] <==> exists n :: n in wave && ReadyIn(before, n)
  {
    if ready != [] {
      assert ready[0] in ready;
    }
  }

  /** The answers of all ready nodes of the wave are in. */
  lemma AnsweredIsDone(d: Dispatch, before: map<Id, Status>, claimed: map<Id, Status>, after: map<Id, Status>,
                       wave: seq<Id>, ready: seq<Id>)
    requires Claimed(before, claimed, wave, ready) && Collected(d, claimed, after, Elements(ready))
    ensures after == WaveDone(d, before, wave)
  {
    forall n | n in before
      ensures after[n] == WaveDone(d, before, wave)[n]
    {
      assert n in ready <==> n in Elements(ready);
    }
  }

  /** Some answers are in, and everything else was terminated. */
  lemma HaltedIsCutOff(d: Dispatch, before: map<Id, Status>, claimed: map<Id, Status>, cut: map<Id, Status>,
                       after: map<Id, Status>, wave: seq<Id>, ready: seq<Id>, heard: set<Id>, ids: seq<Id>)
    requires Claimed(before, claimed, wave, ready) && Collected(d, claimed, cut, heard) && heard <= Elements(ready)
    requires Halted(cut, after, ids) && Elements(ids) == before.Keys
    ensures after == CutOff(d, before, wave, heard)
  {
    forall n | n in before
      ensures after[n] == CutOff(d, before, wave, heard)[n]
    {
      assert n in ids <==> n in Elements(ids);
      assert n in ready <==> n in Elements(ready);
    }
  }

  lemma ReadyOfClaimed(before: map<Id, Status>, claimed: map<Id, Status>, wave: seq<Id>, ready: seq<Id>)
    requires Claimed(before, claimed, wave, ready)
    ensures Elements(ready) == ReadyOf(before, wave)
  {
    forall n
      ensures n in ready <==> n in ReadyOf(before, wave)
    {
    }
  }

  /** An answer escalates, so what has been taken is what escalation lets through. */
  lemma HaltedIsEscalated(d: Dispatch, env: Surroundings, before: map<Id, Status>, claimed: map<Id, Status>,
                          cut: map<Id, Status>, after: map<Id, Status>, wave: seq<Id>, ready: seq<Id>, heard: set<Id>,
                          ids: seq<Id>)
    requires Claimed(before, claimed, wave, ready) && Collected(d, claimed, cut, heard)
    requires heard == Heard(d, env, Elements(ready))
    requires Halted(cut, after, ids) && Elements(ids) == before.Keys
    ensures after == EscalatesTo(d, env, before, wave)
  {
    HaltedIsCutOff(d, before, claimed, cut, after, wave, ready, heard, ids);
    ReadyOfClaimed(before, claimed, wave, ready);
  }

  lemma NothingClaimed(before: map<Id, Status>, after: map<Id, Status>, wave: seq<Id>, ready: seq<Id>)
    requires Claimed(before, after, wave, ready) && ready == []
    ensures after == before
  {
  }

  lemma ClaimedAreRunning(before: map<Id, Status>, after: map<Id, Status>, wave: seq<Id>, ready: seq<Id>)
    requires Claimed(before, after, wave, ready)
    ensures forall n :: n in ready ==> n in after && after[n].Running?
  {
  }

  lemma RefreshNoneRuns(ceg: Ceg, before: map<Id, Status>)
    requires NoneRunning(before)
    ensures NoneRunning(Refreshed(ceg, before)) && Refreshed(ceg, before).Keys == before.Keys
  {
    RefreshedIsRecomputed(ceg, before);
  }

  lemma HaltedIsClosed(before: map<Id, Status>, after: map<Id, Status>, wave: seq<Id>)
    requires Halted(before, after, wave)
    ensures after == Closed(before, wave)
  {
  }

  lemma HaltTwice(before: map<Id, Status>, middle: map<Id, Status>, after: map<Id, Status>, wave: seq<Id>)
    requires middle == before || Halted(before, middle, wave)
    requires Halted(middle, after, wave)
    ensures Halted(before, after, wave)
  {
  }

  ghost predicate Divided<T>(all: set<T>, a: set<T>, b: set<T>) {
    a + b == all && a !! b
  }

  lemma MoveOne<T>(all: set<T>, a: set<T>, b: set<T>, x: T)
    requires Divided(all, a, b) && x in b
    ensures Divided(all, a + {x}, b - {x})
  {
  }

  lemma StillRunning(d: Dispatch, before: map<Id, Status>, states: map<Id, Status>, ids: set<Id>, ready: seq<Id>,
                     id: Id)
    requires Collected(d, before, states, ids) && id in ready && id !in ids
    requires forall n :: n in ready ==> n in before && before[n].Running?
    ensures id in states && states[id].Running?
  {
  }

  lemma CollectedOneMore(d: Dispatch, before: map<Id, Status>, middle: map<Id, Status>, after: map<Id, Status>,
                         ids: set<Id>, id: Id)
    requires Collected(d, before, middle, ids) && Collected(d, middle, after, {id})
    ensures Collected(d, before, after, ids + {id})
  {
  }

  /** The answers taken so far came before those that are still out, and none of them escalates. */
  ghost predicate InOrder(d: Dispatch, env: Surroundings, taken: set<Id>, out: set<Id>) {
    && (forall n :: n in taken ==> !Escalates(d(n)))
    && (forall n, m :: n in taken && m in out ==> Earlier(env, n, m))
  }

  lemma NextInOrder(d: Dispatch, env: Surroundings, taken: set<Id>, out: set<Id>, id: Id)
    requires InOrder(d, env, taken, out) && IsEarliest(env, out, id) && !Escalates(d(id))
    ensures InOrder(d, env, taken + {id}, out - {id})
  {
  }

  lemma EscalationIsHeard(d: Dispatch, env: Surroundings, all: set<Id>, taken: set<Id>, out: set<Id>, id: Id)
    requires Divided(all, taken, out) && InOrder(d, env, taken, out) && IsEarliest(env, out, id) && Escalates(d(id))
    ensures taken + {id} == Heard(d, env, all)
  {
    forall n | n in all
      ensures n in taken + {id} <==> !Overtaken(d, env, all, n)
    {
      EarlierIsTotal(env, id, n);
      if n in taken + {id} {
        forall e | e in all && Escalates(d(e))
          ensures !Earlier(env, e, n)
        {
          EarlierIsTotal(env, e, n);
        }
      } else {
        assert id in all && Earlier(env, id, n);
      }
    }
  }

  lemma NextListed(ids: seq<Id>, i: nat)
    requires Distinct(ids) && i < |ids|
    ensures ids[i] in Elements(ids) && ids[i] !in Elements(ids[..i])
    ensures Elements(ids[..i + 1]) == Elements(ids[..i]) + {ids[i]}
  {
    assert ids[..i + 1] == ids[..i] + [ids[i]];
  }

  /** The listed nodes have got their first statuses. */
  ghost predicate Initialised(ceg: Ceg, states: map<Id, Status>, nodes: seq<Id>) {
    && states.Keys == Elements(nodes)
    && (forall n :: n in states ==> n in FirstStates(ceg) && states[n] == FirstStates(ceg)[n])
  }

  lemma OneInitialised(ceg: Ceg, nodes: seq<Id>, i: nat, states: map<Id, Status>)
    requires Distinct(nodes) && i < |nodes| && Elements(nodes) == ceg.nodeMap.Keys == ceg.inDegree.Keys
    requires Initialised(ceg, states, nodes[..i])
    ensures nodes[i] in ceg.nodeMap && nodes[i] in ceg.inDegree && nodes[i] !in states
    ensures Initialised(ceg, states[nodes[i] := Initial(ceg, nodes[i], states)], nodes[..i + 1])
  {
    NextListed(nodes, i);
    assert NoneSucceeded(states);
    InitialIsFixed(ceg, nodes[i], states);
    assert Initial(ceg, nodes[i], states) == FirstStates(ceg)[nodes[i]];
  }

  lemma {:induction false} RunsAreTogether(ceg: Ceg, d: Dispatch, waves: seq<seq<seq<Id>>>, calm: bool, log: seq<Event>)
    requires Run(ceg, d, waves, calm, log)
    ensures Together(waves, After(log))
  {
  }

  lemma TogetherShrinks(waves: seq<seq<seq<Id>>>, before: map<Id, Status>, after: map<Id, Status>)
    requires Together(waves, before)
    requires forall n :: n in after && after[n].Running? ==> n in before && before[n].Running?
    ensures Together(waves, after)
  {
    if !NoneRunning(before) {
      var layer: nat, w: nat :| RunningIn(waves, layer, w, before);
      assert RunningIn(waves, layer, w, after);
    }
  }

  /** Every node has a status. */
  ghost predicate AllKnown(ceg: Ceg, states: map<Id, Status>) {
    states.Keys == ceg.nodeMap.Keys == ceg.inDegree.Keys == Elements(ceg.nodes)
  }

  // ----- How far a run has got -----

  /** What a wave leaves, by the way its handling ends. */
  ghost function WaveLeaves(ceg: Ceg, d: Dispatch, env: Surroundings, before: map<Id, Status>, wave: seq<Id>,
                            r: WaveResult): map<Id, Status> {
    match r
    case Escalate => EscalatesTo(d, env, before, wave)
    case Stuck => WaveDone(d, before, wave)
    case _ => NextStates(ceg, d, before, wave)
  }

  /** The first `at` waves of a layer lead from `start` to `states`. */
  ghost predicate InCourse(ceg: Ceg, d: Dispatch, env: Surroundings, waves: seq<seq<Id>>, start: map<Id, Status>,
                           states: map<Id, Status>, layer: nat, at: nat)
  {
    && at <= |waves| && states == CourseIn(ceg, d, waves, start, at)
    && PassesTo(ceg, d, env, waves, start, layer, at)
  }

  /** The run was stopped by the wave and left `states`. */
  ghost predicate HaltedIn(ceg: Ceg, d: Dispatch, env: Surroundings, waves: seq<seq<Id>>, start: map<Id, Status>,
                           states: map<Id, Status>, r: WaveResult, layer: nat, at: nat)
  {
    && at < |waves| && PassesTo(ceg, d, env, waves, start, layer, at)
    && var before := CourseIn(ceg, d, waves, start, at);
       && (r.Stuck? || r.Escalate?) && states == WaveLeaves(ceg, d, env, before, waves[at], r)
       && (r.Escalate? ==> SomeEscalates(d, before, waves[at]))
       && (r.Stuck? ==> Spins(ceg, d, env, before, waves[at], layer, at))
  }

  /** One turn of the inner loop keeps to the course. */
  lemma CourseGoesOn(ceg: Ceg, d: Dispatch, env: Surroundings, waves: seq<seq<Id>>, start: map<Id, Status>,
                     before: map<Id, Status>, after: map<Id, Status>, r: WaveResult, layer: nat, at: nat)
    requires at < |waves| && InCourse(ceg, d, env, waves, start, before, layer, at)
    requires !r.ClaimError? && after == WaveLeaves(ceg, d, env, before, waves[at], r)
    requires r.Escalate? <==> SomeEscalates(d, before, waves[at])
    requires r.Stuck? <==> Spins(ceg, d, env, before, waves[at], layer, at)
    ensures r.Continue? ==> InCourse(ceg, d, env, waves, start, after, layer, at + 1)
    ensures !r.Continue? ==> HaltedIn(ceg, d, env, waves, start, after, r, layer, at)
  {
    PassesOn(ceg, d, env, waves, start, layer, at);
  }

  /** The first `layer` layers lead from `first` to `states`. */
  ghost predicate OnWay(ceg: Ceg, d: Dispatch, env: Surroundings, waves: seq<seq<seq<Id>>>, first: map<Id, Status>,
                        states: map<Id, Status>, layer: nat)
  {
    && layer <= |waves| && states == Course(ceg, d, waves, first, layer)
    && Travels(ceg, d, env, waves, first, layer)
  }

  /** The run was stopped in the wave and left `states`. */
  ghost predicate HaltedOn(ceg: Ceg, d: Dispatch, env: Surroundings, waves: seq<seq<seq<Id>>>, first: map<Id, Status>,
                           states: map<Id, Status>, r: WaveResult, l: nat, w: nat)
  {
    && (r.Stuck? || r.Escalate?)
    && (r.Escalate? ==> EscalatesIn(ceg, d, env, waves, first, states, l, w))
    && (r.Stuck? ==> SpinsIn(ceg, d, env, waves, first, states, l, w))
  }

  lemma LayerHalts(ceg: Ceg, d: Dispatch, env: Surroundings, waves: seq<seq<seq<Id>>>, first: map<Id, Status>,
                   start: map<Id, Status>, states: map<Id, Status>, r: WaveResult, layer: nat, at: nat)
    requires layer < |waves| && OnWay(ceg, d, env, waves, first, start, layer)
    requires HaltedIn(ceg, d, env, waves[layer], start, states, r, layer, at)
    ensures HaltedOn(ceg, d, env, waves, first, states, r, layer, at)
  {
    assert Reaching(ceg, d, waves, first, layer, at) == CourseIn(ceg, d, waves[layer], start, at);
  }

  lemma LayerGoesOn(ceg: Ceg, d: Dispatch, env: Surroundings, waves: seq<seq<seq<Id>>>, first: map<Id, Status>,
                    start: map<Id, Status>, done: map<Id, Status>, layer: nat)
    requires layer < |waves| && OnWay(ceg, d, env, waves, first, start, layer)
    requires InCourse(ceg, d, env, waves[layer], start, done, layer, |waves[layer]|)
    ensures OnWay(ceg, d, env, waves, first, Refreshed(ceg, done), layer + 1)
  {
    assert LayerPasses(ceg, d, env, waves, first, layer);
    TravelsOn(ceg, d, env, waves, first, layer);
  }

  /** Since the log was `since`, the first waves of the layer have been run, or one has stopped the run. */
  ghost predicate LayerReached(ceg: Ceg, d: Dispatch, env: Surroundings, waves: seq<seq<seq<Id>>>, since: seq<Event>,
                               log: seq<Event>, states: map<Id, Status>, layer: nat, r: WaveResult, at: nat)
    requires layer < |waves|
  {
    && since <= log && AllKnown(ceg, states)
    && if r.Continue?
       then NoneRunning(states) && InCourse(ceg, d, env, waves[layer], After(since), states, layer, at)
       else HaltedIn(ceg, d, env, waves[layer], After(since), states, r, layer, at)
  }

  /** Since the log was `begun`, all layers before `layer` have been run, or a wave has stopped the run. */
  ghost predicate Reached(ceg: Ceg, d: Dispatch, env: Surroundings, waves: seq<seq<seq<Id>>>, begun: seq<Event>,
                          log: seq<Event>, states: map<Id, Status>, r: WaveResult, layer: nat, at: nat)
  {
    && begun <= log && AllKnown(ceg, states)
    && if r.Continue?
       then NoneRunning(states) && OnWay(ceg, d, env, waves, After(begun), states, layer)
       else HaltedOn(ceg, d, env, waves, After(begun), states, r, layer, at)
  }

  lemma LoopOpens(ceg: Ceg, d: Dispatch, env: Surroundings, waves: seq<seq<seq<Id>>>, log: seq<Event>,
                  states: map<Id, Status>)
    requires AllKnown(ceg, states) && NoneRunning(states) && states == After(log)
    ensures Reached(ceg, d, env, waves, log, log, states, Continue, 0, 0)
  {
  }

  lemma LayerOpensAt(ceg: Ceg, d: Dispatch, env: Surroundings, waves: seq<seq<seq<Id>>>, log: seq<Event>,
                     states: map<Id, Status>, layer: nat)
    requires layer < |waves| && AllKnown(ceg, states) && NoneRunning(states) && states == After(log)
    ensures LayerReached(ceg, d, env, waves, log, log, states, layer, Continue, 0)
  {
  }

  lemma HaltEnds(ceg: Ceg, d: Dispatch, env: Surroundings, waves: seq<seq<seq<Id>>>, first: map<Id, Status>,
                 states: map<Id, Status>, r: WaveResult, l: nat, w: nat)
    requires HaltedOn(ceg, d, env, waves, first, states, r, l, w)
    ensures EndsWith(ceg, d, env, waves, first, CutShort(r, states, l, w), states)
  {
  }

  lemma UnforcedLayer(ceg: Ceg, d: Dispatch, env: Surroundings, waves: seq<seq<seq<Id>>>, first: map<Id, Status>,
                      start: map<Id, Status>, layer: nat)
    requires layer < |waves| && OnWay(ceg, d, env, waves, first, start, layer)
    requires !ForcesSome(ceg, d, env, waves, first)
    ensures !LayerForces(ceg, d, env, waves[layer], start, layer)
  {
    assert !ForcesIn(ceg, d, env, waves, first, layer);
  }

  lemma UnforcedWave(ceg: Ceg, d: Dispatch, env: Surroundings, waves: seq<seq<Id>>, start: map<Id, Status>,
                     before: map<Id, Status>, layer: nat, at: nat)
    requires at < |waves| && InCourse(ceg, d, env, waves, start, before, layer, at)
    requires !LayerForces(ceg, d, env, waves, start, layer)
    ensures !Forces(ceg, d, env, before, waves[at], layer, at)
  {
    assert !ForcesAt(ceg, d, env, waves, start, layer, at);
  }

  /** The waves of one layer; none for an empty one. */
  ghost predicate SplitsLayer(rir: Rir, layer: seq<Id>, waves: seq<seq<Id>>) {
    if layer == [] then waves == [] else Waves.AreWaves(rir, layer, waves)
  }

  /** The first layers have been split. */
  ghost predicate SplitSoFar(rir: Rir, layers: seq<seq<Id>>, computed: seq<seq<seq<Id>>>) {
    |computed| <= |layers| &&
    forall k {:trigger SplitsLayer(rir, layers[k], computed[k])} :: 0 <= k < |computed| ==>
      SplitsLayer(rir, layers[k], computed[k])
  }

  lemma OneMoreSplit(rir: Rir, layers: seq<seq<Id>>, computed: seq<seq<seq<Id>>>, next: seq<seq<Id>>)
    requires SplitSoFar(rir, layers, computed) && |computed| < |layers| && SplitsLayer(rir, layers[|computed|], next)
    ensures SplitSoFar(rir, layers, computed + [next])
  {
    var more := computed + [next];
    forall k | 0 <= k < |more|
      ensures SplitsLayer(rir, layers[k], more[k])
    {
      assert k < |computed| ==> more[k] == computed[k];
    }
  }

  class Scheduler {
    const ceg: Ceg
    const sm: StatusMap
    const comm: Engine
    var waves: seq<seq<seq<Id>>>

    constructor (ceg: Ceg, sm: StatusMap, comm: Engine)
      ensures this.ceg == ceg && this.sm == sm && this.comm == comm && waves == []
    {
      this.ceg, this.sm, this.comm, waves := ceg, sm, comm, [];
    }

    /** The engine's log is a run. */
    ghost predicate Valid(d: Dispatch, calm: bool)
      reads this, comm, sm
    {
      comm.sm == sm && comm.Valid() && Run(ceg, d, waves, calm, comm.log)
    }

    /** Commits through the engine, which may refuse. */
    method Commit(id: Id, status: Status, ghost d: Dispatch, ghost calm: bool) returns (r: CommitResult)
      requires Valid(d, calm)
      requires Accepts(sm.states, Event(id, status)) ==>
                 && Step(ceg, d, calm, sm.states, Event(id, status))
                 && (status.Running? ==> Together(waves, sm.states[id := status]))
      modifies comm, sm
      ensures Valid(d, calm) && old(comm.log) <= comm.log
      ensures r.Accepted? <==> Accepts(old(sm.states), Event(id, status))
      ensures sm.states == if r.Accepted? then old(sm.states)[id := status] else old(sm.states)
    {
      var e := Event(id, status);
      if Accepts(sm.states, e) {
        RunsAreTogether(ceg, d, waves, calm, comm.log);
        if !status.Running? {
          TogetherShrinks(waves, sm.states, sm.states[id := status]);
        }
        RunGrows(ceg, d, waves, calm, comm.log, e);
      }
      r := comm.Commit(id, status);
    }

    /** Gives every node its first status. */
    method InitStatusMap(ghost d: Dispatch, ghost calm: bool)
      requires Valid(d, calm) && comm.log == []
      requires Distinct(ceg.nodes) && Elements(ceg.nodes) == ceg.nodeMap.Keys == ceg.inDegree.Keys
      modifies comm, sm
      ensures Valid(d, calm) && old(comm.log) <= comm.log
      ensures sm.states == FirstStates(ceg)
    {
      for i := 0 to |ceg.nodes|
        invariant Valid(d, calm)
        invariant Initialised(ceg, sm.states, ceg.nodes[..i])
      {
        OneInitialised(ceg, ceg.nodes, i, sm.states);
        var _ := Commit(ceg.nodes[i], Initial(ceg, ceg.nodes[i], sm.states), d, calm);
      }
      assert ceg.nodes[..|ceg.nodes|] == ceg.nodes;
      assert sm.states.Keys == FirstStates(ceg).Keys;
    }

    /** Settles the blocked nodes whose decision is due, in identifier order. */
    method Recompute(ghost d: Dispatch, ghost calm: bool)
      requires Valid(d, calm) && sm.states.Keys <= ceg.nodeMap.Keys * ceg.inDegree.Keys
      modifies comm, sm
      ensures Valid(d, calm) && old(comm.log) <= comm.log
      ensures sm.states == Refreshed(ceg, old(sm.states))
    {
      var blocked := CollectBlocked();
      ghost var before := sm.states;
      SortedIsListing(before, blocked);
      blocked := Sort(blocked);
      for i := 0 to |blocked|
        invariant Valid(d, calm) && old(comm.log) <= comm.log
        invariant sm.states == Settle(ceg, before, blocked[..i])
      {
        NextToSettle(ceg, before, blocked, i);
        Reconsider(blocked[i], d, calm);
      }
      assert blocked[..|blocked|] == blocked;
      assert IsRefresh(ceg, before, Refreshed(ceg, before));
    }

    /** Settles one blocked node if a decision is due. */
    method Reconsider(id: Id, ghost d: Dispatch, ghost calm: bool)
      requires Valid(d, calm) && id in sm.states && sm.states[id].Blocked?
      requires sm.states.Keys <= ceg.nodeMap.Keys * ceg.inDegree.Keys
      modifies comm, sm
      ensures Valid(d, calm) && old(comm.log) <= comm.log
      ensures sm.states == Decide(ceg, old(sm.states), id)
    {
      if id in ceg.nodeMap {
        if EvaluateActivation(ceg.nodeMap[id].activation, sm.states) {
          var _ := Commit(id, Ready, d, calm);
        } else if ShouldSkip(ceg.nodeMap[id].activation, sm.states) {
          var _ := Commit(id, Skipped, d, calm);
        }
      }
    }

    method CollectBlocked() returns (blocked: seq<Id>)
      ensures Distinct(blocked)
      ensures forall n :: n in blocked <==> n in sm.states && sm.states[n].Blocked?
    {
      blocked := [];
      var todo := sm.states.Keys;
      while todo != {}
        invariant todo <= sm.states.Keys
        invariant Distinct(blocked)
        invariant forall n :: n in blocked <==> n in sm.states && n !in todo && sm.states[n].Blocked?
        decreases |todo|
      {
        var n :| n in todo;
        if sm.states[n].Blocked? {
          blocked := blocked + [n];
        }
        todo := todo - {n};
      }
    }

    /** Moves every ready node of the wave to RUNNING. */
    method Claim(layer: nat, w: nat, wave: seq<Id>, ghost d: Dispatch, ghost calm: bool)
      returns (ready: seq<Id>, ok: bool)
      requires Valid(d, calm) && sm.states.Keys <= ceg.nodeMap.Keys * ceg.inDegree.Keys
      requires layer < |waves| && w < |waves[layer]| && wave == waves[layer][w]
      requires NoneRunning(sm.states)
      modifies comm, sm
      ensures Valid(d, calm) && old(comm.log) <= comm.log && ok
      ensures Claimed(old(sm.states), sm.states, wave, ready)
    {
      ready := [];
      ghost var before := sm.states;
      for i := 0 to |wave|
        invariant Valid(d, calm) && old(comm.log) <= comm.log
        invariant Claimed(before, sm.states, wave[..i], ready)
      {
        var id := wave[i];
        assert wave[..i + 1] == wave[..i] + [id];
        if id in sm.states && sm.states[id].Ready? {
          assert RunningIn(waves, layer, w, sm.states[id := Running]) by {
            assert forall n :: n in wave[..i] ==> n in wave;
          }
          var r := Commit(id, Running, d, calm);
          if !r.Accepted? && !r.AlreadyThere? {
            return ready, false;
          }
          ready := ready + [id];
        }
      }
      assert wave[..|wave|] == wave;
      ok := true;
    }
 
    /** Terminates the listed nodes that are not terminal yet. */
    method Halt(ids: seq<Id>, ghost d: Dispatch)
      requires Valid(d, false) && sm.states.Keys <= ceg.nodeMap.Keys * ceg.inDegree.Keys
      modifies comm, sm
      ensures Valid(d, false) && old(comm.log) <= comm.log
      ensures Halted(old(sm.states), sm.states, ids)
    {
      ghost var before := sm.states;
      for i := 0 to |ids|
        invariant Valid(d, false) && old(comm.log) <= comm.log
        invariant Halted(before, sm.states, ids[..i])
      {
        assert ids[..i + 1] == ids[..i] + [ids[i]];
        if ids[i] in sm.states && !IsTerminal(sm.states[ids[i]]) {
          var _ := Commit(ids[i], Terminated, d, false);
        }
      }
      assert ids[..|ids|] == ids;
    }

    /** Commits the answer for one running node. */
    method CommitAnswer(id: Id, d: Dispatch, ghost calm: bool)
      requires Valid(d, calm) && sm.states.Keys <= ceg.nodeMap.Keys * ceg.inDegree.Keys
      requires id in sm.states && sm.states[id].Running?
      modifies comm, sm
      ensures Valid(d, calm) && old(comm.log) <= comm.log
      ensures Collected(d, old(sm.states), sm.states, {id})
    {
      var answer := d(id);
      if answer.Failed? {
        var _ := Commit(id, Failure, d, calm);
      } else {
        var status := if answer.escalation then Terminated else answer.status;
        var _ := Commit(id, status, d, calm);
      }
    }

    /** Dispatches the claimed nodes together and commits the answers as they arrive, up to the first
        one that escalates. */
    method Collect(ready: seq<Id>, d: Dispatch, env: Surroundings, ghost calm: bool)
      returns (escalated: bool, ghost collected: set<Id>)
      requires Valid(d, calm) && sm.states.Keys <= ceg.nodeMap.Keys * ceg.inDegree.Keys
      requires forall n :: n in ready ==> n in sm.states && sm.states[n].Running?
      modifies comm, sm
      ensures Valid(d, calm) && old(comm.log) <= comm.log
      ensures Collected(d, old(sm.states), sm.states, collected)
      ensures escalated <==> exists n :: n in ready && Escalates(d(n))
      ensures collected == if escalated then Heard(d, env, Elements(ready)) else Elements(ready)
    {
      var pending := set n | n in ready;
      ghost var before := sm.states;
      collected := {};
      while pending != {}
        invariant Divided(Elements(ready), collected, pending)
        invariant InOrder(d, env, collected, pending)
        invariant Valid(d, calm) && old(comm.log) <= comm.log
        invariant Collected(d, before, sm.states, collected)
        decreases |pending|
      {
        ghost var next := EarliestExists(env, pending);
        var id :| id in pending && forall m :: m in pending ==> m == id || Earlier(env, id, m);
        ghost var states := sm.states;
        StillRunning(d, before, states, collected, ready, id);
        CommitAnswer(id, d, calm);
        CollectedOneMore(d, before, states, sm.states, collected, id);
        if Escalates(d(id)) {
          EscalationIsHeard(d, env, Elements(ready), collected, pending, id);
          return true, collected + {id};
        }
        NextInOrder(d, env, collected, pending, id);
        MoveOne(Elements(ready), collected, pending, id);
        collected, pending := collected + {id}, pending - {id};
      }
      assert collected == Elements(ready);
      escalated := false;
    }

    /** The longest time any node of the wave still has, as far as one has a deadline at all. */
    method WaveDeadline(wave: seq<Id>, timeLeft: Id -> int) returns (deadline: int)
      ensures deadline >= 0
      ensures forall n :: n in wave && n in ceg.nodeMap ==> timeLeft(n) <= deadline
      ensures deadline > 0 ==> exists n :: n in wave && n in ceg.nodeMap && timeLeft(n) == deadline
    {
      deadline := 0;
      for i := 0 to |wave|
        invariant deadline >= 0
        invariant forall j :: 0 <= j < i && wave[j] in ceg.nodeMap ==> timeLeft(wave[j]) <= deadline
        invariant deadline > 0 ==> exists n :: n in wave && n in ceg.nodeMap && timeLeft(n) == deadline
      {
        if wave[i] in ceg.nodeMap && timeLeft(wave[i]) > deadline {
          deadline := timeLeft(wave[i]);
        }
      }
    }

    /** Waits until the wave is terminal, its deadline passes or the context is cancelled; with
        neither of the two to come, an unfinished wave is awaited for ever. */
    method WaitWave(wave: seq<Id>, deadline: int, cancelled: bool, ghost d: Dispatch, ghost calm: bool)
      returns (r: WaitResult)
      requires Valid(d, calm) && sm.states.Keys <= ceg.nodeMap.Keys * ceg.inDegree.Keys
      requires calm ==> AllDone(sm.states, wave) || (deadline <= 0 && !cancelled)
      modifies comm, sm
      ensures Valid(d, calm) && old(comm.log) <= comm.log
      ensures r.Done? <==> AllDone(old(sm.states), wave)
      ensures r.Forever? <==> !AllDone(old(sm.states), wave) && deadline <= 0 && !cancelled
      ensures !r.Expired? ==> sm.states == old(sm.states)
      ensures r.Expired? ==> Halted(old(sm.states), sm.states, wave)
    {
      var all := sm.AllTerminal(wave);
      assert forall i :: 0 <= i < |wave| ==> wave[i] in wave;
      if all {
        return Done;
      }
      if deadline <= 0 {
        return if cancelled then Cancelled else Forever;
      }
      if cancelled {
        if * {
          return Cancelled;
        }
      }
      Halt(wave, d);
      r := Expired;
    }
 
    /** The statuses cover exactly the graph's nodes. */
    ghost predicate Full()
      reads sm
    {
      AllKnown(ceg, sm.states)
    }

    /** Awaits the wave; if the wait ends early, exactly what is left of the wave is terminated. */
    method AwaitWave(wave: seq<Id>, deadline: int, cancelled: bool, ghost d: Dispatch, ghost calm: bool)
      returns (stuck: bool)
      requires Valid(d, calm) && sm.states.Keys <= ceg.nodeMap.Keys * ceg.inDegree.Keys
      requires calm ==> AllDone(sm.states, wave) || (deadline <= 0 && !cancelled)
      modifies comm, sm
      ensures Valid(d, calm) && old(comm.log) <= comm.log
      ensures stuck <==> !AllDone(old(sm.states), wave) && deadline <= 0 && !cancelled
      ensures sm.states == if stuck then old(sm.states) else Closed(old(sm.states), wave)
    {
      ghost var before := sm.states;
      var waited := WaitWave(wave, deadline, cancelled, d, calm);
      if waited.Forever? {
        return true;
      }
      if waited.Done? {
        ClosedIsDone(before, wave);
      } else {
        ghost var middle := sm.states;
        Halt(wave, d);
        HaltTwice(before, middle, sm.states, wave);
        HaltedIsClosed(before, sm.states, wave);
      }
      stuck := false;
    }

    /** Claims, dispatches and awaits one wave. */
    method RunWave(layer: nat, w: nat, d: Dispatch, env: Surroundings, ghost calm: bool) returns (r: WaveResult)
      requires Valid(d, calm) && Full() && NoneRunning(sm.states)
      requires layer < |waves| && w < |waves[layer]|
      requires calm ==> !Forces(ceg, d, env, sm.states, waves[layer][w], layer, w)
      modifies comm, sm
      ensures (if r.Escalate? then Valid(d, false) else Valid(d, calm)) && old(comm.log) <= comm.log && Full()
      ensures !r.ClaimError?
      ensures r.Escalate? <==> SomeEscalates(d, old(sm.states), waves[layer][w])
      ensures r.Stuck? <==> Spins(ceg, d, env, old(sm.states), waves[layer][w], layer, w)
      ensures sm.states == WaveLeaves(ceg, d, env, old(sm.states), waves[layer][w], r)
      ensures r.Continue? ==> NoneRunning(sm.states)
    {
      var wave := waves[layer][w];
      ghost var before := sm.states;
      NextNoneRuns(ceg, d, before, wave);
      var ready, ok := Claim(layer, w, wave, d, calm);
      if !ok {
        return ClaimError;
      }
      ReadyAreClaimed(before, sm.states, wave, ready);
      if |ready| == 0 {
        NothingClaimed(before, sm.states, wave, ready);
        Recompute(d, calm);
        return Continue;
      }
      r := ServeWave(layer, w, before, ready, d, env, calm);
    }

    /** Dispatches the claimed nodes and awaits their wave. */
    method ServeWave(layer: nat, w: nat, ghost before: map<Id, Status>, ready: seq<Id>, d: Dispatch, env: Surroundings,
                     ghost calm: bool)
      returns (r: WaveResult)
      requires Valid(d, calm) && Full()
      requires layer < |waves| && w < |waves[layer]|
      requires Claimed(before, sm.states, waves[layer][w], ready) && SomeReady(before, waves[layer][w])
      requires calm ==> !Forces(ceg, d, env, before, waves[layer][w], layer, w)
      modifies comm, sm
      ensures (if r.Escalate? then Valid(d, false) else Valid(d, calm)) && old(comm.log) <= comm.log && Full()
      ensures !r.ClaimError?
      ensures r.Escalate? <==> SomeEscalates(d, before, waves[layer][w])
      ensures r.Stuck? <==> Spins(ceg, d, env, before, waves[layer][w], layer, w)
      ensures sm.states == WaveLeaves(ceg, d, env, before, waves[layer][w], r)
    {
      var wave := waves[layer][w];
      var deadline := WaveDeadline(wave, env.timeLeft);
      var escalated := DispatchWave(before, wave, ready, d, env, calm);
      if escalated {
        return Escalate;
      }
      LimitsAre(before, wave, deadline, d, env, layer, w);
      var stuck := AwaitWave(wave, deadline, env.cancelled(layer, w), d, calm);
      r := if stuck then Stuck else Continue;
    }

    lemma LimitsAre(before: map<Id, Status>, wave: seq<Id>, deadline: int, d: Dispatch, env: Surroundings, layer: nat,
                    w: nat)
      requires SomeReady(before, wave) && !SomeEscalates(d, before, wave) && deadline >= 0
      requires forall n :: n in wave && n in ceg.nodeMap ==> env.timeLeft(n) <= deadline
      requires deadline > 0 ==> exists n :: n in wave && n in ceg.nodeMap && env.timeLeft(n) == deadline
      ensures Unlimited(ceg, env, wave, layer, w) <==> deadline <= 0 && !env.cancelled(layer, w)
      ensures Spins(ceg, d, env, before, wave, layer, w) <==>
                !AllDone(WaveDone(d, before, wave), wave) && deadline <= 0 && !env.cancelled(layer, w)
      ensures !Forces(ceg, d, env, before, wave, layer, w) ==>
                AllDone(WaveDone(d, before, wave), wave) || (deadline <= 0 && !env.cancelled(layer, w))
    {
    }

    /** Collects the answers of the claimed nodes; an escalation terminates every node. */
    method DispatchWave(ghost before: map<Id, Status>, wave: seq<Id>, ready: seq<Id>, d: Dispatch, env: Surroundings,
                        ghost calm: bool)
      returns (escalated: bool)
      requires Valid(d, calm) && Full()
      requires Claimed(before, sm.states, wave, ready)
      modifies comm, sm
      ensures (if escalated then Valid(d, false) else Valid(d, calm)) && old(comm.log) <= comm.log && Full()
      ensures escalated <==> SomeEscalates(d, before, wave)
      ensures sm.states == if escalated then EscalatesTo(d, env, before, wave) else WaveDone(d, before, wave)
    {
      ghost var claimed := sm.states;
      ClaimedAreRunning(before, claimed, wave, ready);
      ghost var collected;
      escalated, collected := Collect(ready, d, env, calm);
      ReadyAreClaimed(before, claimed, wave, ready);
      if escalated {
        ghost var cut := sm.states;
        if calm {
          CalmRunsAreRuns(ceg, d, waves, comm.log);
        }
        Halt(ceg.nodes, d);
        HaltedIsEscalated(d, env, before, claimed, cut, sm.states, wave, ready, collected, ceg.nodes);
      } else {
        AnsweredIsDone(d, before, claimed, sm.states, wave, ready);
      }
    }

    /** Runs the waves of one layer, one after the other. */
    method RunLayer(layer: nat, d: Dispatch, env: Surroundings, ghost calm: bool) returns (r: WaveResult, at: nat)
      requires Valid(d, calm) && layer < |waves|
      requires LayerReached(ceg, d, env, waves, comm.log, comm.log, sm.states, layer, Continue, 0)
      requires calm ==> !LayerForces(ceg, d, env, waves[layer], sm.states, layer)
      modifies comm, sm
      ensures if r.Escalate? then Valid(d, false) else Valid(d, calm)
      ensures LayerReached(ceg, d, env, waves, old(comm.log), comm.log, sm.states, layer, r, at)
      ensures r.Continue? ==> at == |waves[layer]|
    {
      r, at := Continue, 0;
      var layerWaves := waves[layer];
      ghost var since := comm.log;
      while at < |layerWaves|
        invariant at <= |layerWaves| && r.Continue?
        invariant Valid(d, calm)
        invariant LayerReached(ceg, d, env, waves, since, comm.log, sm.states, layer, Continue, at)
      {
        r := NextWave(layer, at, since, d, env, calm);
        if !r.Continue? {
          return;
        }
        at := at + 1;
      }
    }

    /** One turn of the inner loop. */
    method NextWave(layer: nat, at: nat, ghost since: seq<Event>, d: Dispatch, env: Surroundings, ghost calm: bool)
      returns (r: WaveResult)
      requires Valid(d, calm) && layer < |waves| && at < |waves[layer]|
      requires LayerReached(ceg, d, env, waves, since, comm.log, sm.states, layer, Continue, at)
      requires calm ==> !LayerForces(ceg, d, env, waves[layer], After(since), layer)
      modifies comm, sm
      ensures if r.Escalate? then Valid(d, false) else Valid(d, calm)
      ensures r.Continue? ==> LayerReached(ceg, d, env, waves, since, comm.log, sm.states, layer, Continue, at + 1)
      ensures !r.Continue? ==> LayerReached(ceg, d, env, waves, since, comm.log, sm.states, layer, r, at)
    {
      ghost var before := sm.states;
      if calm {
        UnforcedWave(ceg, d, env, waves[layer], After(since), before, layer, at);
      }
      r := RunWave(layer, at, d, env, calm);
      CourseGoesOn(ceg, d, env, waves[layer], After(since), before, sm.states, r, layer, at);
    }

    /** The main loop: layer by layer, wave by wave, with a recomputation after every layer. How it ends,
        and with what statuses, is what the course of the run says, in any surroundings; where the
        course cuts no wait short, nothing but an escalation forces a status. */
    method RunLoop(d: Dispatch, env: Surroundings, ghost calm: bool) returns (r: RunResult)
      requires Valid(d, calm) && Full() && NoneRunning(sm.states)
      requires calm ==> !ForcesSome(ceg, d, env, waves, sm.states)
      modifies comm, sm
      ensures (if r.Escalated? then Valid(d, false) else Valid(d, calm)) && old(comm.log) <= comm.log && Full()
      ensures EndsWith(ceg, d, env, waves, old(sm.states), r, sm.states)
      ensures r.Completed? ==> NoneRunning(sm.states)
    {
      LoopOpens(ceg, d, env, waves, comm.log, sm.states);
      ghost var begun := comm.log;
      var ended, layer, at := RunLayers(d, env, calm);
      if !ended.Continue? {
        HaltEnds(ceg, d, env, waves, After(begun), sm.states, ended, layer, at);
        return CutShort(ended, sm.states, layer, at);
      }
      RefreshNoneRuns(ceg, sm.states);
      Recompute(d, calm);
      r := Completed(sm.states);
    }

    /** All layers, in order, until one is cut short. */
    method RunLayers(d: Dispatch, env: Surroundings, ghost calm: bool) returns (r: WaveResult, layer: nat, at: nat)
      requires Valid(d, calm)
      requires Reached(ceg, d, env, waves, comm.log, comm.log, sm.states, Continue, 0, 0)
      requires calm ==> !ForcesSome(ceg, d, env, waves, sm.states)
      modifies comm, sm
      ensures if r.Escalate? then Valid(d, false) else Valid(d, calm)
      ensures Reached(ceg, d, env, waves, old(comm.log), comm.log, sm.states, r, layer, at)
      ensures r.Continue? ==> layer == |waves| && at == 0
    {
      r, layer, at := Continue, 0, 0;
      ghost var begun := comm.log;
      while layer < |waves|
        invariant layer <= |waves| && r.Continue? && at == 0
        invariant Valid(d, calm)
        invariant Reached(ceg, d, env, waves, begun, comm.log, sm.states, Continue, layer, 0)
      {
        r, at := RunLayerAndRecompute(layer, begun, d, env, calm);
        if !r.Continue? {
          return;
        }
        layer, at := layer + 1, 0;
      }
    }

    /** One turn of the outer loop. */
    method RunLayerAndRecompute(layer: nat, ghost begun: seq<Event>, d: Dispatch, env: Surroundings, ghost calm: bool)
      returns (r: WaveResult, at: nat)
      requires Valid(d, calm) && layer < |waves|
      requires Reached(ceg, d, env, waves, begun, comm.log, sm.states, Continue, layer, 0)
      requires calm ==> !ForcesSome(ceg, d, env, waves, After(begun))
      modifies comm, sm
      ensures if r.Escalate? then Valid(d, false) else Valid(d, calm)
      ensures r.Continue? ==> Reached(ceg, d, env, waves, begun, comm.log, sm.states, Continue, layer + 1, 0)
      ensures !r.Continue? ==> Reached(ceg, d, env, waves, begun, comm.log, sm.states, r, layer, at)
    {
      ghost var start := sm.states;
      LayerOpensAt(ceg, d, env, waves, comm.log, start, layer);
      if calm {
        UnforcedLayer(ceg, d, env, waves, After(begun), start, layer);
      }
      r, at := RunLayer(layer, d, env, calm);
      if !r.Continue? {
        LayerHalts(ceg, d, env, waves, After(begun), start, sm.states, r, layer, at);
        return;
      }
      LayerGoesOn(ceg, d, env, waves, After(begun), start, sm.states, layer);
      RefreshNoneRuns(ceg, sm.states);
      Recompute(d, calm);
    }

    /** Splits every layer into waves. */
    method ComputeWaves(rir: Rir)
      requires forall l :: 0 <= l < |ceg.layers| ==> Distinct(ceg.layers[l])
      modifies this
      ensures |waves| == |ceg.layers| && SplitSoFar(rir, ceg.layers, waves)
    {
      var computed: seq<seq<seq<Id>>> := [];
      for l := 0 to |ceg.layers|
        invariant |computed| == l && SplitSoFar(rir, ceg.layers, computed)
      {
        if |ceg.layers[l]| == 0 {
          OneMoreSplit(rir, ceg.layers, computed, []);
          computed := computed + [[]];
        } else {
          var layerWaves := Waves.LayerWaves(rir, ceg.layers[l]);
          OneMoreSplit(rir, ceg.layers, computed, layerWaves);
          computed := computed + [layerWaves];
        }
      }
      waves := computed;
    }
  }

  /** The waves the scheduler computes for each layer. */
  ghost predicate AreAllWaves(rir: Rir, ceg: Ceg, waves: seq<seq<seq<Id>>>) {
    && |waves| == |ceg.layers|
    && (forall l :: 0 <= l < |waves| ==> ceg.layers[l] != [] && Waves.AreWaves(rir, ceg.layers[l], waves[l]))
  }

  lemma SplitIsAll(rir: Rir, ceg: Ceg, waves: seq<seq<seq<Id>>>)
    requires |waves| == |ceg.layers| && SplitSoFar(rir, ceg.layers, waves)
    requires forall l :: 0 <= l < |ceg.layers| ==> ceg.layers[l] != []
    ensures AreAllWaves(rir, ceg, waves)
  {
    forall l | 0 <= l < |waves|
      ensures Waves.AreWaves(rir, ceg.layers[l], waves[l])
    {
      assert SplitsLayer(rir, ceg.layers[l], waves[l]);
    }
  }

  lemma WavesCover(rir: Rir, ceg: Ceg, waves: seq<seq<seq<Id>>>)
    requires AreAllWaves(rir, ceg, waves)
    requires forall l :: 0 <= l < |ceg.layers| ==> Distinct(ceg.layers[l])
    ensures Covers(ceg, waves)
  {
    forall l | 0 <= l < |waves|
      ensures Separate(waves[l])
      ensures forall n :: n in ceg.layers[l] <==> InSomeWave(waves[l], n)
    {
      Waves.WavesSplit(rir, ceg.layers[l], waves[l]);
    }
  }

  lemma TogetherIsConflictFree(rir: Rir, ceg: Ceg, waves: seq<seq<seq<Id>>>, states: map<Id, Status>, a: Id, b: Id)
    requires AreAllWaves(rir, ceg, waves) && Together(waves, states)
    requires forall l :: 0 <= l < |ceg.layers| ==> Distinct(ceg.layers[l])
    requires a in states && b in states && states[a].Running? && states[b].Running?
    ensures !Waves.Conflict(rir, a, b)
  {
    var l: nat, w: nat :| RunningIn(waves, l, w, states);
    Waves.WavesSplit(rir, ceg.layers[l], waves[l]);
    assert Waves.ConflictFree(rir, waves[l][w]);
  }

  /** Mutual exclusion: at every moment of every run, forced terminations included, no two
      running nodes share an isolation surface or an input contract. */
  lemma ConflictingNodesNeverRunTogether(rir: Rir, ceg: Ceg, d: Dispatch, waves: seq<seq<seq<Id>>>, calm: bool,
                                         log: seq<Event>, k: nat, a: Id, b: Id)
    requires AreAllWaves(rir, ceg, waves)
    requires forall l :: 0 <= l < |ceg.layers| ==> Distinct(ceg.layers[l])
    requires Run(ceg, d, waves, calm, log) && k <= |log|
    requires a in After(log[..k]) && b in After(log[..k])
    requires After(log[..k])[a].Running? && After(log[..k])[b].Running?
    ensures !Waves.Conflict(rir, a, b)
  {
    RunPrefix(ceg, d, waves, calm, log, k);
    RunsAreTogether(ceg, d, waves, calm, log[..k]);
    TogetherIsConflictFree(rir, ceg, waves, After(log[..k]), a, b);
  }
}
