/** The course of a run: its statuses before every wave, and what a wave that stops it leaves. No
    statement here mentions a log, and none depends on how the scheduler works. */
module Courses {
  import opened Ids
  import opened Plans
  import opened Wiring
  import opened Statuses
  import opened Activating
  import opened Runs

  /** What the surroundings decide: the time left until a node's deadline when its wave is
      dispatched (zero or less for none, past or unreadable), whether the caller's context is
      cancelled while a wave is awaited, and when the answer of a node arrives once it has been
      dispatched. */
  datatype Surroundings = Surroundings(timeLeft: Id -> int, cancelled: (nat, nat) -> bool, arrival: Id -> int)

  /** Which of two answers is taken first; those that arrive at the same time, in identifier order. */
  predicate Earlier(env: Surroundings, a: Id, b: Id) {
    env.arrival(a) < env.arrival(b) || (env.arrival(a) == env.arrival(b) && Before(a, b))
  }

  lemma EarlierIsTotal(env: Surroundings, a: Id, b: Id)
    ensures a == b || Earlier(env, a, b) || Earlier(env, b, a)
    ensures !(Earlier(env, a, b) && Earlier(env, b, a)) && !Earlier(env, a, a)
  {
    BeforeIsTotal(a, b);
  }

  lemma EarlierTransitive(env: Surroundings, a: Id, b: Id, c: Id)
    requires Earlier(env, a, b) && Earlier(env, b, c)
    ensures Earlier(env, a, c)
  {
    if Before(a, b) && Before(b, c) {
      BeforeTransitive(a, b, c);
    }
  }

  ghost predicate IsEarliest(env: Surroundings, ids: set<Id>, id: Id) {
    id in ids && forall m :: m in ids ==> m == id || Earlier(env, id, m)
  }

  lemma {:induction false} EarliestExists(env: Surroundings, ids: set<Id>) returns (id: Id)
    requires ids != {}
    ensures IsEarliest(env, ids, id)
  {
    id :| id in ids;
    if ids != {id} {
      var first := EarliestExists(env, ids - {id});
      EarlierIsTotal(env, id, first);
      if Earlier(env, first, id) {
        id := first;
      } else {
        forall m | m in ids
          ensures m == id || Earlier(env, id, m)
        {
          if m != id && m != first {
            EarlierTransitive(env, id, first, m);
          }
        }
      }
    }
  }

  datatype WaitResult = Done | Expired | Cancelled | Forever

  /** How the handling of one wave ends. */
  datatype WaveResult = Continue | Escalate | ClaimError | Stuck

  /** How the main loop ends; `NeverReturns` names the wave that is awaited for ever. */
  datatype RunResult =
    | Completed(states: map<Id, Status>)
    | Escalated(states: map<Id, Status>)
    | ClaimFailed
    | NeverReturns(layer: nat, wave: nat)

  ghost predicate ReadyIn(states: map<Id, Status>, n: Id) {
    n in states && states[n].Ready?
  }

  ghost predicate SomeReady(states: map<Id, Status>, wave: seq<Id>) {
    exists n :: n in wave && ReadyIn(states, n)
  }

  ghost predicate TerminalIn(states: map<Id, Status>, n: Id) {
    n in states && IsTerminal(states[n])
  }

  ghost predicate AllDone(states: map<Id, Status>, ids: seq<Id>) {
    forall n :: n in ids ==> TerminalIn(states, n)
  }

  // ----- The first statuses -----

  ghost function FirstStates(ceg: Ceg): map<Id, Status> {
    map n | n in ceg.nodeMap && n in ceg.inDegree :: Initial(ceg, n, map[])
  }

  ghost predicate NoneSucceeded(states: map<Id, Status>) {
    forall n :: n in states ==> !states[n].Success?
  }

  /** While nothing has succeeded, the first status of a node does not depend on the others. */
  lemma InitialIsFixed(ceg: Ceg, n: Id, states: map<Id, Status>)
    requires n in ceg.nodeMap && n in ceg.inDegree && NoneSucceeded(states)
    ensures Initial(ceg, n, states) == Initial(ceg, n, map[])
  {
    var a := ceg.nodeMap[n].activation;
    if a.condition.AllSuccess? && a.required != [] {
      assert !Succeeded(states, a.required[0]) && !Succeeded(map[], a.required[0]);
    }
  }

  // ----- Recomputing -----

  function Decide(ceg: Ceg, states: map<Id, Status>, id: Id): map<Id, Status> {
    if id !in ceg.nodeMap then states
    else if EvaluateActivation(ceg.nodeMap[id].activation, states) then states[id := Ready]
    else if ShouldSkip(ceg.nodeMap[id].activation, states) then states[id := Skipped]
    else states
  }

  /** The listed nodes are decided one after the other, each on what the ones before have left. */
  function Settle(ceg: Ceg, states: map<Id, Status>, ids: seq<Id>): map<Id, Status> {
    if ids == [] then states else Decide(ceg, Settle(ceg, states, ids[..|ids| - 1]), ids[|ids| - 1])
  }

  /** The elements in identifier order. */
  ghost function Listed(ids: set<Id>): (s: seq<Id>)
    ensures Sorted(s) && Distinct(s) && Elements(s) == ids
  {
    if ids == {} then []
    else
      var x :| x in ids;
      var rest := Listed(ids - {x});
      InsertIsNew(x, rest);
      Insert(x, rest)
  }

  lemma InsertIsNew(x: Id, s: seq<Id>)
    requires Sorted(s) && Distinct(s) && x !in s
    ensures Sorted(Insert(x, s)) && Distinct(Insert(x, s)) && Elements(Insert(x, s)) == Elements(s) + {x}
  {
    var r := Insert(x, s);
    SameMultiset(r, s + [x]);
    DistinctAppend(s, [x]);
  }

  ghost predicate AreBlocked(states: map<Id, Status>, blocked: seq<Id>) {
    Distinct(blocked) && forall n :: n in blocked <==> n in states && states[n].Blocked?
  }

  /** The blocked nodes in identifier order. */
  ghost predicate IsListing(states: map<Id, Status>, ids: seq<Id>) {
    Sorted(ids) && AreBlocked(states, ids)
  }

  lemma OneListing(states: map<Id, Status>) returns (ids: seq<Id>)
    ensures IsListing(states, ids)
    ensures forall other :: IsListing(states, other) ==> other == ids
  {
    ids := Listed(set n | n in states && states[n].Blocked?);
    assert forall n :: n in ids <==> n in Elements(ids);
    forall other | IsListing(states, other)
      ensures other == ids
    {
      SortedSetsAgree(other, ids);
    }
  }

  lemma SortedIsListing(states: map<Id, Status>, blocked: seq<Id>)
    requires AreBlocked(states, blocked)
    ensures IsListing(states, Sort(blocked))
  {
    SameMultiset(Sort(blocked), blocked);
  }

  /** All blocked nodes have been decided, in identifier order. */
  ghost predicate IsRefresh(ceg: Ceg, before: map<Id, Status>, after: map<Id, Status>) {
    forall ids {:trigger IsListing(before, ids)} :: IsListing(before, ids) ==> after == Settle(ceg, before, ids)
  }

  lemma RefreshExists(ceg: Ceg, before: map<Id, Status>)
    ensures exists after :: IsRefresh(ceg, before, after)
  {
    var ids := OneListing(before);
    assert IsRefresh(ceg, before, Settle(ceg, before, ids));
  }

  ghost function Refreshed(ceg: Ceg, before: map<Id, Status>): map<Id, Status> {
    RefreshExists(ceg, before);
    var after :| IsRefresh(ceg, before, after);
    after
  }

  ghost predicate Due(a: Activation, states: map<Id, Status>) {
    EvaluateActivation(a, states) || ShouldSkip(a, states)
  }

  predicate Unclaimed(s: Status) {
    s.Blocked? || s.Ready? || s.Skipped?
  }

  /** Recomputing leaves every node alone that is not blocked and settles every blocked node
      for which a decision is due. */
  ghost predicate Recomputed(ceg: Ceg, before: map<Id, Status>, after: map<Id, Status>) {
    && after.Keys == before.Keys
    && (forall n :: n in before && !before[n].Blocked? ==> after[n] == before[n])
    && (forall n :: n in before && before[n].Blocked? ==>
          && Unclaimed(after[n])
          && (n in ceg.nodeMap && Due(ceg.nodeMap[n].activation, before) ==> !after[n].Blocked?))
  }

  /** Recomputing with `rest` still to be looked at. */
  ghost predicate PartlyRecomputed(ceg: Ceg, before: map<Id, Status>, after: map<Id, Status>, rest: seq<Id>) {
    && Extends(before, after)
    && after.Keys == before.Keys
    && (forall n :: n in before && !before[n].Blocked? ==> after[n] == before[n])
    && (forall n :: n in rest ==> n in before && before[n].Blocked? && after[n].Blocked?)
    && (forall n :: n in before && before[n].Blocked? && n !in rest ==>
          && Unclaimed(after[n])
          && (n in ceg.nodeMap && Due(ceg.nodeMap[n].activation, before) ==> !after[n].Blocked?))
  }

  /** A decision that was due at the start is still due, so the node is settled. */
  lemma RecomputeOne(ceg: Ceg, before: map<Id, Status>, states: map<Id, Status>, rest: seq<Id>)
    requires rest != [] && Distinct(rest) && PartlyRecomputed(ceg, before, states, rest)
    ensures rest[0] in states && states[rest[0]].Blocked?
    ensures PartlyRecomputed(ceg, before, Decide(ceg, states, rest[0]), rest[1..])
  {
    var id := rest[0];
    assert id in rest;
    assert forall n :: n in rest <==> n == id || n in rest[1..];
    assert id !in rest[1..];
    if id in ceg.nodeMap {
      DecisionsLast(ceg.nodeMap[id].activation, before, states);
    }
  }

  lemma {:induction false} PartlySettled(ceg: Ceg, before: map<Id, Status>, blocked: seq<Id>, i: nat)
    requires AreBlocked(before, blocked) && i <= |blocked|
    ensures PartlyRecomputed(ceg, before, Settle(ceg, before, blocked[..i]), blocked[i..])
    decreases i
  {
    if i > 0 {
      PartlySettled(ceg, before, blocked, i - 1);
      SettledOneMore(ceg, before, blocked, i - 1);
      RecomputeOne(ceg, before, Settle(ceg, before, blocked[..i - 1]), blocked[i - 1..]);
      assert blocked[i - 1..][1..] == blocked[i..];
    }
  }

  lemma SettledOneMore(ceg: Ceg, before: map<Id, Status>, blocked: seq<Id>, i: nat)
    requires i < |blocked|
    ensures Settle(ceg, before, blocked[..i + 1]) == Decide(ceg, Settle(ceg, before, blocked[..i]), blocked[i])
  {
    assert blocked[..i + 1][..i] == blocked[..i];
  }

  lemma NextToSettle(ceg: Ceg, before: map<Id, Status>, blocked: seq<Id>, i: nat)
    requires AreBlocked(before, blocked) && i < |blocked|
    ensures var states := Settle(ceg, before, blocked[..i]);
            && states.Keys == before.Keys && blocked[i] in states && states[blocked[i]].Blocked?
            && Settle(ceg, before, blocked[..i + 1]) == Decide(ceg, states, blocked[i])
  {
    PartlySettled(ceg, before, blocked, i);
    RecomputeOne(ceg, before, Settle(ceg, before, blocked[..i]), blocked[i..]);
    SettledOneMore(ceg, before, blocked, i);
  }

  /** Settling all blocked nodes in order recomputes the statuses. */
  lemma RefreshedIsRecomputed(ceg: Ceg, before: map<Id, Status>)
    ensures Recomputed(ceg, before, Refreshed(ceg, before))
  {
    var blocked := OneListing(before);
    PartlySettled(ceg, before, blocked, |blocked|);
    assert blocked[..|blocked|] == blocked;
  }

  // ----- The answers of one wave -----

  ghost predicate SomeEscalates(d: Dispatch, before: map<Id, Status>, wave: seq<Id>) {
    exists n :: n in wave && ReadyIn(before, n) && Escalates(d(n))
  }

  /** All ready nodes of the wave have been dispatched and have answered. */
  ghost function WaveDone(d: Dispatch, before: map<Id, Status>, wave: seq<Id>): map<Id, Status> {
    map n | n in before :: if n in wave && before[n].Ready? then Landed(d(n)) else before[n]
  }

  /** What is not terminal in the wave has been terminated. */
  ghost function Closed(states: map<Id, Status>, wave: seq<Id>): map<Id, Status> {
    map n | n in states :: if n in wave && !IsTerminal(states[n]) then Terminated else states[n]
  }

  /** The wave dispatches something, no answer escalates, and with all answers in it is not terminal. */
  ghost predicate Lingers(d: Dispatch, before: map<Id, Status>, wave: seq<Id>) {
    SomeReady(before, wave) && !SomeEscalates(d, before, wave) && !AllDone(WaveDone(d, before, wave), wave)
  }

  /** Neither a deadline nor a cancellation ends the wait for the wave. */
  ghost predicate Unlimited(ceg: Ceg, env: Surroundings, wave: seq<Id>, layer: nat, w: nat) {
    (forall n :: n in wave && n in ceg.nodeMap ==> env.timeLeft(n) <= 0) && !env.cancelled(layer, w)
  }

  /** The wave is awaited for ever. */
  ghost predicate Spins(ceg: Ceg, d: Dispatch, env: Surroundings, before: map<Id, Status>, wave: seq<Id>, layer: nat,
                        w: nat) {
    Lingers(d, before, wave) && Unlimited(ceg, env, wave, layer, w)
  }

  /** The wait for the wave is cut short, and what is left of it is terminated. */
  ghost predicate Forces(ceg: Ceg, d: Dispatch, env: Surroundings, before: map<Id, Status>, wave: seq<Id>, layer: nat,
                         w: nat) {
    Lingers(d, before, wave) && !Unlimited(ceg, env, wave, layer, w)
  }

  /** The statuses after a wave that the run gets past. */
  ghost function NextStates(ceg: Ceg, d: Dispatch, before: map<Id, Status>, wave: seq<Id>): map<Id, Status> {
    if SomeReady(before, wave) then Closed(WaveDone(d, before, wave), wave) else Refreshed(ceg, before)
  }

  lemma NextNoneRuns(ceg: Ceg, d: Dispatch, before: map<Id, Status>, wave: seq<Id>)
    requires NoneRunning(before)
    ensures NoneRunning(NextStates(ceg, d, before, wave)) && NextStates(ceg, d, before, wave).Keys == before.Keys
  {
    RefreshedIsRecomputed(ceg, before);
  }

  // ----- When an answer escalates -----

  ghost function ReadyOf(before: map<Id, Status>, wave: seq<Id>): set<Id> {
    set n | n in wave && ReadyIn(before, n)
  }

  /** Another answer of `all` escalates and is taken before that of `n`. */
  ghost predicate Overtaken(d: Dispatch, env: Surroundings, all: set<Id>, n: Id) {
    exists e :: e in all && Escalates(d(e)) && Earlier(env, e, n)
  }

  /** The answers that are taken: those that none which escalates overtakes. */
  ghost function Heard(d: Dispatch, env: Surroundings, all: set<Id>): set<Id> {
    set n | n in all && !Overtaken(d, env, all, n)
  }

  /** Of all answers, those of `heard` were committed before the run was stopped. */
  ghost function CutOff(d: Dispatch, before: map<Id, Status>, wave: seq<Id>, heard: set<Id>): map<Id, Status> {
    map n | n in before ::
      if n in wave && before[n].Ready? then
        if n in heard && Allowed(Running, Outcome(d(n))) then Outcome(d(n)) else Terminated
      else if IsTerminal(before[n]) then before[n] else Terminated
  }

  /** The statuses that an escalation of the wave leaves. */
  ghost function EscalatesTo(d: Dispatch, env: Surroundings, before: map<Id, Status>, wave: seq<Id>): map<Id, Status> {
    CutOff(d, before, wave, Heard(d, env, ReadyOf(before, wave)))
  }

  /** The last answer of `heard` is `e`, and the only one that escalates. */
  predicate LastHeard(d: Dispatch, heard: set<Id>, e: Id) {
    e in heard && Escalates(d(e)) && forall n :: n in heard && n != e ==> !Escalates(d(n))
  }

  /** Surroundings in which the answers of `heard` arrive before all others, `e` last of them. */
  ghost function Hearing(heard: set<Id>, e: Id): Surroundings {
    Surroundings(n => 0, (l, w) => false, n => if n == e then 1 else if n in heard then 0 else 2)
  }

  /** Any answers, of which exactly one escalates, are what some times of arrival let through. */
  lemma HeardArises(d: Dispatch, all: set<Id>, heard: set<Id>, e: Id)
    requires heard <= all && LastHeard(d, heard, e)
    ensures Heard(d, Hearing(heard, e), all) == heard
  {
    var env := Hearing(heard, e);
    forall n | n in all
      ensures Overtaken(d, env, all, n) <==> n !in heard
    {
      if n !in heard {
        assert e in all && Earlier(env, e, n);
      }
      BeforeIsTotal(e, e);
    }
  }

  /** What is taken is one answer that escalates and others that do not. */
  lemma HeardEndsWith(d: Dispatch, env: Surroundings, all: set<Id>) returns (e: Id)
    requires exists n :: n in all && Escalates(d(n))
    ensures LastHeard(d, Heard(d, env, all), e)
  {
    var loud := set n | n in all && Escalates(d(n));
    var some :| some in all && Escalates(d(some));
    assert some in loud;
    e := EarliestExists(env, loud);
    forall n | n in loud
      ensures n in Heard(d, env, all) <==> n == e
    {
      EarlierIsTotal(env, e, n);
      forall m | m in loud
        ensures !Earlier(env, m, e)
      {
        EarlierIsTotal(env, e, m);
      }
    }
  }

  /** No dispatched node but those that escalate has an accepted answer other than TERMINATED. */
  ghost predicate OthersTerminate(d: Dispatch, before: map<Id, Status>, wave: seq<Id>) {
    forall n :: n in wave && ReadyIn(before, n) && !Escalates(d(n)) && Allowed(Running, Outcome(d(n))) ==>
      Outcome(d(n)).Terminated?
  }

  lemma NothingElseHeard(d: Dispatch, before: map<Id, Status>, wave: seq<Id>, heard: set<Id>)
    requires OthersTerminate(d, before, wave)
    ensures CutOff(d, before, wave, heard) == CutOff(d, before, wave, {})
  {
  }

  /** The statuses that an escalation leaves do not depend on the times of arrival exactly when all
      other accepted answers are TERMINATED too. */
  lemma EscalationIsFixedIff(d: Dispatch, before: map<Id, Status>, wave: seq<Id>)
    requires SomeEscalates(d, before, wave)
    ensures (forall env, other :: EscalatesTo(d, env, before, wave) == EscalatesTo(d, other, before, wave))
            <==> OthersTerminate(d, before, wave)
  {
    if OthersTerminate(d, before, wave) {
      forall env, other
        ensures EscalatesTo(d, env, before, wave) == EscalatesTo(d, other, before, wave)
      {
        NothingElseHeard(d, before, wave, Heard(d, env, ReadyOf(before, wave)));
        NothingElseHeard(d, before, wave, Heard(d, other, ReadyOf(before, wave)));
      }
    } else {
      var n :| n in wave && ReadyIn(before, n) && !Escalates(d(n)) && Allowed(Running, Outcome(d(n)))
               && !Outcome(d(n)).Terminated?;
      var e :| e in wave && ReadyIn(before, e) && Escalates(d(e));
      assert EscalatesTo(d, Hearing({e}, e), before, wave) != EscalatesTo(d, Hearing({e, n}, e), before, wave) by {
        HearingMatters(d, before, wave, e, n);
      }
    }
  }

  lemma HearingMatters(d: Dispatch, before: map<Id, Status>, wave: seq<Id>, e: Id, n: Id)
    requires e in wave && ReadyIn(before, e) && Escalates(d(e))
    requires n in wave && ReadyIn(before, n) && !Escalates(d(n))
    requires Allowed(Running, Outcome(d(n))) && !Outcome(d(n)).Terminated?
    ensures EscalatesTo(d, Hearing({e}, e), before, wave) != EscalatesTo(d, Hearing({e, n}, e), before, wave)
  {
    HeardArises(d, ReadyOf(before, wave), {e}, e);
    HeardArises(d, ReadyOf(before, wave), {e, n}, e);
    assert CutOff(d, before, wave, {e})[n] != CutOff(d, before, wave, {e, n})[n];
  }

  // ----- The waves of one layer -----

  /** The statuses after the first `at` waves of a layer. */
  ghost function CourseIn(ceg: Ceg, d: Dispatch, waves: seq<seq<Id>>, start: map<Id, Status>, at: nat): map<Id, Status>
    requires at <= |waves|
  {
    if at == 0 then start else NextStates(ceg, d, CourseIn(ceg, d, waves, start, at - 1), waves[at - 1])
  }

  /** The run does not get past the wave: an answer escalates, or the wave is awaited for ever. */
  ghost predicate Halts(ceg: Ceg, d: Dispatch, env: Surroundings, before: map<Id, Status>, wave: seq<Id>, layer: nat,
                        w: nat) {
    SomeEscalates(d, before, wave) || Spins(ceg, d, env, before, wave, layer, w)
  }

  ghost predicate HaltsAt(ceg: Ceg, d: Dispatch, env: Surroundings, waves: seq<seq<Id>>, start: map<Id, Status>,
                          layer: nat, w: nat)
    requires w < |waves|
  {
    Halts(ceg, d, env, CourseIn(ceg, d, waves, start, w), waves[w], layer, w)
  }

  /** The run gets past the first `count` waves of the layer. */
  ghost predicate PassesTo(ceg: Ceg, d: Dispatch, env: Surroundings, waves: seq<seq<Id>>, start: map<Id, Status>,
                           layer: nat, count: nat)
  {
    forall w {:trigger HaltsAt(ceg, d, env, waves, start, layer, w)} :: 0 <= w < count && w < |waves| ==>
      !HaltsAt(ceg, d, env, waves, start, layer, w)
  }

  /** The run gets as far as the wave, and cuts the wait for it short. */
  ghost predicate ForcesAt(ceg: Ceg, d: Dispatch, env: Surroundings, waves: seq<seq<Id>>, start: map<Id, Status>,
                           layer: nat, w: nat)
    requires w < |waves|
  {
    && PassesTo(ceg, d, env, waves, start, layer, w)
    && Forces(ceg, d, env, CourseIn(ceg, d, waves, start, w), waves[w], layer, w)
  }

  ghost predicate LayerForces(ceg: Ceg, d: Dispatch, env: Surroundings, waves: seq<seq<Id>>, start: map<Id, Status>,
                              layer: nat)
  {
    exists w :: 0 <= w < |waves| && ForcesAt(ceg, d, env, waves, start, layer, w)
  }

  /** A blocked node is READY if its rule was met before, and SKIPPED if that was out of reach. */
  ghost predicate Decided(ceg: Ceg, before: map<Id, Status>, after: map<Id, Status>, n: Id) {
    n in after && n in before && before[n].Blocked? && n in ceg.nodeMap ==>
      && (EvaluateActivation(ceg.nodeMap[n].activation, before) ==> after[n].Ready?)
      && (ShouldSkip(ceg.nodeMap[n].activation, before) ==> after[n].Skipped?)
  }

  lemma {:induction false} SettleDecides(ceg: Ceg, before: map<Id, Status>, blocked: seq<Id>, i: nat, n: Id)
    requires AreBlocked(before, blocked) && i <= |blocked| && n in blocked[..i]
    ensures Decided(ceg, before, Settle(ceg, before, blocked[..i]), n)
  {
    var last := i - 1;
    var states, id := Settle(ceg, before, blocked[..last]), blocked[last];
    assert blocked[..i] == blocked[..last] + [id];
    PartlySettled(ceg, before, blocked, last);
    SettledOneMore(ceg, before, blocked, last);
    if n in blocked[..last] {
      SettleDecides(ceg, before, blocked, last, n);
      OthersDecided(ceg, before, states, id, n);
    } else {
      DecideDecides(ceg, before, states, id);
    }
  }

  lemma OthersDecided(ceg: Ceg, before: map<Id, Status>, states: map<Id, Status>, id: Id, n: Id)
    requires Decided(ceg, before, states, n) && n != id
    ensures Decided(ceg, before, Decide(ceg, states, id), n)
  {
  }

  lemma DecideDecides(ceg: Ceg, before: map<Id, Status>, states: map<Id, Status>, id: Id)
    requires Extends(before, states)
    ensures Decided(ceg, before, Decide(ceg, states, id), id)
  {
    if id in ceg.nodeMap {
      DecisionsLast(ceg.nodeMap[id].activation, before, states);
      NeverBoth(ceg.nodeMap[id].activation, states);
    }
  }

  /** Recomputing takes every decision that is due. */
  lemma RefreshDecides(ceg: Ceg, before: map<Id, Status>, n: Id)
    ensures Decided(ceg, before, Refreshed(ceg, before), n)
  {
    var blocked := OneListing(before);
    assert blocked[..|blocked|] == blocked;
    if n in blocked {
      SettleDecides(ceg, before, blocked, |blocked|, n);
    }
  }

  lemma SortedPositions(ids: seq<Id>, a: Id, b: Id) returns (i: nat, j: nat)
    requires Sorted(ids) && a in ids && b in ids && Before(a, b)
    ensures i < j < |ids| && ids[i] == a && ids[j] == b
  {
    i :| i < |ids| && ids[i] == a;
    j :| j < |ids| && ids[j] == b;
    BeforeIsTotal(a, b);
  }

  /** Decisions are taken in identifier order, so a skip is felt at once by what comes later: a blocked
      node that requires one skipped before it is skipped in the same go. */
  lemma SkipsCascade(ceg: Ceg, before: map<Id, Status>, a: Id, b: Id)
    requires a in before && before[a].Blocked? && a in ceg.nodeMap
    requires b in before && before[b].Blocked? && b in ceg.nodeMap
    requires Before(a, b) && ShouldSkip(ceg.nodeMap[a].activation, before)
    requires ceg.nodeMap[b].activation.condition.AllSuccess? && a in ceg.nodeMap[b].activation.required
    ensures var after := Refreshed(ceg, before);
            a in after && after[a] == Skipped && b in after && after[b] == Skipped
  {
    var blocked := OneListing(before);
    var i, j := SortedPositions(blocked, a, b);
    RefreshDecides(ceg, before, a);
    RefreshedIsRecomputed(ceg, before);
    assert a in blocked[..j] by {
      assert blocked[..j][i] == a;
    }
    SettleDecides(ceg, before, blocked, j, a);
    NextToSettle(ceg, before, blocked, j);
    FeelsSkip(ceg, Settle(ceg, before, blocked[..j]), a, b);
    LaterKeep(ceg, before, blocked, j + 1, b);
    assert blocked[..|blocked|] == blocked;
  }

  lemma FeelsSkip(ceg: Ceg, states: map<Id, Status>, a: Id, b: Id)
    requires a in states && states[a].Skipped? && b in states && states[b].Blocked? && b in ceg.nodeMap
    requires ceg.nodeMap[b].activation.condition.AllSuccess? && a in ceg.nodeMap[b].activation.required
    ensures Decide(ceg, states, b)[b] == Skipped
  {
    var required := ceg.nodeMap[b].activation.required;
    var k :| 0 <= k < |required| && required[k] == a;
    assert FailedForGood(states, required[k]);
    NeverBoth(ceg.nodeMap[b].activation, states);
  }

  /** What has been skipped stays so while the others are decided. */
  lemma {:induction false} LaterKeep(ceg: Ceg, before: map<Id, Status>, blocked: seq<Id>, i: nat, n: Id)
    requires AreBlocked(before, blocked) && i <= |blocked| && n in Settle(ceg, before, blocked[..i])
    requires Settle(ceg, before, blocked[..i])[n].Skipped?
    ensures n in Settle(ceg, before, blocked[..|blocked|]) && Settle(ceg, before, blocked[..|blocked|])[n].Skipped?
    decreases |blocked| - i
  {
    if i < |blocked| {
      NextToSettle(ceg, before, blocked, i);
      LaterKeep(ceg, before, blocked, i + 1, n);
    }
  }

  /** Decisions are taken whenever a wave has nothing to dispatch, after every layer and at the end. */
  lemma DecisionsAreTaken(ceg: Ceg, d: Dispatch, waves: seq<seq<seq<Id>>>, first: map<Id, Status>, l: nat, w: nat,
                          n: Id)
    requires l < |waves| && w < |waves[l]|
    ensures !SomeReady(Reaching(ceg, d, waves, first, l, w), waves[l][w]) ==>
              Decided(ceg, Reaching(ceg, d, waves, first, l, w), Reaching(ceg, d, waves, first, l, w + 1), n)
    ensures Decided(ceg, Reaching(ceg, d, waves, first, l, |waves[l]|), Course(ceg, d, waves, first, l + 1), n)
    ensures Decided(ceg, Course(ceg, d, waves, first, |waves|), LastStates(ceg, d, waves, first), n)
  {
    RefreshDecides(ceg, Reaching(ceg, d, waves, first, l, w), n);
    RefreshDecides(ceg, Reaching(ceg, d, waves, first, l, |waves[l]|), n);
    RefreshDecides(ceg, Course(ceg, d, waves, first, |waves|), n);
  }

  // ----- The layers -----

  /** The statuses after a layer. */
  ghost function AfterLayer(ceg: Ceg, d: Dispatch, waves: seq<seq<Id>>, start: map<Id, Status>): map<Id, Status> {
    Refreshed(ceg, CourseIn(ceg, d, waves, start, |waves|))
  }

  /** The statuses after the first `layer` layers. */
  ghost function Course(ceg: Ceg, d: Dispatch, waves: seq<seq<seq<Id>>>, first: map<Id, Status>, layer: nat):
      map<Id, Status>
    requires layer <= |waves|
  {
    if layer == 0 then first
    else AfterLayer(ceg, d, waves[layer - 1], Course(ceg, d, waves, first, layer - 1))
  }

  /** The statuses before a wave. */
  ghost function Reaching(ceg: Ceg, d: Dispatch, waves: seq<seq<seq<Id>>>, first: map<Id, Status>, layer: nat, w: nat):
      map<Id, Status>
    requires layer < |waves| && w <= |waves[layer]|
  {
    CourseIn(ceg, d, waves[layer], Course(ceg, d, waves, first, layer), w)
  }

  /** The statuses when the loop has come to its end. */
  ghost function LastStates(ceg: Ceg, d: Dispatch, waves: seq<seq<seq<Id>>>, first: map<Id, Status>): map<Id, Status> {
    Refreshed(ceg, Course(ceg, d, waves, first, |waves|))
  }

  ghost predicate LayerPasses(ceg: Ceg, d: Dispatch, env: Surroundings, waves: seq<seq<seq<Id>>>,
                              first: map<Id, Status>, layer: nat)
    requires layer < |waves|
  {
    PassesTo(ceg, d, env, waves[layer], Course(ceg, d, waves, first, layer), layer, |waves[layer]|)
  }

  /** The run gets past the first `layer` layers. */
  ghost predicate Travels(ceg: Ceg, d: Dispatch, env: Surroundings, waves: seq<seq<seq<Id>>>, first: map<Id, Status>,
                          layer: nat)
  {
    forall l {:trigger LayerPasses(ceg, d, env, waves, first, l)} :: 0 <= l < layer && l < |waves| ==>
      LayerPasses(ceg, d, env, waves, first, l)
  }

  /** The run gets as far as the wave, and not past it. */
  ghost predicate HaltsFirst(ceg: Ceg, d: Dispatch, env: Surroundings, waves: seq<seq<seq<Id>>>,
                             first: map<Id, Status>, l: nat, w: nat)
  {
    && l < |waves| && w < |waves[l]| && Travels(ceg, d, env, waves, first, l)
    && PassesTo(ceg, d, env, waves[l], Course(ceg, d, waves, first, l), l, w)
    && HaltsAt(ceg, d, env, waves[l], Course(ceg, d, waves, first, l), l, w)
  }

  /** The run escalates in the wave and leaves `states`. */
  ghost predicate EscalatesIn(ceg: Ceg, d: Dispatch, env: Surroundings, waves: seq<seq<seq<Id>>>,
                              first: map<Id, Status>, states: map<Id, Status>, l: nat, w: nat)
  {
    && HaltsFirst(ceg, d, env, waves, first, l, w)
    && SomeEscalates(d, Reaching(ceg, d, waves, first, l, w), waves[l][w])
    && states == EscalatesTo(d, env, Reaching(ceg, d, waves, first, l, w), waves[l][w])
  }

  /** The run awaits the wave for ever, and `states` is how things are meanwhile. */
  ghost predicate SpinsIn(ceg: Ceg, d: Dispatch, env: Surroundings, waves: seq<seq<seq<Id>>>, first: map<Id, Status>,
                          states: map<Id, Status>, l: nat, w: nat)
  {
    && HaltsFirst(ceg, d, env, waves, first, l, w)
    && Spins(ceg, d, env, Reaching(ceg, d, waves, first, l, w), waves[l][w], l, w)
    && states == WaveDone(d, Reaching(ceg, d, waves, first, l, w), waves[l][w])
  }

  /** How a run from the first statuses ends, and with what statuses, in any surroundings. */
  ghost predicate EndsWith(ceg: Ceg, d: Dispatch, env: Surroundings, waves: seq<seq<seq<Id>>>, first: map<Id, Status>,
                           r: RunResult, states: map<Id, Status>)
  {
    match r
    case Completed(s) =>
      Travels(ceg, d, env, waves, first, |waves|) && s == states == LastStates(ceg, d, waves, first)
    case Escalated(s) => s == states && exists l, w :: EscalatesIn(ceg, d, env, waves, first, states, l, w)
    case ClaimFailed => false
    case NeverReturns(l, w) => SpinsIn(ceg, d, env, waves, first, states, l, w)
  }

  /** The run cuts the wait for some wave short. */
  ghost predicate ForcesSome(ceg: Ceg, d: Dispatch, env: Surroundings, waves: seq<seq<seq<Id>>>,
                             first: map<Id, Status>)
  {
    exists l :: 0 <= l < |waves| && ForcesIn(ceg, d, env, waves, first, l)
  }

  ghost predicate ForcesIn(ceg: Ceg, d: Dispatch, env: Surroundings, waves: seq<seq<seq<Id>>>, first: map<Id, Status>,
                           l: nat)
    requires l < |waves|
  {
    && Travels(ceg, d, env, waves, first, l)
    && LayerForces(ceg, d, env, waves[l], Course(ceg, d, waves, first, l), l)
  }

  // ----- Runs in different surroundings -----

  predicate Returns(r: RunResult) {
    r.Completed? || r.Escalated?
  }

  /** A run that gets past a wave saw no escalation there, in whatever surroundings. */
  lemma PassedIsQuiet(ceg: Ceg, d: Dispatch, env: Surroundings, waves: seq<seq<seq<Id>>>, first: map<Id, Status>,
                      l: nat, w: nat, m: nat, v: nat)
    requires l < |waves| && w < |waves[l]| && m <= |waves| && Travels(ceg, d, env, waves, first, m)
    requires l < m || (l == m && w < v && PassesTo(ceg, d, env, waves[l], Course(ceg, d, waves, first, l), l, v))
    ensures !HaltsAt(ceg, d, env, waves[l], Course(ceg, d, waves, first, l), l, w)
    ensures !SomeEscalates(d, Reaching(ceg, d, waves, first, l, w), waves[l][w])
  {
    assert l < m ==> LayerPasses(ceg, d, env, waves, first, l);
  }

  /** Only one wave stops a run. */
  lemma HaltsOnce(ceg: Ceg, d: Dispatch, env: Surroundings, waves: seq<seq<seq<Id>>>, first: map<Id, Status>, l: nat,
                  w: nat, m: nat, v: nat)
    requires HaltsFirst(ceg, d, env, waves, first, l, w) && HaltsFirst(ceg, d, env, waves, first, m, v)
    ensures l == m && w == v
  {
    if l < m || (l == m && w < v) {
      PassedIsQuiet(ceg, d, env, waves, first, l, w, m, v);
    } else if m < l || (m == l && v < w) {
      PassedIsQuiet(ceg, d, env, waves, first, m, v, l, w);
    }
  }

  /** The surroundings fix the end of a run. */
  lemma EndsOnce(ceg: Ceg, d: Dispatch, env: Surroundings, waves: seq<seq<seq<Id>>>, first: map<Id, Status>,
                 r: RunResult, s: map<Id, Status>, q: RunResult, t: map<Id, Status>)
    requires EndsWith(ceg, d, env, waves, first, r, s) && EndsWith(ceg, d, env, waves, first, q, t)
    ensures r == q && s == t
  {
    if !r.Completed? {
      var l: nat, w: nat := StopOf(ceg, d, env, waves, first, r, s);
      if q.Completed? {
        PassedIsQuiet(ceg, d, env, waves, first, l, w, |waves|, 0);
      } else {
        var m: nat, v: nat := StopOf(ceg, d, env, waves, first, q, t);
        HaltsOnce(ceg, d, env, waves, first, l, w, m, v);
      }
    } else if !q.Completed? {
      var m: nat, v: nat := StopOf(ceg, d, env, waves, first, q, t);
      PassedIsQuiet(ceg, d, env, waves, first, m, v, |waves|, 0);
    }
  }

  /** The wave that stops a run. */
  lemma StopOf(ceg: Ceg, d: Dispatch, env: Surroundings, waves: seq<seq<seq<Id>>>, first: map<Id, Status>,
               r: RunResult, s: map<Id, Status>) returns (l: nat, w: nat)
    requires EndsWith(ceg, d, env, waves, first, r, s) && !r.Completed?
    ensures HaltsFirst(ceg, d, env, waves, first, l, w)
    ensures r.Escalated? ==> EscalatesIn(ceg, d, env, waves, first, s, l, w)
    ensures r.NeverReturns? ==> SpinsIn(ceg, d, env, waves, first, s, l, w) && r == NeverReturns(l, w)
  {
    if r.Escalated? {
      l, w :| EscalatesIn(ceg, d, env, waves, first, s, l, w);
    } else {
      l, w := r.layer, r.wave;
    }
  }

  /** Deadlines, cancellations and times of arrival decide whether a run returns. If it does, they
      decide neither whether it completes nor with what statuses, nor in which wave it escalates. */
  lemma ReturnsAlike(ceg: Ceg, d: Dispatch, waves: seq<seq<seq<Id>>>, first: map<Id, Status>, env: Surroundings,
                     r: RunResult, s: map<Id, Status>, other: Surroundings, q: RunResult, t: map<Id, Status>)
    requires EndsWith(ceg, d, env, waves, first, r, s) && EndsWith(ceg, d, other, waves, first, q, t)
    requires Returns(r) && Returns(q)
    ensures r.Completed? <==> q.Completed?
    ensures r.Completed? ==> s == t == LastStates(ceg, d, waves, first)
    ensures forall l, w :: r.Escalated? && EscalatesIn(ceg, d, env, waves, first, s, l, w) ==>
              EscalatesIn(ceg, d, other, waves, first, t, l, w)
  {
    if r.Escalated? {
      var l, w := StopOf(ceg, d, env, waves, first, r, s);
      if q.Completed? {
        PassedIsQuiet(ceg, d, other, waves, first, l, w, |waves|, 0);
      } else {
        var m, v := StopOf(ceg, d, other, waves, first, q, t);
        SameWaveEscalates(ceg, d, waves, first, env, s, l, w, other, t, m, v);
        forall k, u | EscalatesIn(ceg, d, env, waves, first, s, k, u)
          ensures EscalatesIn(ceg, d, other, waves, first, t, k, u)
        {
          HaltsOnce(ceg, d, env, waves, first, l, w, k, u);
        }
      }
    } else if q.Escalated? {
      var m, v := StopOf(ceg, d, other, waves, first, q, t);
      PassedIsQuiet(ceg, d, env, waves, first, m, v, |waves|, 0);
    }
  }

  lemma SameWaveEscalates(ceg: Ceg, d: Dispatch, waves: seq<seq<seq<Id>>>, first: map<Id, Status>, env: Surroundings,
                          s: map<Id, Status>, l: nat, w: nat, other: Surroundings, t: map<Id, Status>, m: nat, v: nat)
    requires EscalatesIn(ceg, d, env, waves, first, s, l, w) && EscalatesIn(ceg, d, other, waves, first, t, m, v)
    ensures l == m && w == v
  {
    if l < m || (l == m && w < v) {
      PassedIsQuiet(ceg, d, other, waves, first, l, w, m, v);
    } else if m < l || (m == l && v < w) {
      PassedIsQuiet(ceg, d, env, waves, first, m, v, l, w);
    }
  }

  // ----- Which nodes a run terminates -----

  /** The node is in this wave and in no other. */
  ghost predicate OnlyIn(waves: seq<seq<seq<Id>>>, n: Id, l: nat, w: nat) {
    && l < |waves| && w < |waves[l]| && n in waves[l][w]
    && forall m, v :: 0 <= m < |waves| && 0 <= v < |waves[m]| && n in waves[m][v] ==> m == l && v == w
  }

  ghost predicate IsTerminated(states: map<Id, Status>, n: Id) {
    n in states && states[n].Terminated?
  }

  /** What was terminal still is, and the node has not been terminated. */
  ghost predicate Keeps(before: map<Id, Status>, after: map<Id, Status>, n: Id) {
    && (TerminalIn(before, n) ==> TerminalIn(after, n))
    && (IsTerminated(after, n) <==> IsTerminated(before, n))
  }

  lemma KeepsJoin(a: map<Id, Status>, b: map<Id, Status>, c: map<Id, Status>, n: Id)
    requires Keeps(a, b, n) && Keeps(b, c, n)
    ensures Keeps(a, c, n)
  {
  }

  lemma RefreshKeeps(ceg: Ceg, before: map<Id, Status>, n: Id)
    ensures Keeps(before, Refreshed(ceg, before), n)
  {
    RefreshedIsRecomputed(ceg, before);
  }

  lemma OthersKeep(ceg: Ceg, d: Dispatch, before: map<Id, Status>, wave: seq<Id>, n: Id)
    requires n !in wave || TerminalIn(before, n)
    ensures Keeps(before, NextStates(ceg, d, before, wave), n)
  {
    RefreshKeeps(ceg, before, n);
  }

  ghost predicate WavesWithout(waves: seq<seq<Id>>, n: Id, at: nat, end: nat) {
    forall v :: at <= v < end && v < |waves| ==> n !in waves[v]
  }

  /** The waves from `at` to `end` either do not hold the node or find it terminal. */
  ghost predicate Free(waves: seq<seq<Id>>, states: map<Id, Status>, n: Id, at: nat, end: nat) {
    TerminalIn(states, n) || WavesWithout(waves, n, at, end)
  }

  lemma FreeStep(waves: seq<seq<Id>>, a: map<Id, Status>, b: map<Id, Status>, n: Id, at: nat, end: nat)
    requires at < end <= |waves| && Free(waves, a, n, at, end)
    ensures Free(waves, a, n, at, end - 1)
    ensures Keeps(a, b, n) ==> n !in waves[end - 1] || TerminalIn(b, n)
  {
  }

  lemma KeepsStep(ceg: Ceg, d: Dispatch, a: map<Id, Status>, b: map<Id, Status>, wave: seq<Id>, n: Id)
    requires Keeps(a, b, n) && (n !in wave || TerminalIn(b, n))
    ensures Keeps(a, NextStates(ceg, d, b, wave), n)
  {
    OthersKeep(ceg, d, b, wave, n);
    KeepsJoin(a, b, NextStates(ceg, d, b, wave), n);
  }

  /** Waves that do not hold the node, or before which it is terminal, leave it be. */
  lemma {:induction false} WavesKeep(ceg: Ceg, d: Dispatch, waves: seq<seq<Id>>, start: map<Id, Status>, n: Id, at: nat,
                                     end: nat)
    requires at <= end <= |waves| && Free(waves, CourseIn(ceg, d, waves, start, at), n, at, end)
    ensures Keeps(CourseIn(ceg, d, waves, start, at), CourseIn(ceg, d, waves, start, end), n)
    decreases end
  {
    if at < end {
      var a, b := CourseIn(ceg, d, waves, start, at), CourseIn(ceg, d, waves, start, end - 1);
      FreeStep(waves, a, b, n, at, end);
      WavesKeep(ceg, d, waves, start, n, at, end - 1);
      KeepsStep(ceg, d, a, b, waves[end - 1], n);
      assert CourseIn(ceg, d, waves, start, end) == NextStates(ceg, d, b, waves[end - 1]);
    }
  }

  lemma LayerKeeps(ceg: Ceg, d: Dispatch, waves: seq<seq<seq<Id>>>, first: map<Id, Status>, n: Id, l: nat)
    requires l < |waves|
    requires Free(waves[l], Course(ceg, d, waves, first, l), n, 0, |waves[l]|)
    ensures Keeps(Course(ceg, d, waves, first, l), Course(ceg, d, waves, first, l + 1), n)
  {
    LayerEnds(ceg, d, waves, first, n, l, 0);
  }

  /** From the given wave to the end of its layer. */
  lemma LayerEnds(ceg: Ceg, d: Dispatch, waves: seq<seq<seq<Id>>>, first: map<Id, Status>, n: Id, l: nat, w: nat)
    requires l < |waves| && w <= |waves[l]|
    requires Free(waves[l], Reaching(ceg, d, waves, first, l, w), n, w, |waves[l]|)
    ensures Keeps(Reaching(ceg, d, waves, first, l, w), Course(ceg, d, waves, first, l + 1), n)
  {
    var start, last := Course(ceg, d, waves, first, l), |waves[l]|;
    var done := CourseIn(ceg, d, waves[l], start, last);
    WavesKeep(ceg, d, waves[l], start, n, w, last);
    RefreshKeeps(ceg, done, n);
    KeepsJoin(Reaching(ceg, d, waves, first, l, w), done, Refreshed(ceg, done), n);
  }

  ghost predicate LayersWithout(waves: seq<seq<seq<Id>>>, n: Id, l: nat, end: nat) {
    forall m :: l <= m < end && m < |waves| ==> WavesWithout(waves[m], n, 0, |waves[m]|)
  }

  lemma {:induction false} LayersKeep(ceg: Ceg, d: Dispatch, waves: seq<seq<seq<Id>>>, first: map<Id, Status>, n: Id,
                                      l: nat, end: nat)
    requires l <= end <= |waves|
    requires TerminalIn(Course(ceg, d, waves, first, l), n) || LayersWithout(waves, n, l, end)
    ensures Keeps(Course(ceg, d, waves, first, l), Course(ceg, d, waves, first, end), n)
    decreases end
  {
    if l < end {
      var a, b := Course(ceg, d, waves, first, l), Course(ceg, d, waves, first, end - 1);
      LayersKeep(ceg, d, waves, first, n, l, end - 1);
      LayerKeeps(ceg, d, waves, first, n, end - 1);
      KeepsJoin(a, b, Course(ceg, d, waves, first, end), n);
    }
  }

  lemma NotElsewhere(waves: seq<seq<seq<Id>>>, n: Id, l: nat, w: nat)
    requires OnlyIn(waves, n, l, w)
    ensures LayersWithout(waves, n, 0, l) && LayersWithout(waves, n, l + 1, |waves|)
    ensures WavesWithout(waves[l], n, 0, w) && WavesWithout(waves[l], n, w + 1, |waves[l]|)
  {
  }

  /** The node's own wave dispatched something, and with all answers in the node was TERMINATED by
      its own answer, or not terminal and so terminated when the wait was cut short. */
  ghost predicate EndsTerminated(d: Dispatch, before: map<Id, Status>, wave: seq<Id>, n: Id) {
    && SomeReady(before, wave) && n in before
    && (WaveDone(d, before, wave)[n].Terminated? || !IsTerminal(WaveDone(d, before, wave)[n]))
  }

  lemma OwnWaveTerminates(ceg: Ceg, d: Dispatch, before: map<Id, Status>, wave: seq<Id>, n: Id)
    requires n in wave && !IsTerminated(before, n)
    ensures IsTerminated(NextStates(ceg, d, before, wave), n) <==> EndsTerminated(d, before, wave, n)
  {
    RefreshKeeps(ceg, before, n);
  }

  /** What precedes the node's own wave does not terminate it. */
  lemma NotYetTerminated(ceg: Ceg, d: Dispatch, waves: seq<seq<seq<Id>>>, first: map<Id, Status>, n: Id, l: nat,
                         w: nat)
    requires OnlyIn(waves, n, l, w)
    ensures Keeps(first, Reaching(ceg, d, waves, first, l, w), n)
  {
    var start := Course(ceg, d, waves, first, l);
    NotElsewhere(waves, n, l, w);
    LayersKeep(ceg, d, waves, first, n, 0, l);
    WavesKeep(ceg, d, waves[l], start, n, 0, w);
    KeepsJoin(first, start, Reaching(ceg, d, waves, first, l, w), n);
  }

  /** Nor does what follows it. */
  lemma NotTerminatedLater(ceg: Ceg, d: Dispatch, waves: seq<seq<seq<Id>>>, first: map<Id, Status>, n: Id, l: nat,
                           w: nat)
    requires OnlyIn(waves, n, l, w)
    ensures Keeps(Reaching(ceg, d, waves, first, l, w + 1), LastStates(ceg, d, waves, first), n)
  {
    var after, next := Reaching(ceg, d, waves, first, l, w + 1), Course(ceg, d, waves, first, l + 1);
    var last := Course(ceg, d, waves, first, |waves|);
    NotElsewhere(waves, n, l, w);
    LayerEnds(ceg, d, waves, first, n, l, w + 1);
    LayersKeep(ceg, d, waves, first, n, l + 1, |waves|);
    RefreshKeeps(ceg, last, n);
    KeepsJoin(after, next, last, n);
    KeepsJoin(after, last, Refreshed(ceg, last), n);
  }

  /** On the course of every run, with whatever deadlines, a node is TERMINATED in the end exactly if
      its own wave has done so. */
  lemma TerminatedIff(ceg: Ceg, d: Dispatch, waves: seq<seq<seq<Id>>>, first: map<Id, Status>, n: Id, l: nat, w: nat)
    requires OnlyIn(waves, n, l, w) && !IsTerminated(first, n)
    ensures IsTerminated(LastStates(ceg, d, waves, first), n)
            <==> EndsTerminated(d, Reaching(ceg, d, waves, first, l, w), waves[l][w], n)
  {
    NotYetTerminated(ceg, d, waves, first, n, l, w);
    OwnWaveTerminates(ceg, d, Reaching(ceg, d, waves, first, l, w), waves[l][w], n);
    NotTerminatedLater(ceg, d, waves, first, n, l, w);
  }

  /** A completed run has terminated a node that did not answer TERMINATED only if its wave had a
      deadline or was cancelled, and was not terminal with all answers in. */
  lemma OnlyLimitedWavesForce(ceg: Ceg, d: Dispatch, env: Surroundings, waves: seq<seq<seq<Id>>>,
                              first: map<Id, Status>, states: map<Id, Status>, n: Id, l: nat, w: nat)
    requires EndsWith(ceg, d, env, waves, first, Completed(states), states)
    requires OnlyIn(waves, n, l, w) && !IsTerminated(first, n) && IsTerminated(states, n)
    ensures var before := Reaching(ceg, d, waves, first, l, w);
            || (ReadyIn(before, n) && Landed(d(n)).Terminated?)
            || Forces(ceg, d, env, before, waves[l][w], l, w)
  {
    TerminatedIff(ceg, d, waves, first, n, l, w);
    PassedIsQuiet(ceg, d, env, waves, first, l, w, |waves|, 0);
    NotYetTerminated(ceg, d, waves, first, n, l, w);
  }

  // ----- Runs in which nothing ever happens -----

  /** Nothing is ready, nothing runs, and no blocked node is due for a decision. */
  ghost predicate Quiet(ceg: Ceg, states: map<Id, Status>) {
    forall n :: n in states ==>
      IsTerminal(states[n]) ||
      (states[n].Blocked? && (n in ceg.nodeMap ==> !Due(ceg.nodeMap[n].activation, states)))
  }

  lemma {:induction false} QuietSettles(ceg: Ceg, before: map<Id, Status>, ids: seq<Id>)
    requires Quiet(ceg, before) && forall n :: n in ids ==> n in before && before[n].Blocked?
    ensures Settle(ceg, before, ids) == before
  {
    if ids != [] {
      QuietSettles(ceg, before, ids[..|ids| - 1]);
      assert ids[|ids| - 1] in ids;
    }
  }

  lemma QuietNext(ceg: Ceg, d: Dispatch, before: map<Id, Status>, wave: seq<Id>)
    requires Quiet(ceg, before)
    ensures Refreshed(ceg, before) == before && !SomeReady(before, wave)
    ensures NextStates(ceg, d, before, wave) == before
  {
    var ids := OneListing(before);
    QuietSettles(ceg, before, ids);
  }

  lemma {:induction false} QuietWaves(ceg: Ceg, d: Dispatch, waves: seq<seq<Id>>, start: map<Id, Status>, at: nat)
    requires Quiet(ceg, start) && at <= |waves|
    ensures CourseIn(ceg, d, waves, start, at) == start
  {
    if at > 0 {
      QuietWaves(ceg, d, waves, start, at - 1);
      QuietNext(ceg, d, start, waves[at - 1]);
    }
  }

  lemma {:induction false} QuietLayers(ceg: Ceg, d: Dispatch, waves: seq<seq<seq<Id>>>, first: map<Id, Status>,
                                       layer: nat)
    requires Quiet(ceg, first) && layer <= |waves|
    ensures Course(ceg, d, waves, first, layer) == first
  {
    if layer > 0 {
      QuietLayers(ceg, d, waves, first, layer - 1);
      QuietWaves(ceg, d, waves[layer - 1], first, |waves[layer - 1]|);
      QuietNext(ceg, d, first, []);
    }
  }

  /** A run from a quiet start completes and changes nothing. */
  lemma QuietEnds(ceg: Ceg, d: Dispatch, env: Surroundings, waves: seq<seq<seq<Id>>>, first: map<Id, Status>,
                  r: RunResult, states: map<Id, Status>)
    requires Quiet(ceg, first) && EndsWith(ceg, d, env, waves, first, r, states)
    ensures r.Completed? && states == first
  {
    if r.Completed? {
      QuietLayers(ceg, d, waves, first, |waves|);
      QuietNext(ceg, d, first, []);
    } else {
      var l, w := StopOf(ceg, d, env, waves, first, r, states);
      QuietLayers(ceg, d, waves, first, l);
      QuietWaves(ceg, d, waves[l], first, w);
      QuietNext(ceg, d, first, waves[l][w]);
    }
  }
}
