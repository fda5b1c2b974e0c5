/** Running a plan again: what another graph of the same plan, and other surroundings, can change. */
module Replaying {
  import opened Ids
  import opened Plans
  import opened Wiring
  import opened Builder
  import opened Statuses
  import opened Activating
  import opened Runs
  import opened Courses
  import opened CalmRuns
  import opened Scheduling
  import opened Kernel
  import Waves

  // ----- Another graph of the same plan -----

  ghost predicate SameRules(a: Ceg, b: Ceg) {
    && a.nodeMap.Keys == b.nodeMap.Keys && a.inDegree == b.inDegree
    && (forall m :: m in a.nodeMap ==> a.nodeMap[m].activation == b.nodeMap[m].activation)
  }

  lemma SameActivationRules(rir: Rir, a: Ceg, b: Ceg)
    requires Represents(rir, a) && Represents(rir, b)
    ensures SameRules(a, b)
  {
    assert a.inDegree.Keys == b.inDegree.Keys;
  }

  lemma SameWaves(rir: Rir, a: Ceg, b: Ceg, wavesA: seq<seq<seq<Id>>>, wavesB: seq<seq<seq<Id>>>)
    requires Represents(rir, a) && Represents(rir, b)
    requires AreAllWaves(rir, a, wavesA) && AreAllWaves(rir, b, wavesB)
    ensures wavesA == wavesB
  {
    LayersAreDetermined(rir, a, b);
    forall l | 0 <= l < |wavesA|
      ensures wavesA[l] == wavesB[l]
    {
      Waves.WavesAreDetermined(rir, a.layers[l], b.layers[l], wavesA[l], wavesB[l]);
    }
  }

  lemma SameFirst(a: Ceg, b: Ceg)
    requires SameRules(a, b)
    ensures FirstStates(a) == FirstStates(b)
  {
  }

  lemma {:induction false} SameSettling(a: Ceg, b: Ceg, before: map<Id, Status>, ids: seq<Id>)
    requires SameRules(a, b)
    ensures Settle(a, before, ids) == Settle(b, before, ids)
  {
    if ids != [] {
      SameSettling(a, b, before, ids[..|ids| - 1]);
    }
  }

  lemma SameRefresh(a: Ceg, b: Ceg, before: map<Id, Status>)
    requires SameRules(a, b)
    ensures Refreshed(a, before) == Refreshed(b, before)
  {
    var ids := OneListing(before);
    SameSettling(a, b, before, ids);
  }

  lemma SameNext(a: Ceg, b: Ceg, d: Dispatch, before: map<Id, Status>, wave: seq<Id>)
    requires SameRules(a, b)
    ensures NextStates(a, d, before, wave) == NextStates(b, d, before, wave)
  {
    SameRefresh(a, b, before);
  }

  lemma {:induction false} SameCourseIn(a: Ceg, b: Ceg, d: Dispatch, waves: seq<seq<Id>>, start: map<Id, Status>,
                                        at: nat)
    requires SameRules(a, b) && at <= |waves|
    ensures CourseIn(a, d, waves, start, at) == CourseIn(b, d, waves, start, at)
  {
    if at > 0 {
      SameCourseIn(a, b, d, waves, start, at - 1);
      SameNext(a, b, d, CourseIn(a, d, waves, start, at - 1), waves[at - 1]);
    }
  }

  lemma {:induction false} SameCourse(a: Ceg, b: Ceg, d: Dispatch, waves: seq<seq<seq<Id>>>, first: map<Id, Status>,
                                      layer: nat)
    requires SameRules(a, b) && layer <= |waves|
    ensures Course(a, d, waves, first, layer) == Course(b, d, waves, first, layer)
  {
    if layer > 0 {
      SameCourse(a, b, d, waves, first, layer - 1);
      var start := Course(a, d, waves, first, layer - 1);
      SameCourseIn(a, b, d, waves[layer - 1], start, |waves[layer - 1]|);
      SameRefresh(a, b, CourseIn(a, d, waves[layer - 1], start, |waves[layer - 1]|));
    }
  }

  lemma SameHalts(a: Ceg, b: Ceg, d: Dispatch, env: Surroundings, waves: seq<seq<Id>>, start: map<Id, Status>,
                  layer: nat, w: nat)
    requires SameRules(a, b) && w < |waves|
    ensures HaltsAt(a, d, env, waves, start, layer, w) == HaltsAt(b, d, env, waves, start, layer, w)
  {
    SameCourseIn(a, b, d, waves, start, w);
    SameSpins(a, b, d, env, CourseIn(a, d, waves, start, w), waves[w], layer, w);
  }

  lemma SameSpins(a: Ceg, b: Ceg, d: Dispatch, env: Surroundings, before: map<Id, Status>, wave: seq<Id>, layer: nat,
                  w: nat)
    requires SameRules(a, b)
    ensures Spins(a, d, env, before, wave, layer, w) == Spins(b, d, env, before, wave, layer, w)
  {
    assert forall n :: n in a.nodeMap <==> n in b.nodeMap;
  }

  lemma SamePasses(a: Ceg, b: Ceg, d: Dispatch, env: Surroundings, waves: seq<seq<Id>>, start: map<Id, Status>,
                   layer: nat, count: nat)
    requires SameRules(a, b) && PassesTo(a, d, env, waves, start, layer, count)
    ensures PassesTo(b, d, env, waves, start, layer, count)
  {
    forall w | 0 <= w < count && w < |waves|
      ensures !HaltsAt(b, d, env, waves, start, layer, w)
    {
      SameHalts(a, b, d, env, waves, start, layer, w);
    }
  }

  lemma SameTravels(a: Ceg, b: Ceg, d: Dispatch, env: Surroundings, waves: seq<seq<seq<Id>>>, first: map<Id, Status>,
                    layer: nat)
    requires SameRules(a, b) && Travels(a, d, env, waves, first, layer)
    ensures Travels(b, d, env, waves, first, layer)
  {
    forall l | 0 <= l < layer && l < |waves|
      ensures LayerPasses(b, d, env, waves, first, l)
    {
      assert LayerPasses(a, d, env, waves, first, l);
      SameCourse(a, b, d, waves, first, l);
      SamePasses(a, b, d, env, waves[l], Course(a, d, waves, first, l), l, |waves[l]|);
    }
  }

  lemma SameHalt(a: Ceg, b: Ceg, d: Dispatch, env: Surroundings, waves: seq<seq<seq<Id>>>, first: map<Id, Status>,
                 l: nat, w: nat)
    requires SameRules(a, b) && HaltsFirst(a, d, env, waves, first, l, w)
    ensures HaltsFirst(b, d, env, waves, first, l, w)
    ensures Reaching(a, d, waves, first, l, w) == Reaching(b, d, waves, first, l, w)
    ensures Spins(a, d, env, Reaching(a, d, waves, first, l, w), waves[l][w], l, w)
            == Spins(b, d, env, Reaching(b, d, waves, first, l, w), waves[l][w], l, w)
  {
    var start := Course(a, d, waves, first, l);
    SameTravels(a, b, d, env, waves, first, l);
    SameCourse(a, b, d, waves, first, l);
    SamePasses(a, b, d, env, waves[l], start, l, w);
    SameHalts(a, b, d, env, waves[l], start, l, w);
    SameCourseIn(a, b, d, waves[l], start, w);
    SameSpins(a, b, d, env, CourseIn(a, d, waves[l], start, w), waves[l][w], l, w);
  }

  /** How an execution ends, and with what statuses, does not depend on the graph built from the plan. */
  lemma EndIsBuildIndependent(a: Ceg, b: Ceg, d: Dispatch, env: Surroundings, waves: seq<seq<seq<Id>>>, r: RunResult,
                              states: map<Id, Status>)
    requires SameRules(a, b) && EndsWith(a, d, env, waves, FirstStates(a), r, states)
    ensures EndsWith(b, d, env, waves, FirstStates(b), r, states)
  {
    var first := FirstStates(a);
    SameFirst(a, b);
    if r.Completed? {
      var last := Course(a, d, waves, first, |waves|);
      SameTravels(a, b, d, env, waves, first, |waves|);
      SameCourse(a, b, d, waves, first, |waves|);
      SameRefresh(a, b, last);
    } else {
      var l, w := StopOf(a, d, env, waves, first, r, states);
      SameHalt(a, b, d, env, waves, first, l, w);
      assert r.Escalated? ==> EscalatesIn(b, d, env, waves, first, states, l, w);
    }
  }

  // ----- Other surroundings -----

  /** The run returns and leaves these statuses. */
  ghost predicate Leaves(ceg: Ceg, d: Dispatch, waves: seq<seq<seq<Id>>>, env: Surroundings, states: map<Id, Status>) {
    exists r :: EndsWith(ceg, d, env, waves, FirstStates(ceg), r, states) && Returns(r)
  }

  /** Runs in the two surroundings leave the same statuses, if both return. */
  ghost predicate EndsAlike(ceg: Ceg, d: Dispatch, waves: seq<seq<seq<Id>>>, env: Surroundings, other: Surroundings) {
    forall s, t :: Leaves(ceg, d, waves, env, s) && Leaves(ceg, d, waves, other, t) ==> s == t
  }

  /** Only times of arrival decide which answers are taken. */
  lemma ArrivalsDecide(d: Dispatch, env: Surroundings, other: Surroundings, all: set<Id>)
    requires env.arrival == other.arrival
    ensures Heard(d, env, all) == Heard(d, other, all)
  {
    forall n, e
      ensures Earlier(env, e, n) == Earlier(other, e, n)
    {
    }
  }

  /** Times of arrival do not decide which wave stops a run. */
  lemma ArrivalsNeverHalt(ceg: Ceg, d: Dispatch, env: Surroundings, other: Surroundings, waves: seq<seq<seq<Id>>>,
                          first: map<Id, Status>, l: nat, w: nat)
    requires env.timeLeft == other.timeLeft && env.cancelled == other.cancelled
    requires HaltsFirst(ceg, d, env, waves, first, l, w)
    ensures HaltsFirst(ceg, d, other, waves, first, l, w)
  {
    forall m, v | 0 <= m < |waves| && 0 <= v < |waves[m]|
      ensures HaltsAt(ceg, d, env, waves[m], Course(ceg, d, waves, first, m), m, v)
              == HaltsAt(ceg, d, other, waves[m], Course(ceg, d, waves, first, m), m, v)
    {
    }
    forall m | 0 <= m < l
      ensures LayerPasses(ceg, d, other, waves, first, m)
    {
      assert LayerPasses(ceg, d, env, waves, first, m);
    }
  }

  /** With the given times of arrival the run escalates in the same wave and leaves what they decide. */
  lemma EscalatesAnyway(ceg: Ceg, d: Dispatch, env: Surroundings, a: Surroundings, waves: seq<seq<seq<Id>>>,
                        first: map<Id, Status>, s: map<Id, Status>, l: nat, w: nat)
    requires EscalatesIn(ceg, d, env, waves, first, s, l, w)
    ensures var t := EscalatesTo(d, a, Reaching(ceg, d, waves, first, l, w), waves[l][w]);
            EndsWith(ceg, d, env.(arrival := a.arrival), waves, first, Escalated(t), t)
  {
    var other, before := env.(arrival := a.arrival), Reaching(ceg, d, waves, first, l, w);
    ArrivalsNeverHalt(ceg, d, env, other, waves, first, l, w);
    ArrivalsDecide(d, a, other, ReadyOf(before, waves[l][w]));
    assert EscalatesIn(ceg, d, other, waves, first, EscalatesTo(d, a, before, waves[l][w]), l, w);
  }

  lemma TellingArrivals(d: Dispatch, before: map<Id, Status>, wave: seq<Id>) returns (x: Surroundings, y: Surroundings)
    requires SomeEscalates(d, before, wave) && !OthersTerminate(d, before, wave)
    ensures EscalatesTo(d, x, before, wave) != EscalatesTo(d, y, before, wave)
  {
    EscalationIsFixedIff(d, before, wave);
    x, y :| EscalatesTo(d, x, before, wave) != EscalatesTo(d, y, before, wave);
  }

  /** Where an answer of the wave overrides others, some times of arrival tell two runs apart. */
  lemma ArrivalsMatter(ceg: Ceg, d: Dispatch, env: Surroundings, waves: seq<seq<seq<Id>>>, s: map<Id, Status>, l: nat,
                       w: nat)
    returns (a: Surroundings, b: Surroundings)
    requires EscalatesIn(ceg, d, env, waves, FirstStates(ceg), s, l, w)
    requires !OthersTerminate(d, Reaching(ceg, d, waves, FirstStates(ceg), l, w), waves[l][w])
    ensures a == env.(arrival := a.arrival) && b == env.(arrival := b.arrival)
    ensures !EndsAlike(ceg, d, waves, a, b)
  {
    var first := FirstStates(ceg);
    var before := Reaching(ceg, d, waves, first, l, w);
    var x, y := TellingArrivals(d, before, waves[l][w]);
    a, b := env.(arrival := x.arrival), env.(arrival := y.arrival);
    var t, u := EscalatesTo(d, x, before, waves[l][w]), EscalatesTo(d, y, before, waves[l][w]);
    EscalatesAnyway(ceg, d, env, x, waves, first, s, l, w);
    EscalatesAnyway(ceg, d, env, y, waves, first, s, l, w);
    assert Leaves(ceg, d, waves, a, t) && Leaves(ceg, d, waves, b, u);
  }

  /** Runs that return end alike unless they escalate in a wave whose other answers matter. */
  lemma FixedEndsAlike(ceg: Ceg, d: Dispatch, waves: seq<seq<seq<Id>>>, env: Surroundings, s: map<Id, Status>, l: nat,
                       w: nat, a: Surroundings, b: Surroundings)
    requires EscalatesIn(ceg, d, env, waves, FirstStates(ceg), s, l, w)
    requires OthersTerminate(d, Reaching(ceg, d, waves, FirstStates(ceg), l, w), waves[l][w])
    ensures EndsAlike(ceg, d, waves, a, b)
  {
    var first := FirstStates(ceg);
    var before := Reaching(ceg, d, waves, first, l, w);
    EscalationIsFixedIff(d, before, waves[l][w]);
    forall x, y | Leaves(ceg, d, waves, a, x) && Leaves(ceg, d, waves, b, y)
      ensures x == y
    {
      var r :| EndsWith(ceg, d, a, waves, first, r, x) && Returns(r);
      var q :| EndsWith(ceg, d, b, waves, first, q, y) && Returns(q);
      ReturnsAlike(ceg, d, waves, first, env, Escalated(s), s, a, r, x);
      ReturnsAlike(ceg, d, waves, first, env, Escalated(s), s, b, q, y);
    }
  }

  /** Where a run completes, whatever deadlines, cancellations and times of arrival a replay meets, it
      leaves the same statuses if it returns. */
  lemma CompletedReplaysAgree(ceg: Ceg, d: Dispatch, env: Surroundings, waves: seq<seq<seq<Id>>>, s: map<Id, Status>,
                              a: Surroundings, b: Surroundings)
    requires EndsWith(ceg, d, env, waves, FirstStates(ceg), Completed(s), s)
    ensures EndsAlike(ceg, d, waves, a, b)
  {
    var first := FirstStates(ceg);
    forall x, y | Leaves(ceg, d, waves, a, x) && Leaves(ceg, d, waves, b, y)
      ensures x == y
    {
      var r :| EndsWith(ceg, d, a, waves, first, r, x) && Returns(r);
      var q :| EndsWith(ceg, d, b, waves, first, q, y) && Returns(q);
      ReturnsAlike(ceg, d, waves, first, env, Completed(s), s, a, r, x);
      ReturnsAlike(ceg, d, waves, first, env, Completed(s), s, b, q, y);
    }
  }

  /** Where a run escalates, whatever deadlines, cancellations and times of arrival a replay meets, it
      leaves the same statuses if it returns, exactly if all other accepted answers of the wave in
      which the run escalates are TERMINATED. */
  lemma ReplaysAgreeIff(ceg: Ceg, d: Dispatch, env: Surroundings, waves: seq<seq<seq<Id>>>, s: map<Id, Status>, l: nat,
                        w: nat)
    requires EscalatesIn(ceg, d, env, waves, FirstStates(ceg), s, l, w)
    ensures (forall a, b :: EndsAlike(ceg, d, waves, a, b))
            <==> OthersTerminate(d, Reaching(ceg, d, waves, FirstStates(ceg), l, w), waves[l][w])
  {
    if OthersTerminate(d, Reaching(ceg, d, waves, FirstStates(ceg), l, w), waves[l][w]) {
      forall a, b
        ensures EndsAlike(ceg, d, waves, a, b)
      {
        FixedEndsAlike(ceg, d, waves, env, s, l, w, a, b);
      }
    } else {
      var a, b := ArrivalsMatter(ceg, d, env, waves, s, l, w);
    }
  }

  lemma ArrivalsKeepCalm(rir: Rir, d: Dispatch, env: Surroundings, other: Surroundings)
    requires Calm(rir, d, env) && other == env.(arrival := other.arrival)
    ensures Calm(rir, d, other)
  {
  }

  /** A calm run of a plan that escalates does so in the first wave that escalates. */
  lemma CalmEscalates(rir: Rir, ceg: Ceg, d: Dispatch, env: Surroundings, waves: seq<seq<seq<Id>>>, l: nat, w: nat)
    returns (s: map<Id, Status>)
    requires Acceptable(rir) && Represents(rir, ceg) && AreAllWaves(rir, ceg, waves) && Calm(rir, d, env)
    requires Backward(ceg) && EscalatesFirst(ceg, d, waves, l, w)
    ensures EscalatesIn(ceg, d, env, waves, FirstStates(ceg), s, l, w)
    ensures OthersTerminate(d, Reaching(ceg, d, waves, FirstStates(ceg), l, w), waves[l][w])
            <==> OnlyTerminates(ceg, d, waves[l][w])
  {
    var before := Reaching(ceg, d, waves, FirstStates(ceg), l, w);
    CalmIsBenign(rir, ceg, d, waves, env);
    FirstIsHalt(ceg, d, env, waves, l, w);
    PoisedTerminates(ceg, d, before, waves[l][w]);
    PoisedEscalates(ceg, d, before, waves[l][w]);
    s := EscalatesTo(d, env, before, waves[l][w]);
  }

  /** The same over calm executions, with the exception told by the plan: the replay of an escalating
      plan can differ exactly when some unit dispatched in the first wave that escalates has an
      accepted answer other than TERMINATED and does not itself escalate. */
  lemma CalmReplaysAgreeIff(rir: Rir, ceg: Ceg, d: Dispatch, env: Surroundings, waves: seq<seq<seq<Id>>>, l: nat,
                            w: nat)
    requires Acceptable(rir) && Represents(rir, ceg) && AreAllWaves(rir, ceg, waves) && Calm(rir, d, env)
    requires Backward(ceg) && EscalatesFirst(ceg, d, waves, l, w)
    ensures (forall a, b :: Calm(rir, d, a) && Calm(rir, d, b) ==> EndsAlike(ceg, d, waves, a, b))
            <==> OnlyTerminates(ceg, d, waves[l][w])
  {
    var s := CalmEscalates(rir, ceg, d, env, waves, l, w);
    ReplaysAgreeIff(ceg, d, env, waves, s, l, w);
    if !OnlyTerminates(ceg, d, waves[l][w]) {
      var a, b := ArrivalsMatter(ceg, d, env, waves, s, l, w);
      ArrivalsKeepCalm(rir, d, env, a);
      ArrivalsKeepCalm(rir, d, env, b);
    }
  }
}
