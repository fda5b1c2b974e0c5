/** What the action bus may do over any number of publish calls: which actions a batch keeps,
    which calls its delivery makes, and what all batches together guarantee. */
module Deliveries {
  import opened Ids

  datatype Action = Action(id: Id, issuedAt: int, ttl: int, payload: Id)

  /** One call of the endpoint and whether it succeeded. */
  datatype Call = Call(action: Action, ok: bool)

  predicate IsExpired(a: Action, now: int) {
    a.ttl > 0 && now > a.issuedAt + a.ttl
  }

  function IdsOf(actions: seq<Action>): (ids: set<Id>) {
    set a | a in actions :: a.id
  }

  predicate DistinctIds(actions: seq<Action>) {
    forall i, j :: 0 <= i < j < |actions| ==> actions[i].id != actions[j].id
  }

  predicate InOrder(actions: seq<Action>) {
    forall i, j :: 0 <= i < j < |actions| ==> actions[i].issuedAt <= actions[j].issuedAt
  }

  // ----- Filtering -----

  predicate Survives(a: Action, delivered: set<Id>, now: int) {
    !IsExpired(a, now) && a.id !in delivered
  }

  /** The first live action of every id that was not delivered before. */
  function Survivors(actions: seq<Action>, delivered: set<Id>, now: int): seq<Action> {
    if actions == [] then []
    else
      var before, a := Survivors(actions[..|actions| - 1], delivered, now), actions[|actions| - 1];
      if Survives(a, delivered, now) && a.id !in IdsOf(before) then before + [a] else before
  }

  /** Exactly the ids with a live, undelivered action survive, once each. */
  lemma {:induction false} SurvivorsAre(actions: seq<Action>, delivered: set<Id>, now: int)
    ensures DistinctIds(Survivors(actions, delivered, now))
    ensures forall a :: a in Survivors(actions, delivered, now) ==> a in actions && Survives(a, delivered, now)
    ensures forall a :: a in actions && Survives(a, delivered, now) ==>
            a.id in IdsOf(Survivors(actions, delivered, now))
  {
    if actions != [] {
      var shorter, a := actions[..|actions| - 1], actions[|actions| - 1];
      SurvivorsAre(shorter, delivered, now);
      assert actions == shorter + [a];
      IdsGrow(Survivors(shorter, delivered, now), a);
    }
  }

  /** Which of several actions with one id survives: the first that is live. */
  ghost predicate IsFirstLive(actions: seq<Action>, delivered: set<Id>, now: int, i: nat) {
    i < |actions| && Survives(actions[i], delivered, now) &&
    forall j :: 0 <= j < i && actions[j].id == actions[i].id ==> !Survives(actions[j], delivered, now)
  }

  ghost predicate HasFirstLive(actions: seq<Action>, delivered: set<Id>, now: int, a: Action) {
    exists i: nat :: IsFirstLive(actions, delivered, now, i) && actions[i] == a
  }

  lemma FirstLiveStays(actions: seq<Action>, delivered: set<Id>, now: int, last: nat, i: nat)
    requires i < last <= |actions|
    ensures IsFirstLive(actions, delivered, now, i) <==> IsFirstLive(actions[..last], delivered, now, i)
  {
  }

  lemma FirstLiveLasts(actions: seq<Action>, delivered: set<Id>, now: int, a: Action)
    requires actions != [] && HasFirstLive(actions[..|actions| - 1], delivered, now, a)
    ensures HasFirstLive(actions, delivered, now, a)
  {
    var last := |actions| - 1;
    var i: nat :| IsFirstLive(actions[..last], delivered, now, i) && actions[..last][i] == a;
    FirstLiveStays(actions, delivered, now, last, i);
  }

  lemma FirstLiveWas(actions: seq<Action>, delivered: set<Id>, now: int, a: Action)
    requires actions != [] && HasFirstLive(actions, delivered, now, a)
    ensures var last := |actions| - 1;
            || HasFirstLive(actions[..last], delivered, now, a)
            || (IsFirstLive(actions, delivered, now, last) && actions[last] == a)
  {
    var last := |actions| - 1;
    var i: nat :| IsFirstLive(actions, delivered, now, i) && actions[i] == a;
    if i < last {
      FirstLiveStays(actions, delivered, now, last, i);
      assert actions[..last][i] == a;
    }
  }

  /** Exactly the first live action of each id survives. */
  lemma {:induction false} FirstSurvives(actions: seq<Action>, delivered: set<Id>, now: int, a: Action)
    ensures a in Survivors(actions, delivered, now) <==> HasFirstLive(actions, delivered, now, a)
  {
    if actions != [] {
      FirstSurvives(actions[..|actions| - 1], delivered, now, a);
      LastIsFirstLive(actions, delivered, now);
      if HasFirstLive(actions, delivered, now, a) {
        FirstLiveWas(actions, delivered, now, a);
      }
      if HasFirstLive(actions[..|actions| - 1], delivered, now, a) {
        FirstLiveLasts(actions, delivered, now, a);
      }
    }
  }

  lemma LastIsFirstLive(actions: seq<Action>, delivered: set<Id>, now: int)
    requires actions != []
    ensures var last := |actions| - 1;
            IsFirstLive(actions, delivered, now, last) <==>
              && Survives(actions[last], delivered, now)
              && actions[last].id !in IdsOf(Survivors(actions[..last], delivered, now))
  {
    var last := |actions| - 1;
    var shorter := actions[..last];
    SurvivorsAre(shorter, delivered, now);
    if j :| 0 <= j < last && actions[j].id == actions[last].id && Survives(actions[j], delivered, now) {
      assert shorter[j] in shorter;
    }
    if b :| b in Survivors(shorter, delivered, now) && b.id == actions[last].id {
      var j :| 0 <= j < last && shorter[j] == b;
      assert actions[j] == b;
    }
  }

  lemma IdsGrow(actions: seq<Action>, a: Action)
    ensures IdsOf(actions + [a]) == IdsOf(actions) + {a.id}
  {
  }

  // ----- Delivering one batch -----

  /** What a publish call meets: `done(i)(n)` tells whether the context is done before attempt `n` of
      the `i`-th action, `answers(i)(n)` whether the endpoint accepts that attempt. */
  datatype Contact = Contact(done: nat -> nat -> bool, answers: nat -> nat -> bool)

  /** Nobody cancels the attempts. */
  ghost predicate Patient(c: Contact) {
    forall i, n :: !c.done(i)(n)
  }

  /** Calls for one action that all failed, except perhaps the last. */
  predicate AreCalls(a: Action, calls: seq<Call>, ok: bool) {
    (ok ==> calls != []) && forall i :: 0 <= i < |calls| ==> calls[i] == Call(a, ok && i == |calls| - 1)
  }

  /** The calls for one action: as the endpoint answers, failures, then possibly one success, at most
      `limit` in all. No call follows a cancellation, and only the limit, a success or a cancellation
      after the first call ends the calls. */
  ghost predicate AreAttempts(a: Action, calls: seq<Call>, ok: bool, limit: nat, done: nat -> bool,
                              answers: nat -> bool)
  {
    && AreCalls(a, calls, ok)
    && |calls| <= limit
    && (forall n :: 0 <= n < |calls| ==> calls[n].ok == answers(n))
    && (forall n :: 0 < n < |calls| ==> !done(n))
    && (ok || |calls| == limit || (calls != [] && done(|calls|)))
  }

  /** The calls for the actions of a batch, one action after the other, `count` of them delivered. */
  ghost predicate IsDelivery(valid: seq<Action>, limit: nat, c: Contact, calls: seq<Call>, count: nat)
    decreases |valid|, 1
  {
    if valid == [] then calls == [] && count == 0
    else exists k: nat, ok :: DeliversLast(valid, limit, c, calls, count, k, ok)
  }

  ghost predicate DeliversLast(valid: seq<Action>, limit: nat, c: Contact, calls: seq<Call>, count: nat, k: nat,
                               ok: bool)
    requires valid != []
    decreases |valid|, 0
  {
    && k <= |calls| && (ok ==> count > 0)
    && IsDelivery(valid[..|valid| - 1], limit, c, calls[..k], if ok then count - 1 else count)
    && AreAttempts(valid[|valid| - 1], calls[k..], ok, limit, c.done(|valid| - 1), c.answers(|valid| - 1))
  }

  lemma DeliveryGrows(valid: seq<Action>, limit: nat, c: Contact, calls: seq<Call>, count: nat, a: Action,
                      more: seq<Call>, ok: bool)
    requires IsDelivery(valid, limit, c, calls, count)
    requires AreAttempts(a, more, ok, limit, c.done(|valid|), c.answers(|valid|))
    ensures IsDelivery(valid + [a], limit, c, calls + more, if ok then count + 1 else count)
  {
    var longer := valid + [a];
    assert longer[..|longer| - 1] == valid;
    assert (calls + more)[..|calls|] == calls && (calls + more)[|calls|..] == more;
    assert DeliversLast(longer, limit, c, calls + more, if ok then count + 1 else count, |calls|, ok);
  }

  /** The actions that the calls delivered, in order. */
  function Delivered(calls: seq<Call>): seq<Action> {
    if calls == [] then []
    else Delivered(calls[..|calls| - 1]) + if calls[|calls| - 1].ok then [calls[|calls| - 1].action] else []
  }

  lemma {:induction false} DeliveredJoins(a: seq<Call>, b: seq<Call>)
    ensures Delivered(a + b) == Delivered(a) + Delivered(b)
  {
    if b == [] {
      assert a + b == a;
    } else {
      assert (a + b)[..|a + b| - 1] == a + b[..|b| - 1];
      DeliveredJoins(a, b[..|b| - 1]);
    }
  }

  lemma {:induction false} AttemptsDeliver(a: Action, calls: seq<Call>, ok: bool)
    requires AreCalls(a, calls, ok)
    ensures Delivered(calls) == if ok then [a] else []
  {
    if calls != [] {
      AttemptsDeliver(a, calls[..|calls| - 1], false);
    }
  }

  function CallsFor(calls: seq<Call>, id: Id): nat {
    if calls == [] then 0
    else CallsFor(calls[..|calls| - 1], id) + if calls[|calls| - 1].action.id == id then 1 else 0
  }

  lemma {:induction false} CallsJoin(a: seq<Call>, b: seq<Call>, id: Id)
    ensures CallsFor(a + b, id) == CallsFor(a, id) + CallsFor(b, id)
  {
    if b == [] {
      assert a + b == a;
    } else {
      assert (a + b)[..|a + b| - 1] == a + b[..|b| - 1];
      CallsJoin(a, b[..|b| - 1], id);
    }
  }

  lemma {:induction false} AttemptsCall(a: Action, calls: seq<Call>, id: Id)
    requires forall i :: 0 <= i < |calls| ==> calls[i].action == a
    ensures CallsFor(calls, id) == if id == a.id then |calls| else 0
  {
    if calls != [] {
      AttemptsCall(a, calls[..|calls| - 1], id);
    }
  }

  /** What two parts of a list of calls deliver and count is what they do together. */
  lemma CallsSplit(calls: seq<Call>, k: nat, id: Id)
    requires k <= |calls|
    ensures Delivered(calls) == Delivered(calls[..k]) + Delivered(calls[k..])
    ensures CallsFor(calls, id) == CallsFor(calls[..k], id) + CallsFor(calls[k..], id)
  {
    assert calls == calls[..k] + calls[k..];
    DeliveredJoins(calls[..k], calls[k..]);
    CallsJoin(calls[..k], calls[k..], id);
  }

  /** A delivery ends with the calls for its last action. */
  lemma LastAttempts(valid: seq<Action>, limit: nat, c: Contact, calls: seq<Call>, count: nat, id: Id)
    returns (k: nat, ok: bool)
    requires IsDelivery(valid, limit, c, calls, count) && valid != []
    ensures DeliversLast(valid, limit, c, calls, count, k, ok)
    ensures Delivered(calls) == Delivered(calls[..k]) + if ok then [valid[|valid| - 1]] else []
    ensures CallsFor(calls, id) == CallsFor(calls[..k], id) + if id == valid[|valid| - 1].id then |calls| - k else 0
  {
    k, ok :| DeliversLast(valid, limit, c, calls, count, k, ok);
    var last, more := valid[|valid| - 1], calls[k..];
    AttemptsDeliver(last, more, ok);
    AttemptsCall(last, more, id);
    CallsSplit(calls, k, id);
  }

  /** A delivery makes at most the limit of calls per action and none for other ids. */
  lemma {:induction false} CallsAreLimited(valid: seq<Action>, limit: nat, c: Contact, calls: seq<Call>, count: nat,
                                           id: Id)
    requires IsDelivery(valid, limit, c, calls, count) && DistinctIds(valid)
    ensures CallsFor(calls, id) <= limit
    ensures id !in IdsOf(valid) ==> CallsFor(calls, id) == 0
    decreases |valid|
  {
    if valid != [] {
      var k, ok := LastAttempts(valid, limit, c, calls, count, id);
      var shorter, last := valid[..|valid| - 1], valid[|valid| - 1];
      CallsAreLimited(shorter, limit, c, calls[..k], if ok then count - 1 else count, id);
      assert valid == shorter + [last];
      IdsGrow(shorter, last);
      NewId(shorter, last);
    }
  }

  /** A delivery delivers `count` of the actions, in their order and once each. */
  lemma {:induction false} DeliveryIsOrdered(valid: seq<Action>, limit: nat, c: Contact, calls: seq<Call>, count: nat)
    requires IsDelivery(valid, limit, c, calls, count) && DistinctIds(valid) && InOrder(valid)
    ensures |Delivered(calls)| == count
    ensures DistinctIds(Delivered(calls)) && InOrder(Delivered(calls))
    ensures forall a :: a in Delivered(calls) ==> a in valid
    decreases |valid|
  {
    if valid != [] {
      var k, ok := LastAttempts(valid, limit, c, calls, count, Empty);
      var shorter, last := valid[..|valid| - 1], valid[|valid| - 1];
      DeliveryIsOrdered(shorter, limit, c, calls[..k], if ok then count - 1 else count);
      assert valid == shorter + [last];
      AppendKeepsOrder(shorter, last, Delivered(calls[..k]));
    }
  }

  lemma AppendKeepsOrder(valid: seq<Action>, a: Action, some: seq<Action>)
    requires DistinctIds(valid + [a]) && InOrder(valid + [a])
    requires DistinctIds(some) && InOrder(some) && forall x :: x in some ==> x in valid
    ensures DistinctIds(some + [a]) && InOrder(some + [a])
  {
    forall i | 0 <= i < |some|
      ensures some[i].id != a.id && some[i].issuedAt <= a.issuedAt
    {
      assert some[i] in valid;
      var k :| 0 <= k < |valid| && valid[k] == some[i];
      assert (valid + [a])[k] == some[i] && (valid + [a])[|valid|] == a;
    }
  }

  /** What a delivery leaves undelivered was tried: at least once, and if nobody can cancel, as
      often as allowed. */
  lemma {:induction false} UndeliveredWasTried(valid: seq<Action>, limit: nat, c: Contact, calls: seq<Call>, count: nat,
                                               a: Action)
    requires IsDelivery(valid, limit, c, calls, count) && DistinctIds(valid)
    requires a in valid && a !in Delivered(calls)
    ensures limit > 0 ==> CallsFor(calls, a.id) > 0
    ensures Patient(c) ==> CallsFor(calls, a.id) == limit
    decreases |valid|
  {
    var k, ok := LastAttempts(valid, limit, c, calls, count, a.id);
    var shorter, last := valid[..|valid| - 1], valid[|valid| - 1];
    assert valid == shorter + [last];
    if a in shorter {
      UndeliveredWasTried(shorter, limit, c, calls[..k], if ok then count - 1 else count, a);
      IdsAreDistinct(shorter, last, a);
    } else {
      NewId(shorter, last);
      CallsAreLimited(shorter, limit, c, calls[..k], if ok then count - 1 else count, a.id);
    }
  }

  lemma IdsAreDistinct(actions: seq<Action>, last: Action, a: Action)
    requires DistinctIds(actions + [last]) && a in actions
    ensures a.id != last.id
  {
    var k :| 0 <= k < |actions| && actions[k] == a;
    assert (actions + [last])[k] == a && (actions + [last])[|actions|] == last;
  }

  lemma NewId(actions: seq<Action>, last: Action)
    requires DistinctIds(actions + [last])
    ensures last.id !in IdsOf(actions)
  {
    forall a | a in actions
      ensures a.id != last.id
    {
      IdsAreDistinct(actions, last, a);
    }
  }

  // ----- All batches -----

  datatype Batch = Batch(actions: seq<Action>, now: int, contact: Contact, calls: seq<Call>, count: nat)

  function CallsOf(h: seq<Batch>): seq<Call> {
    if h == [] then [] else CallsOf(h[..|h| - 1]) + h[|h| - 1].calls
  }

  function Total(h: seq<Batch>): nat {
    if h == [] then 0 else Total(h[..|h| - 1]) + h[|h| - 1].count
  }

  function DeliveredIds(h: seq<Batch>): set<Id> {
    IdsOf(Delivered(CallsOf(h)))
  }

  ghost predicate IsBatch(delivered: set<Id>, limit: nat, b: Batch) {
    exists valid :: Publishes(delivered, limit, b, valid)
  }

  /** The survivors, ordered by issue time in any way, are delivered. */
  ghost predicate Publishes(delivered: set<Id>, limit: nat, b: Batch, valid: seq<Action>) {
    && multiset(valid) == multiset(Survivors(b.actions, delivered, b.now))
    && InOrder(valid)
    && IsDelivery(valid, limit, b.contact, b.calls, b.count)
  }

  ghost predicate IsHistory(h: seq<Batch>, limit: nat) {
    h == [] || (IsHistory(h[..|h| - 1], limit) && IsBatch(DeliveredIds(h[..|h| - 1]), limit, h[|h| - 1]))
  }

  lemma HistoryGrows(h: seq<Batch>, limit: nat, b: Batch)
    requires IsHistory(h, limit) && IsBatch(DeliveredIds(h), limit, b)
    ensures IsHistory(h + [b], limit) && CallsOf(h + [b]) == CallsOf(h) + b.calls
            && Total(h + [b]) == Total(h) + b.count
  {
    assert (h + [b])[..|h|] == h;
  }

  lemma SameElements(a: seq<Action>, b: seq<Action>)
    requires multiset(a) == multiset(b)
    ensures forall x :: x in a <==> x in b
  {
    forall x
      ensures x in a <==> x in b
    {
      assert x in a <==> x in multiset(a);
    }
  }

  /** An ordering of distinct ids has distinct ids. */
  lemma OrderingIsDistinct(a: seq<Action>, b: seq<Action>)
    requires multiset(a) == multiset(b) && DistinctIds(b)
    ensures DistinctIds(a)
  {
    SameElements(a, b);
    DistinctCounts(a);
    DistinctCounts(b);
    forall i, j | 0 <= i < j < |a|
      ensures a[i].id != a[j].id
    {
      assert a[i] in b && a[j] in b;
    }
  }

  /** Within one publish call: deliveries in order of issue, at most the limit of calls per id, only
      for live actions of ids not delivered before. */
  lemma BatchIsOrdered(delivered: set<Id>, limit: nat, b: Batch, id: Id)
    requires IsBatch(delivered, limit, b)
    ensures InOrder(Delivered(b.calls)) && DistinctIds(Delivered(b.calls)) && |Delivered(b.calls)| == b.count
    ensures forall a :: a in Delivered(b.calls) ==> a in b.actions && Survives(a, delivered, b.now)
    ensures CallsFor(b.calls, id) <= limit
    ensures id in delivered ==> CallsFor(b.calls, id) == 0
  {
    var valid :| Publishes(delivered, limit, b, valid);
    var survivors := Survivors(b.actions, delivered, b.now);
    SurvivorsAre(b.actions, delivered, b.now);
    OrderingIsDistinct(valid, survivors);
    SameElements(valid, survivors);
    DeliveryIsOrdered(valid, limit, b.contact, b.calls, b.count);
    CallsAreLimited(valid, limit, b.contact, b.calls, b.count, id);
  }

  /** At least once: a surviving action is delivered, or the endpoint refused it as often as it may
      be tried; a context that can be cancelled may cut that short, but never to nothing. */
  lemma SurvivorsAreTried(delivered: set<Id>, limit: nat, b: Batch, a: Action)
    requires IsBatch(delivered, limit, b) && a in Survivors(b.actions, delivered, b.now)
    ensures a in Delivered(b.calls) || (limit > 0 ==> CallsFor(b.calls, a.id) > 0)
    ensures a in Delivered(b.calls) || (Patient(b.contact) ==> CallsFor(b.calls, a.id) == limit)
  {
    var valid :| Publishes(delivered, limit, b, valid);
    var survivors := Survivors(b.actions, delivered, b.now);
    SurvivorsAre(b.actions, delivered, b.now);
    OrderingIsDistinct(valid, survivors);
    SameElements(valid, survivors);
    if a !in Delivered(b.calls) {
      UndeliveredWasTried(valid, limit, b.contact, b.calls, b.count, a);
    }
  }

  /** An action without a time to live, or one that is given to the bus within it, is delivered or tried
      itself or in the person of another live action with its id, unless its id was delivered before;
      one that is given later is never offered. */
  lemma LiveAreTried(delivered: set<Id>, limit: nat, b: Batch, a: Action)
    requires IsBatch(delivered, limit, b) && a in b.actions && a.id !in delivered
    ensures a.ttl <= 0 || b.now <= a.issuedAt + a.ttl ==>
              || a.id in IdsOf(Delivered(b.calls))
              || (limit > 0 ==> CallsFor(b.calls, a.id) > 0)
    ensures (a.ttl <= 0 || b.now <= a.issuedAt + a.ttl) && Patient(b.contact) ==>
              || a.id in IdsOf(Delivered(b.calls))
              || CallsFor(b.calls, a.id) == limit
    ensures a.ttl > 0 && b.now > a.issuedAt + a.ttl ==> a !in Delivered(b.calls)
  {
    var survivors := Survivors(b.actions, delivered, b.now);
    SurvivorsAre(b.actions, delivered, b.now);
    if a.ttl <= 0 || b.now <= a.issuedAt + a.ttl {
      assert Survives(a, delivered, b.now);
      var first :| first in survivors && first.id == a.id;
      SurvivorsAreTried(delivered, limit, b, first);
    }
    BatchIsOrdered(delivered, limit, b, a.id);
  }

  /** Over all publish calls no id is delivered twice, and the returned counts add up to the
      number of delivered ids. */
  lemma {:induction false} NothingIsDeliveredTwice(h: seq<Batch>, limit: nat)
    requires IsHistory(h, limit)
    ensures DistinctIds(Delivered(CallsOf(h)))
    ensures Total(h) == |Delivered(CallsOf(h))| == |DeliveredIds(h)|
  {
    if h != [] {
      var before, b := h[..|h| - 1], h[|h| - 1];
      NothingIsDeliveredTwice(before, limit);
      BatchIsOrdered(DeliveredIds(before), limit, b, Empty);
      DeliveredJoins(CallsOf(before), b.calls);
      JoinIsDistinct(Delivered(CallsOf(before)), Delivered(b.calls));
    }
    CountIds(Delivered(CallsOf(h)));
  }

  lemma JoinIsDistinct(a: seq<Action>, b: seq<Action>)
    requires DistinctIds(a) && DistinctIds(b) && forall x :: x in b ==> x.id !in IdsOf(a)
    ensures DistinctIds(a + b)
  {
  }

  lemma {:induction false} CountIds(actions: seq<Action>)
    requires DistinctIds(actions)
    ensures |IdsOf(actions)| == |actions|
  {
    if actions != [] {
      var shorter, a := actions[..|actions| - 1], actions[|actions| - 1];
      CountIds(shorter);
      assert actions == shorter + [a];
      IdsGrow(shorter, a);
    }
  }

  /** Once delivered, an id is never offered to the endpoint again. */
  lemma DeliveredIsNotCalledAgain(h: seq<Batch>, limit: nat, k: nat, id: Id)
    requires IsHistory(h, limit) && k < |h| && id in DeliveredIds(h[..k])
    ensures CallsFor(h[k].calls, id) == 0
  {
    HistoryPrefix(h, limit, k + 1);
    var prefix := h[..k + 1];
    assert prefix[..k] == h[..k];
    BatchIsOrdered(DeliveredIds(h[..k]), limit, h[k], id);
  }

  lemma {:induction false} HistoryPrefix(h: seq<Batch>, limit: nat, k: nat)
    requires IsHistory(h, limit) && k <= |h|
    ensures IsHistory(h[..k], limit)
  {
    if k < |h| {
      var shorter := h[..|h| - 1];
      HistoryPrefix(shorter, limit, k);
      assert shorter[..k] == h[..k];
    } else {
      assert h[..k] == h;
    }
  }
}
