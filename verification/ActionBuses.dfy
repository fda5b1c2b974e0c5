/** The action bus. The endpoint may accept or fail any call, the context may be cancelled
    between two attempts. */
module ActionBuses {
  import opened Ids
  import opened Deliveries

  datatype BusError = NilEndpoint | NotDelivered

  lemma JoinKeepsOrder(x: seq<Action>, y: seq<Action>)
    requires InOrder(x) && InOrder(y)
    requires x != [] && y != [] ==> x[|x| - 1].issuedAt <= y[0].issuedAt
    ensures InOrder(x + y)
  {
  }

  lemma PartsKeepOrder(sorted: seq<Action>, k: nat)
    requires InOrder(sorted) && k <= |sorted|
    ensures InOrder(sorted[..k]) && InOrder(sorted[k..])
  {
  }

  lemma InsertKeepsOrder(front: seq<Action>, a: Action, back: seq<Action>)
    requires InOrder(front) && InOrder(back)
    requires front != [] ==> front[|front| - 1].issuedAt <= a.issuedAt
    requires back != [] ==> a.issuedAt <= back[0].issuedAt
    ensures InOrder(front + [a] + back)
  {
    JoinKeepsOrder(front, [a]);
    JoinKeepsOrder(front + [a], back);
  }

  lemma InsertKeepsElements(sorted: seq<Action>, a: Action, k: nat)
    requires k <= |sorted|
    ensures multiset(sorted[..k] + [a] + sorted[k..]) == multiset(sorted) + multiset{a}
  {
    assert sorted == sorted[..k] + sorted[k..];
  }

  /** Orders by issue time; actions issued at the same time may come out in any order. */
  method SortByIssue(actions: seq<Action>) returns (sorted: seq<Action>)
    ensures multiset(sorted) == multiset(actions) && InOrder(sorted)
  {
    sorted := [];
    for i := 0 to |actions|
      invariant multiset(sorted) == multiset(actions[..i]) && InOrder(sorted)
    {
      assert actions[..i + 1] == actions[..i] + [actions[i]];
      var k := PlaceFor(sorted, actions[i]);
      PartsKeepOrder(sorted, k);
      InsertKeepsOrder(sorted[..k], actions[i], sorted[k..]);
      InsertKeepsElements(sorted, actions[i], k);
      sorted := sorted[..k] + [actions[i]] + sorted[k..];
    }
    assert actions[..|actions|] == actions;
  }

  method PlaceFor(sorted: seq<Action>, a: Action) returns (k: nat)
    ensures k <= |sorted|
    ensures k > 0 ==> sorted[k - 1].issuedAt <= a.issuedAt
    ensures k < |sorted| ==> a.issuedAt <= sorted[k].issuedAt
  {
    k := |sorted|;
    var swap: bool := *;
    while k > 0 && (a.issuedAt < sorted[k - 1].issuedAt || (swap && a.issuedAt == sorted[k - 1].issuedAt))
      invariant 0 <= k <= |sorted|
      invariant k < |sorted| ==> a.issuedAt <= sorted[k].issuedAt
    {
      k := k - 1;
      swap := *;
    }
  }

  class Bus {
    const hasEndpoint: bool
    const maxAttempts: int
    /** Delivered ids with the time of their delivery. */
    var delivered: map<Id, int>
    ghost var history: seq<Batch>

    ghost predicate Valid()
      reads this
    {
      IsHistory(history, Limit()) && delivered.Keys == DeliveredIds(history)
    }

    function Limit(): nat {
      if maxAttempts < 0 then 0 else maxAttempts
    }

    constructor (hasEndpoint: bool, maxAttempts: int)
      ensures Valid() && history == [] && delivered == map[]
      ensures this.hasEndpoint == hasEndpoint && this.maxAttempts == maxAttempts
    {
      this.hasEndpoint, this.maxAttempts := hasEndpoint, maxAttempts;
      delivered, history := map[], [];
    }

    method FilterValid(actions: seq<Action>, now: int) returns (valid: seq<Action>)
      ensures valid == Survivors(actions, delivered.Keys, now)
    {
      valid := [];
      var seen: set<Id> := {};
      for i := 0 to |actions|
        invariant valid == Survivors(actions[..i], delivered.Keys, now)
        invariant seen == IdsOf(valid)
      {
        var a := actions[i];
        assert actions[..i + 1][..i] == actions[..i];
        if IsExpired(a, now) {
          continue;
        }
        if a.id in delivered {
          continue;
        }
        if a.id in seen {
          continue;
        }
        IdsGrow(valid, a);
        seen := seen + {a.id};
        valid := valid + [a];
      }
      assert actions[..|actions|] == actions;
    }

    /** Calls the endpoint until it accepts, the attempts are used up, or the context is done. */
    method DeliverWithRetry(action: Action, done: nat -> bool, answers: nat -> bool)
      returns (ok: bool, ghost calls: seq<Call>)
      modifies this`delivered
      ensures AreAttempts(action, calls, ok, Limit(), done, answers)
      ensures delivered.Keys == old(delivered.Keys) + if ok then {action.id} else {}
    {
      calls := [];
      var attempt := 0;
      while attempt < maxAttempts
        invariant 0 <= attempt && |calls| == attempt && |calls| <= Limit()
        invariant AreCalls(action, calls, false)
        invariant forall n :: 0 <= n < attempt ==> !answers(n)
        invariant forall n :: 0 < n < attempt ==> !done(n)
        invariant delivered == old(delivered)
      {
        if attempt > 0 {
          if done(attempt) {
            return false, calls;
          }
        }
        var accepted := answers(attempt);
        calls := calls + [Call(action, accepted)];
        if accepted {
          var now: int := *;
          delivered := delivered[action.id := now];
          return true, calls;
        }
        attempt := attempt + 1;
      }
      ok := false;
    }

    /** Delivers a batch and returns how many actions went out. There is an error exactly when there is
        no endpoint, or something was to be delivered and nothing was. */
    method Publish(actions: seq<Action>, now: int, contact: Contact)
      returns (count: nat, failed: bool, error: BusError, ghost calls: seq<Call>)
      requires Valid()
      modifies this
      ensures Valid()
      ensures hasEndpoint && actions != [] ==> history == old(history) + [Batch(actions, now, contact, calls, count)]
      ensures !hasEndpoint || actions == [] ==> history == old(history) && delivered == old(delivered) && count == 0
      ensures failed && error.NilEndpoint? <==> !hasEndpoint
      ensures failed && error.NotDelivered? <==>
              hasEndpoint && count == 0 && Survivors(actions, old(delivered.Keys), now) != []
    {
      count, failed, error, calls := 0, false, NotDelivered, [];
      if !hasEndpoint {
        return 0, true, NilEndpoint, [];
      }
      if |actions| == 0 {
        return;
      }
      var survivors := FilterValid(actions, now);
      var valid := SortByIssue(survivors);
      var lastErr;
      count, lastErr, calls := DeliverAll(valid, contact);
      Record(Batch(actions, now, contact, calls, count), valid);
      failed := count == 0 && lastErr;
    }

    /** Delivers one action after the other, whatever becomes of the ones before. */
    method DeliverAll(valid: seq<Action>, contact: Contact) returns (count: nat, lastErr: bool, ghost calls: seq<Call>)
      modifies this`delivered
      ensures IsDelivery(valid, Limit(), contact, calls, count)
      ensures delivered.Keys == old(delivered.Keys) + IdsOf(Delivered(calls))
      ensures count == 0 ==> (lastErr <==> valid != [])
    {
      count, lastErr, calls := 0, false, [];
      for i := 0 to |valid|
        invariant IsDelivery(valid[..i], Limit(), contact, calls, count)
        invariant delivered.Keys == old(delivered.Keys) + IdsOf(Delivered(calls))
        invariant count == 0 ==> (lastErr <==> i > 0)
      {
        ghost var more;
        var ok;
        ok, more := DeliverWithRetry(valid[i], contact.done(i), contact.answers(i));
        DeliveryGrows(valid[..i], Limit(), contact, calls, count, valid[i], more, ok);
        DeliveredGrows(calls, valid[i], more, ok);
        assert valid[..i + 1] == valid[..i] + [valid[i]];
        calls := calls + more;
        if !ok {
          lastErr := true;
          continue;
        }
        count := count + 1;
      }
      assert valid[..|valid|] == valid;
    }

    /** Bookkeeping of the proof: one more batch in the history. */
    ghost method Record(b: Batch, valid: seq<Action>)
      requires IsHistory(history, Limit()) && Publishes(DeliveredIds(history), Limit(), b, valid)
      requires delivered.Keys == DeliveredIds(history) + IdsOf(Delivered(b.calls))
      modifies this`history
      ensures Valid() && history == old(history) + [b]
    {
      HistoryGrows(history, Limit(), b);
      DeliveredJoins(CallsOf(history), b.calls);
      IdsJoin(Delivered(CallsOf(history)), Delivered(b.calls));
      history := history + [b];
    }

    /** The number of distinct ids ever delivered is what all publish calls together returned. */
    method DeliveredCount() returns (n: nat)
      requires Valid()
      ensures n == |DeliveredIds(history)| == Total(history)
    {
      NothingIsDeliveredTwice(history, Limit());
      n := |delivered|;
      assert |delivered| == |delivered.Keys|;
    }
  }

  lemma DeliveredGrows(calls: seq<Call>, a: Action, more: seq<Call>, ok: bool)
    requires AreCalls(a, more, ok)
    ensures IdsOf(Delivered(calls + more)) == IdsOf(Delivered(calls)) + if ok then {a.id} else {}
  {
    AttemptsDeliver(a, more, ok);
    DeliveredJoins(calls, more);
    if ok {
      IdsGrow(Delivered(calls), a);
    } else {
      assert Delivered(calls) + [] == Delivered(calls);
    }
  }

  lemma IdsJoin(a: seq<Action>, b: seq<Action>)
    ensures IdsOf(a + b) == IdsOf(a) + IdsOf(b)
  {
  }
}
