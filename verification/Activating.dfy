/** When a blocked node becomes ready, and when it is skipped. */
module Activating {
  import opened Ids
  import opened Plans
  import opened Statuses

  predicate Succeeded(states: map<Id, Status>, id: Id) {
    id in states && states[id].Success?
  }

  predicate EvaluateActivation(a: Activation, states: map<Id, Status>) {
    match a.condition
    case AllSuccess => forall i :: 0 <= i < |a.required| ==> Succeeded(states, a.required[i])
    case AnySuccess => exists i :: 0 <= i < |a.Candidates()| && Succeeded(states, a.Candidates()[i])
    case Other(_) => false
  }

  predicate ShouldSkip(a: Activation, states: map<Id, Status>) {
    match a.condition
    case AllSuccess =>
      exists i :: 0 <= i < |a.required| && FailedForGood(states, a.required[i])
    case AnySuccess =>
      a.Candidates() != [] && forall i :: 0 <= i < |a.Candidates()| ==> FailedForGood(states, a.Candidates()[i])
    case Other(_) => false
  }

  predicate FailedForGood(states: map<Id, Status>, id: Id) {
    id in states && IsTerminal(states[id]) && !states[id].Success?
  }

  /** Later states keep every entry and every terminal status. */
  ghost predicate Extends(before: map<Id, Status>, after: map<Id, Status>) {
    forall n :: n in before ==> n in after && (IsTerminal(before[n]) ==> after[n] == before[n])
  }

  /** Neither decision is ever taken back. */
  lemma DecisionsLast(a: Activation, before: map<Id, Status>, after: map<Id, Status>)
    requires Extends(before, after)
    ensures EvaluateActivation(a, before) ==> EvaluateActivation(a, after)
    ensures ShouldSkip(a, before) ==> ShouldSkip(a, after)
  {
  }

  /** The two decisions exclude each other. */
  lemma NeverBoth(a: Activation, states: map<Id, Status>)
    ensures !(EvaluateActivation(a, states) && ShouldSkip(a, states))
  {
  }

  /** Once all candidates are terminal, one of the two decisions is due; an `any_success` rule
      without candidates and an unknown rule are the exceptions. */
  lemma OneIsDue(a: Activation, states: map<Id, Status>)
    requires forall i :: 0 <= i < |a.Candidates()| ==>
            a.Candidates()[i] in states && IsTerminal(states[a.Candidates()[i]])
    ensures EvaluateActivation(a, states) || ShouldSkip(a, states)
            <==> a.condition.AllSuccess? || (a.condition.AnySuccess? && a.Candidates() != [])
  {
    if a.condition.AllSuccess? && !EvaluateActivation(a, states) {
      var i :| 0 <= i < |a.required| && !Succeeded(states, a.required[i]);
      assert a.Candidates()[i] == a.required[i];
    }
  }

  // ----- The rules in terms of the two lists of a unit -----

  /** An `any_success` rule asks for one success among its required and its optional units alike, and
      is out of reach once all of both lists have ended without success; empty lists decide nothing. */
  lemma AnySuccessIff(a: Activation, states: map<Id, Status>)
    requires a.condition.AnySuccess?
    ensures EvaluateActivation(a, states) <==>
              exists id :: (id in a.required || id in a.optional) && id in states && states[id].Success?
    ensures ShouldSkip(a, states) <==>
              && (a.required != [] || a.optional != [])
              && (forall id :: id in a.required || id in a.optional ==>
                    id in states && (states[id].Failure? || states[id].Skipped? || states[id].Terminated?))
  {
    var both := a.Candidates();
    assert forall id :: id in both <==> id in a.required || id in a.optional;
    if id :| (id in a.required || id in a.optional) && id in states && states[id].Success? {
      var i :| 0 <= i < |both| && both[i] == id;
      assert Succeeded(states, both[i]);
    }
  }

  /** An `all_success` rule looks at required units only: it asks for the success of them all, and is
      out of reach once one has ended without. */
  lemma AllSuccessIff(a: Activation, states: map<Id, Status>)
    requires a.condition.AllSuccess?
    ensures EvaluateActivation(a, states) <==> forall id :: id in a.required ==> id in states && states[id].Success?
    ensures ShouldSkip(a, states) <==>
              exists id :: id in a.required && id in states
                           && (states[id].Failure? || states[id].Skipped? || states[id].Terminated?)
  {
  }
}
