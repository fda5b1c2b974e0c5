/** The seven node statuses, the transition table, and the log of accepted commits. */
module Statuses {
  import opened Ids

  datatype Status = Blocked | Ready | Running | Success | Failure | Skipped | Terminated

  predicate IsTerminal(s: Status) {
    s.Success? || s.Failure? || s.Skipped? || s.Terminated?
  }

  /** The transition table. */
  predicate Allowed(from: Status, to: Status) {
    match from
    case Blocked => to.Ready? || to.Skipped? || to.Terminated?
    case Ready => to.Running? || to.Terminated?
    case Running => to.Success? || to.Failure? || to.Terminated?
    case _ => false
  }

  datatype Event = Event(node: Id, status: Status)

  /** A commit that would be the node's first, or that the table allows. */
  predicate Accepts(states: map<Id, Status>, e: Event) {
    e.node !in states || Allowed(states[e.node], e.status)
  }

  /** The statuses that a log of accepted commits leaves behind: the last write wins. */
  function After(log: seq<Event>): map<Id, Status> {
    if log == [] then map[]
    else
      var e := log[|log| - 1];
      After(log[..|log| - 1])[e.node := e.status]
  }

  ghost predicate ValidLog(log: seq<Event>) {
    log == [] || (ValidLog(log[..|log| - 1]) && Accepts(After(log[..|log| - 1]), log[|log| - 1]))
  }

  lemma LogGrows(log: seq<Event>, e: Event)
    ensures (log + [e])[..|log|] == log
    ensures After(log + [e]) == After(log)[e.node := e.status]
    ensures ValidLog(log + [e]) <==> ValidLog(log) && Accepts(After(log), e)
  {
    assert (log + [e])[..|log + [e]| - 1] == log;
  }

  lemma {:induction false} PrefixIsValid(log: seq<Event>, k: nat)
    requires ValidLog(log) && k <= |log|
    ensures ValidLog(log[..k])
  {
    if k < |log| {
      var shorter := log[..|log| - 1];
      PrefixIsValid(shorter, k);
      assert shorter[..k] == log[..k];
    } else {
      assert log[..k] == log;
    }
  }

  /** No status is ever forgotten, and a terminal status never changes again. */
  lemma {:induction false} TerminalStays(log: seq<Event>, k: nat, n: Id)
    requires ValidLog(log) && k <= |log| && n in After(log[..k])
    ensures n in After(log)
    ensures IsTerminal(After(log[..k])[n]) ==> After(log)[n] == After(log[..k])[n]
  {
    if k < |log| {
      var shorter := log[..|log| - 1];
      assert shorter[..k] == log[..k];
      TerminalStays(shorter, k, n);
    } else {
      assert log[..k] == log;
    }
  }

  // ----- The history of one node -----

  /** The statuses committed for node `n`, in order. */
  function History(log: seq<Event>, n: Id): seq<Status> {
    if log == [] then []
    else
      var e := log[|log| - 1];
      History(log[..|log| - 1], n) + if e.node == n then [e.status] else []
  }

  /** How far a status is from the start of a node's life. */
  function Rank(s: Status): nat {
    match s
    case Blocked => 1
    case Ready => 2
    case Running => 3
    case _ => 4
  }

  ghost predicate IsPath(h: seq<Status>) {
    forall i :: 0 <= i < |h| - 1 ==> Allowed(h[i], h[i + 1])
  }

  /** A node's commits follow the transition table and end in its current status. */
  lemma {:induction false} HistoryIsPath(log: seq<Event>, n: Id)
    requires ValidLog(log)
    ensures IsPath(History(log, n))
    ensures n in After(log) <==> History(log, n) != []
    ensures n in After(log) ==> After(log)[n] == History(log, n)[|History(log, n)| - 1]
  {
    if log != [] {
      var shorter, e := log[..|log| - 1], log[|log| - 1];
      HistoryIsPath(shorter, n);
    }
  }

  lemma {:induction false} PathClimbs(h: seq<Status>, i: nat, j: nat)
    requires IsPath(h) && i < j < |h|
    ensures Rank(h[i]) + (j - i) <= Rank(h[j])
  {
    assert Allowed(h[j - 1], h[j - 1 + 1]);
    if i < j - 1 {
      PathClimbs(h, i, j - 1);
    }
  }

  /** A node is committed at most four times and enters each status at most once; so it is
      dispatched at most once. */
  lemma HistoryIsShort(log: seq<Event>, n: Id)
    requires ValidLog(log)
    ensures |History(log, n)| <= 4
    ensures Distinct(History(log, n))
  {
    var h := History(log, n);
    HistoryIsPath(log, n);
    if |h| > 1 {
      PathClimbs(h, 0, |h| - 1);
    }
    forall i, j | 0 <= i < j < |h|
      ensures h[i] != h[j]
    {
      PathClimbs(h, i, j);
    }
  }

  /** A node that ends blocked or skipped was never dispatched. */
  lemma SkippedNeverRan(log: seq<Event>, n: Id)
    requires ValidLog(log) && n in After(log) && (After(log)[n].Blocked? || After(log)[n].Skipped?)
    ensures Running !in History(log, n)
  {
    var h := History(log, n);
    HistoryIsPath(log, n);
    if Running in h {
      var i :| 0 <= i < |h| && h[i] == Running;
      assert Allowed(h[i], h[i + 1]);
      if i + 1 < |h| - 1 {
        PathClimbs(h, i + 1, |h| - 1);
      }
      assert false;
    }
  }

  // ----- The length of a log -----

  function Weight(ids: seq<Id>, states: map<Id, Status>): nat {
    if ids == [] then 0
    else (if ids[0] in states then Rank(states[ids[0]]) else 0) + Weight(ids[1..], states)
  }

  lemma {:induction false} WeightRises(ids: seq<Id>, states: map<Id, Status>, e: Event)
    requires Accepts(states, e)
    ensures Weight(ids, states) + (if e.node in ids then 1 else 0) <= Weight(ids, states[e.node := e.status])
  {
    if ids != [] {
      WeightRises(ids[1..], states, e);
    }
  }

  lemma {:induction false} WeightIsBounded(ids: seq<Id>, states: map<Id, Status>)
    ensures Weight(ids, states) <= 4 * |ids|
  {
    if ids != [] {
      WeightIsBounded(ids[1..], states);
    }
  }

  ghost predicate About(log: seq<Event>, ids: seq<Id>) {
    forall i :: 0 <= i < |log| ==> log[i].node in ids
  }

  lemma {:induction false} LogIsLight(log: seq<Event>, ids: seq<Id>)
    requires ValidLog(log) && About(log, ids)
    ensures |log| <= Weight(ids, After(log))
  {
    if log != [] {
      var shorter, e := log[..|log| - 1], log[|log| - 1];
      LogIsLight(shorter, ids);
      WeightRises(ids, After(shorter), e);
    }
  }

  /** A run over `ids` accepts at most four commits per node. */
  lemma LogIsShort(log: seq<Event>, ids: seq<Id>)
    requires ValidLog(log) && About(log, ids)
    ensures |log| <= 4 * |ids|
  {
    LogIsLight(log, ids);
    WeightIsBounded(ids, After(log));
  }

  // ----- The life of one node -----

  /** Which status can come next, and after which. */
  ghost predicate LifeStep(from: Status, to: Status) {
    && !(from.Success? || from.Failure? || from.Skipped? || from.Terminated?) && !to.Blocked?
    && (to.Ready? || to.Skipped? ==> from.Blocked?)
    && (to.Running? ==> from.Ready?)
    && (to.Success? || to.Failure? ==> from.Running?)
  }

  /** In every log: a node that runs was READY just before, one that has succeeded or failed was
      RUNNING, one that became READY or was SKIPPED later than at first was BLOCKED, and nothing
      follows an ending. Every such step is one the engine takes. */
  lemma LivesAreOrdered(log: seq<Event>, n: Id, i: nat)
    requires ValidLog(log) && i + 1 < |History(log, n)|
    ensures LifeStep(History(log, n)[i], History(log, n)[i + 1])
    ensures forall states, s :: n in states && LifeStep(states[n], s) ==> Accepts(states, Event(n, s))
  {
    HistoryIsPath(log, n);
    assert Allowed(History(log, n)[i], History(log, n)[i + 1]);
  }
}
