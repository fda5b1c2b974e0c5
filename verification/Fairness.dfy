/** What the fair queue promises over whole runs of arrivals and services. */
module Fairness {
  import opened Ids
  import opened FairQueues

  datatype Op = Arrive(request: Request) | Take

  function Total(q: Queue): nat {
    Size(q.Ring(), q.pending)
  }

  /** One call on a queue with the given limit. */
  function Step(q: Queue, limit: int, op: Op): Queue
    requires Proper(q)
  {
    match op
    case Arrive(r) => if Total(q) >= limit then q else Join(q, r)
    case Take => if q.lap == [] then q else Serve(q)
  }

  lemma StepIsProper(q: Queue, limit: int, op: Op)
    requires Proper(q)
    ensures Proper(Step(q, limit, op))
  {
    match op
    case Arrive(r) => JoinIsProper(q, r);
    case Take => if q.lap != [] { ServeIsProper(q); }
  }

  /** The implementation takes exactly these steps: its counter is the abstract total. */
  lemma TotalIsCounter(order: seq<Id>, pos: nat, sessions: map<Id, seq<Request>>, total: int, maxSize: int)
    requires ValidState(order, pos, sessions, total, maxSize)
    ensures total == Total(LapsOf(order, pos, sessions))
  {
    SizeSplits(order[..pos], order[pos..], sessions);
    SizeSplits(order[pos..], order[..pos], sessions);
    assert order == order[..pos] + order[pos..];
  }

  function Run(q: Queue, limit: int, ops: seq<Op>): (r: Queue)
    requires Proper(q)
    ensures Proper(r)
    decreases |ops|
  {
    if ops == [] then q
    else
      StepIsProper(q, limit, ops[0]);
      Run(Step(q, limit, ops[0]), limit, ops[1..])
  }

  /** The requests a run hands out, in order. */
  function Outputs(q: Queue, limit: int, ops: seq<Op>): seq<Request>
    requires Proper(q)
    decreases |ops|
  {
    if ops == [] then []
    else
      StepIsProper(q, limit, ops[0]);
      (if ops[0].Take? && q.lap != [] then [Front(q)] else []) + Outputs(Step(q, limit, ops[0]), limit, ops[1..])
  }

  // ----- First in, first out, session by session -----

  function OfSession(requests: seq<Request>, s: Id): seq<Request> {
    if requests == [] then []
    else (if SessionOf(requests[0]) == s then [requests[0]] else []) + OfSession(requests[1..], s)
  }

  /** The requests of session `s` that a run lets in, in order. */
  function Admitted(q: Queue, limit: int, ops: seq<Op>, s: Id): seq<Request>
    requires Proper(q)
    decreases |ops|
  {
    if ops == [] then []
    else
      StepIsProper(q, limit, ops[0]);
      AdmittedNow(q, limit, ops[0], s) + Admitted(Step(q, limit, ops[0]), limit, ops[1..], s)
  }

  function AdmittedNow(q: Queue, limit: int, op: Op, s: Id): seq<Request> {
    if op.Arrive? && Total(q) < limit && SessionOf(op.request) == s then [op.request] else []
  }

  function ServedNow(q: Queue, op: Op, s: Id): seq<Request>
    requires Proper(q)
  {
    if op.Take? && q.lap != [] && SessionOf(Front(q)) == s then [Front(q)] else []
  }

  /** One step takes from the head of a session's line and adds to its end. */
  lemma StepIsFifo(q: Queue, limit: int, op: Op, s: Id)
    requires Proper(q)
    ensures Requests(q.pending, s) + AdmittedNow(q, limit, op, s) == ServedNow(q, op, s)
            + Requests(Step(q, limit, op).pending, s)
  {
    if op.Take? && q.lap != [] {
      ServePending(q);
      var front := q.lap[0];
      assert SessionOf(q.pending[front][0]) == front;
      if s == front {
        assert q.pending[s] == [q.pending[s][0]] + q.pending[s][1..];
      }
    }
  }

  /** Over any run, what a session had waiting and got admitted is what it was served plus what it
      still has waiting: nothing is lost, invented or reordered. */
  lemma {:induction false} SessionsAreFifo(q: Queue, limit: int, ops: seq<Op>, s: Id)
    requires Proper(q)
    ensures Requests(q.pending, s) + Admitted(q, limit, ops, s)
         == OfSession(Outputs(q, limit, ops), s) + Requests(Run(q, limit, ops).pending, s)
    decreases |ops|
  {
    if ops != [] {
      var op, q' := ops[0], Step(q, limit, ops[0]);
      StepIsProper(q, limit, op);
      SessionsAreFifo(q', limit, ops[1..], s);
      StepIsFifo(q, limit, op, s);
      OutputsOfSession(q, limit, ops, s);
      Chain(Requests(q.pending, s), AdmittedNow(q, limit, op, s), ServedNow(q, op, s), Requests(q'.pending, s),
            Admitted(q', limit, ops[1..], s), OfSession(Outputs(q', limit, ops[1..]), s),
            Requests(Run(q', limit, ops[1..]).pending, s));
    }
  }

  lemma Chain<T>(had: seq<T>, got: seq<T>, gave: seq<T>, left: seq<T>, gets: seq<T>, gives: seq<T>, keeps: seq<T>)
    requires had + got == gave + left && left + gets == gives + keeps
    ensures had + (got + gets) == (gave + gives) + keeps
  {
    assert had + (got + gets) == (had + got) + gets;
    assert (gave + left) + gets == gave + (left + gets);
    assert gave + (gives + keeps) == (gave + gives) + keeps;
  }

  lemma OutputsOfSession(q: Queue, limit: int, ops: seq<Op>, s: Id)
    requires Proper(q) && ops != []
    ensures Proper(Step(q, limit, ops[0]))
    ensures OfSession(Outputs(q, limit, ops), s)
         == ServedNow(q, ops[0], s) + OfSession(Outputs(Step(q, limit, ops[0]), limit, ops[1..]), s)
  {
    StepIsProper(q, limit, ops[0]);
    var rest := Outputs(Step(q, limit, ops[0]), limit, ops[1..]);
    if ops[0].Take? && q.lap != [] {
      assert Outputs(q, limit, ops) == [Front(q)] + rest;
      assert ([Front(q)] + rest)[1..] == rest;
    } else {
      assert Outputs(q, limit, ops) == rest;
    }
  }

  // ----- Bounded waiting -----

  /** How many sessions are served before `s`. */
  function Ahead(ring: seq<Id>, s: Id): nat
    requires s in ring
  {
    if ring[0] == s then 0 else 1 + Ahead(ring[1..], s)
  }

  lemma {:induction false} AheadOfConcat(a: seq<Id>, b: seq<Id>, s: Id)
    requires s in a + b
    ensures s in a ==> Ahead(a + b, s) == Ahead(a, s) && Ahead(a, s) < |a|
    ensures s !in a ==> s in b && Ahead(a + b, s) == |a| + Ahead(b, s)
  {
    if a == [] {
      assert a + b == b;
    } else if a[0] != s {
      assert (a + b)[1..] == a[1..] + b;
      AheadOfConcat(a[1..], b, s);
    }
  }

  function Takes(ops: seq<Op>): nat {
    if ops == [] then 0 else (if ops[0].Take? then 1 else 0) + Takes(ops[1..])
  }

  /** Whether a step lets in a session that had nothing waiting. */
  function Newcomer(q: Queue, limit: int, op: Op): nat {
    if op.Arrive? && Total(q) < limit && SessionOf(op.request) !in q.pending then 1 else 0
  }

  function Newcomers(q: Queue, limit: int, ops: seq<Op>): nat
    requires Proper(q)
    decreases |ops|
  {
    if ops == [] then 0
    else
      StepIsProper(q, limit, ops[0]);
      Newcomer(q, limit, ops[0]) + Newcomers(Step(q, limit, ops[0]), limit, ops[1..])
  }

  ghost predicate Waits(q: Queue, s: Id) {
    s in q.pending && s in q.Ring()
  }

  lemma WaitsInRing(q: Queue, s: Id)
    requires Proper(q) && s in q.pending
    ensures Waits(q, s) && q.lap != []
  {
    assert s in q.Ring();
  }

  /** A service of another session brings `s` one place forward. */
  lemma TakeAdvances(q: Queue, s: Id)
    requires Proper(q) && Waits(q, s) && q.lap != [] && q.lap[0] != s
    ensures Waits(Serve(q), s) && Ahead(Serve(q).Ring(), s) == Ahead(q.Ring(), s) - 1
  {
    var ring := q.Ring();
    ServeRing(q);
    ServePending(q);
    DistinctTail(ring);
    AheadOfConcat(ring[1..], [q.lap[0]], s);
  }

  /** An arrival puts `s` back by at most one place, and only if it brings a new session. */
  lemma ArrivalDelays(q: Queue, limit: int, r: Request, s: Id)
    requires Proper(q) && Waits(q, s)
    ensures var q' := Step(q, limit, Arrive(r));
            Waits(q', s) && Ahead(q'.Ring(), s) <= Ahead(q.Ring(), s) + Newcomer(q, limit, Arrive(r))
  {
    JoinIsProper(q, r);
    var q' := Step(q, limit, Arrive(r));
    WaitsInRing(q', s);
    if Newcomer(q, limit, Arrive(r)) == 1 {
      var n := SessionOf(r);
      assert q'.Ring() == q.lap + ([n] + q.next);
      AheadOfConcat(q.lap, q.next, s);
      AheadOfConcat(q.lap, [n] + q.next, s);
      if s !in q.lap {
        AheadOfConcat([n], q.next, s);
      }
    }
  }

  ghost predicate IsServed(outputs: seq<Request>, s: Id) {
    exists i :: 0 <= i < |outputs| && SessionOf(outputs[i]) == s
  }

  /** A waiting session with `d` sessions ahead of it is served within `d + 1 + m` services, where
      `m` sessions joined in the meantime. */
  lemma {:induction false} ServedInTime(q: Queue, limit: int, ops: seq<Op>, s: Id)
    requires Proper(q) && Waits(q, s)
    requires Takes(ops) >= Ahead(q.Ring(), s) + 1 + Newcomers(q, limit, ops)
    ensures IsServed(Outputs(q, limit, ops), s)
    decreases |ops|
  {
    WaitsInRing(q, s);
    var op, rest := ops[0], ops[1..];
    StepIsProper(q, limit, op);
    var later := Outputs(Step(q, limit, op), limit, rest);
    match op {
      case Take =>
        var all := Outputs(q, limit, ops);
        assert all == [Front(q)] + later;
        assert q.lap[0] in q.Ring();
        if q.lap[0] == s {
          assert SessionOf(all[0]) == s;
        } else {
          TakeAdvances(q, s);
          ServedInTime(Serve(q), limit, rest, s);
          var i :| 0 <= i < |later| && SessionOf(later[i]) == s;
          assert SessionOf(all[i + 1]) == s;
        }
      case Arrive(r) =>
        ArrivalDelays(q, limit, r, s);
        assert Outputs(q, limit, ops) == later;
        ServedInTime(Step(q, limit, op), limit, rest, s);
    }
  }

  // ----- Laps and starvation -----

  /** A service of another session brings a session of the current lap one place forward. */
  lemma LapAdvances(q: Queue, s: Id)
    requires Proper(q) && s in q.lap && q.lap[0] != s
    ensures s in Serve(q).lap && Ahead(Serve(q).lap, s) == Ahead(q.lap, s) - 1
  {
  }

  /** An arrival never puts a session of the current lap back. */
  lemma LapIsKept(q: Queue, limit: int, r: Request, s: Id)
    requires Proper(q) && s in q.lap
    ensures var lap := Step(q, limit, Arrive(r)).lap; s in lap && Ahead(lap, s) == Ahead(q.lap, s)
  {
    AheadOfConcat(q.lap, [SessionOf(r)], s);
  }

  /** A session of the current lap is served within its place there, whoever else arrives. */
  lemma {:induction false} ServedInLap(q: Queue, limit: int, ops: seq<Op>, s: Id)
    requires Proper(q) && s in q.lap && Takes(ops) > Ahead(q.lap, s)
    ensures IsServed(Outputs(q, limit, ops), s)
    decreases |ops|
  {
    var op, rest := ops[0], ops[1..];
    StepIsProper(q, limit, op);
    var later := Outputs(Step(q, limit, op), limit, rest);
    match op {
      case Take =>
        if q.lap[0] == s {
          ServedNext(q, limit, ops);
        } else {
          LapAdvances(q, s);
          ServedInLap(Serve(q), limit, rest, s);
          LaterIsServed([Front(q)], later, s);
        }
      case Arrive(r) =>
        LapIsKept(q, limit, r, s);
        ServedInLap(Step(q, limit, op), limit, rest, s);
        assert Outputs(q, limit, ops) == later;
    }
  }

  lemma ServedNext(q: Queue, limit: int, ops: seq<Op>)
    requires Proper(q) && q.lap != [] && ops != [] && ops[0].Take?
    ensures IsServed(Outputs(q, limit, ops), q.lap[0])
  {
    StepIsProper(q, limit, ops[0]);
    assert q.lap[0] in q.Ring();
    assert SessionOf(Outputs(q, limit, ops)[0]) == q.lap[0];
  }

  lemma LaterIsServed(first: seq<Request>, later: seq<Request>, s: Id)
    requires IsServed(later, s)
    ensures IsServed(first + later, s)
  {
    var i :| 0 <= i < |later| && SessionOf(later[i]) == s;
    assert SessionOf((first + later)[|first| + i]) == s;
  }

  /** Session `s` waits for the next lap behind a session with a single request. */
  ghost predicate Behind(q: Queue, a: Request, s: Id, line: seq<Request>) {
    && SessionOf(a) != s && line != [] && (forall i :: 0 <= i < |line| ==> SessionOf(line[i]) == s)
    && q == Queue([SessionOf(a)], [s], map[SessionOf(a) := [a], s := line])
  }

  /** Two requests arrive in turn, each just before the other is served. */
  function InTurn(a: Request, b: Request, k: nat): seq<Op>
    decreases k
  {
    if k == 0 then [] else [Arrive(b), Take] + InTurn(b, a, k - 1)
  }

  lemma SizeOfOne(s: Id, pending: map<Id, seq<Request>>)
    ensures Size([s], pending) == if s in pending then |pending[s]| else 0
  {
    assert [s][1..] == [];
  }

  lemma SizeOfTwo(s: Id, t: Id, pending: map<Id, seq<Request>>)
    requires s in pending && t in pending
    ensures Size([s, t], pending) == |pending[s]| + |pending[t]|
  {
    SizeOfOne(t, pending);
    assert [s, t][1..] == [t];
  }

  lemma BehindIsProper(q: Queue, a: Request, s: Id, line: seq<Request>)
    requires Behind(q, a, s, line)
    ensures Proper(q) && Total(q) == 1 + |line|
  {
    assert q.Ring() == [SessionOf(a), s];
    SizeOfTwo(SessionOf(a), s, q.pending);
  }

  lemma NewSessionJoins(q: Queue, r: Request)
    requires SessionOf(r) !in q.pending
    ensures Join(q, r) == Queue(q.lap + [SessionOf(r)], q.next, q.pending[SessionOf(r) := [r]])
  {
    assert Requests(q.pending, SessionOf(r)) + [r] == [r];
  }

  /** Two sessions with one request each are left in the lap. */
  ghost predicate TwoBefore(q: Queue, a: Request, b: Request, s: Id, line: seq<Request>) {
    && SessionOf(a) != s && SessionOf(b) != s && SessionOf(a) != SessionOf(b)
    && line != [] && (forall i :: 0 <= i < |line| ==> SessionOf(line[i]) == s)
    && q == Queue([SessionOf(a), SessionOf(b)], [s], map[SessionOf(a) := [a], s := line, SessionOf(b) := [b]])
  }

  lemma OneJoins(q: Queue, a: Request, b: Request, s: Id, line: seq<Request>)
    requires Behind(q, a, s, line) && SessionOf(b) != SessionOf(a) && SessionOf(b) != s
    ensures TwoBefore(Join(q, b), a, b, s, line)
  {
    NewSessionJoins(q, b);
  }

  lemma OneLeaves(q: Queue, a: Request, b: Request, s: Id, line: seq<Request>)
    requires Proper(q) && TwoBefore(q, a, b, s, line)
    ensures Front(q) == a && Behind(Serve(q), b, s, line)
  {
    assert q.pending[SessionOf(a)][1..] == [];
    assert q.pending - {SessionOf(a)} == map[SessionOf(b) := [b], s := line];
  }

  lemma BehindAgain(q: Queue, a: Request, b: Request, s: Id, line: seq<Request>)
    requires Behind(q, a, s, line) && SessionOf(b) != SessionOf(a) && SessionOf(b) != s
    ensures Proper(q) && Proper(Join(q, b)) && Join(q, b).lap != []
    ensures Front(Join(q, b)) == a && Behind(Serve(Join(q, b)), b, s, line)
  {
    BehindIsProper(q, a, s, line);
    JoinIsProper(q, b);
    OneJoins(q, a, b, s, line);
    OneLeaves(Join(q, b), a, b, s, line);
  }

  lemma OneMore(first: Request, later: seq<Request>, s: Id)
    requires SessionOf(first) != s && !IsServed(later, s)
    ensures !IsServed([first] + later, s)
  {
    forall i | 0 <= i < |[first] + later|
      ensures SessionOf(([first] + later)[i]) != s
    {
      if i > 0 {
        assert ([first] + later)[i] == later[i - 1];
      }
    }
  }

  /** What an arrival and a service hand out at the start of a run. */
  lemma TwoSteps(q: Queue, limit: int, r: Request, rest: seq<Op>)
    requires Proper(q) && Total(q) < limit && Proper(Join(q, r)) && Join(q, r).lap != []
    ensures Proper(Serve(Join(q, r)))
    ensures Takes([Arrive(r), Take] + rest) == 1 + Takes(rest)
    ensures Outputs(q, limit, [Arrive(r), Take] + rest)
         == [Front(Join(q, r))] + Outputs(Serve(Join(q, r)), limit, rest)
  {
    var ops := [Arrive(r), Take] + rest;
    ServeIsProper(Join(q, r));
    assert ops[1..] == [Take] + rest && ops[1..][1..] == rest;
  }

  /** A run with `k` services, all of other sessions. */
  ghost predicate PassesOver(q: Queue, limit: int, ops: seq<Op>, s: Id, k: nat)
    requires Proper(q)
  {
    && Takes(ops) == k && |Outputs(q, limit, ops)| == k
    && !IsServed(Outputs(q, limit, ops), s)
  }

  lemma PassedOnceMore(q: Queue, limit: int, r: Request, rest: seq<Op>, s: Id, k: nat)
    requires Proper(q) && Total(q) < limit && Proper(Join(q, r)) && Join(q, r).lap != []
    requires SessionOf(Front(Join(q, r))) != s
    requires Proper(Serve(Join(q, r))) && PassesOver(Serve(Join(q, r)), limit, rest, s, k)
    ensures PassesOver(q, limit, [Arrive(r), Take] + rest, s, k + 1)
  {
    TwoSteps(q, limit, r, rest);
    OneMore(Front(Join(q, r)), Outputs(Serve(Join(q, r)), limit, rest), s);
  }

  /** A session that waits for the next lap can wait for ever: while two other sessions take turns
      with one request each, every service goes to one of them. */
  lemma {:induction false} Starves(q: Queue, limit: int, a: Request, b: Request, s: Id, line: seq<Request>, k: nat)
    requires Behind(q, a, s, line) && SessionOf(b) != SessionOf(a) && SessionOf(b) != s && limit > 1 + |line|
    ensures Proper(q) && PassesOver(q, limit, InTurn(a, b, k), s, k)
    decreases k
  {
    BehindIsProper(q, a, s, line);
    if k > 0 {
      BehindAgain(q, a, b, s, line);
      Starves(Serve(Join(q, b)), limit, b, a, s, line, k - 1);
      PassedOnceMore(q, limit, b, InTurn(b, a, k - 1), s, k - 1);
    }
  }

  const EMPTY := Queue([], [], map[])

  lemma OneStep(q: Queue, limit: int, op: Op, q': Queue, rest: seq<Op>)
    requires Proper(q) && Step(q, limit, op) == q'
    ensures Proper(q') && Run(q, limit, [op] + rest) == Run(q', limit, rest)
  {
    StepIsProper(q, limit, op);
    assert ([op] + rest)[1..] == rest;
  }

  /** One session has a line. */
  function Single(s: Id, line: seq<Request>): Queue {
    Queue([s], [], map[s := line])
  }

  lemma FirstArrives(limit: int, first: Request, rest: seq<Op>)
    requires limit > 0
    ensures Proper(EMPTY) && Proper(Single(SessionOf(first), [first]))
    ensures Run(EMPTY, limit, [Arrive(first)] + rest) == Run(Single(SessionOf(first), [first]), limit, rest)
  {
    NewSessionJoins(EMPTY, first);
    OneStep(EMPTY, limit, Arrive(first), Single(SessionOf(first), [first]), rest);
  }

  lemma SecondArrives(limit: int, first: Request, second: Request, rest: seq<Op>)
    requires limit > 1 && SessionOf(first) == SessionOf(second)
    ensures var s := SessionOf(second);
            && Proper(Single(s, [first])) && Proper(Single(s, [first, second]))
            && Run(Single(s, [first]), limit, [Arrive(second)] + rest) == Run(Single(s, [first, second]), limit, rest)
  {
    var s := SessionOf(second);
    SizeOfOne(s, map[s := [first]]);
    assert [first] + [second] == [first, second];
    OneStep(Single(s, [first]), limit, Arrive(second), Single(s, [first, second]), rest);
  }

  /** Behind a session with two requests there is another with one. */
  function TwoAndOne(first: Request, second: Request, a: Request): Queue {
    var s, t := SessionOf(second), SessionOf(a);
    Queue([s, t], [], map[s := [first, second], t := [a]])
  }

  lemma OtherArrives(limit: int, first: Request, second: Request, a: Request, rest: seq<Op>)
    requires limit > 2 && SessionOf(first) == SessionOf(second) != SessionOf(a)
    ensures var q := Single(SessionOf(second), [first, second]);
            && Proper(q) && Proper(TwoAndOne(first, second, a))
            && Run(q, limit, [Arrive(a)] + rest) == Run(TwoAndOne(first, second, a), limit, rest)
  {
    var q := Single(SessionOf(second), [first, second]);
    SizeOfOne(SessionOf(second), q.pending);
    NewSessionJoins(q, a);
    OneStep(q, limit, Arrive(a), TwoAndOne(first, second, a), rest);
  }

  lemma FirstLeaves(first: Request, second: Request, a: Request)
    requires Proper(TwoAndOne(first, second, a)) && SessionOf(second) != SessionOf(a)
    ensures Behind(Serve(TwoAndOne(first, second, a)), a, SessionOf(second), [second])
  {
    assert [first, second][1..] == [second];
  }

  /** The situation arises from the empty queue: a session has been served once and has a second
      request, and another session came after it. */
  lemma StarvationArises(limit: int, first: Request, second: Request, a: Request)
    requires SessionOf(first) == SessionOf(second) != SessionOf(a) && limit > 2
    ensures Proper(EMPTY)
    ensures Behind(Run(EMPTY, limit, [Arrive(first), Arrive(second), Arrive(a), Take]), a, SessionOf(second), [second])
  {
    var q, rest := TwoAndOne(first, second, a), [Take] + [];
    FirstArrives(limit, first, [Arrive(second)] + ([Arrive(a)] + rest));
    SecondArrives(limit, first, second, [Arrive(a)] + rest);
    OtherArrives(limit, first, second, a, rest);
    OneStep(q, limit, Take, Serve(q), []);
    FirstLeaves(first, second, a);
    assert [Arrive(first), Arrive(second), Arrive(a), Take]
        == [Arrive(first)] + ([Arrive(second)] + ([Arrive(a)] + rest));
  }

  // ----- Which sessions can be starved -----

  /** Any number of services may all go to other sessions. */
  ghost predicate CanStarve(q: Queue, limit: int, s: Id)
    requires Proper(q)
  {
    forall k: nat :: CanPassOver(q, limit, s, k)
  }

  ghost predicate CanPassOver(q: Queue, limit: int, s: Id, k: nat)
    requires Proper(q)
  {
    exists ops :: PassesOver(q, limit, ops, s, k)
  }

  /** The session waits for the next lap, and the current one can be kept going. */
  predicate Delayed(q: Queue, limit: int, s: Id) {
    s in q.next && (Total(q) < limit || |q.lap| > 1)
  }

  function Length(id: Id): nat {
    match id
    case Empty => 0
    case Char(_, tail) => 1 + Length(tail)
  }

  /** There is always a session that the queue does not know. */
  lemma {:induction false} NewSession(known: set<Id>) returns (x: Id)
    ensures x.Char? && forall y :: y in known ==> Length(y) < Length(x)
    decreases known
  {
    if known == {} {
      x := Char('a', Empty);
    } else {
      var y :| y in known;
      x := NewSession(known - {y});
      if Length(x) <= Length(y) {
        x := Char('a', y);
      }
    }
  }

  lemma NewRequest(q: Queue) returns (r: Request)
    ensures SessionOf(r) !in q.pending
  {
    var x := NewSession(q.pending.Keys);
    r := Request(x, Empty);
    assert x !in q.pending.Keys;
  }

  lemma MovingCounts(ring: seq<Id>, pending: map<Id, seq<Request>>)
    requires ring != []
    ensures Size(ring[1..] + [ring[0]], pending) == Size(ring, pending)
  {
    assert ring == [ring[0]] + ring[1..];
    SizeSplits(ring[1..], [ring[0]], pending);
    SizeSplits([ring[0]], ring[1..], pending);
  }

  lemma LeavingCounts(ring: seq<Id>, pending: map<Id, seq<Request>>)
    requires Distinct(ring) && ring != [] && ring[0] in pending && |pending[ring[0]]| == 1
    ensures Size(ring[1..], pending - {ring[0]}) == Size(ring, pending) - 1
  {
    DequeueCounts(ring, pending, 0);
    assert ring[..0] + ring[0 + 1..] == ring[1..];
  }

  lemma TurningCounts(ring: seq<Id>, pending: map<Id, seq<Request>>)
    requires Distinct(ring) && ring != [] && ring[0] in pending && pending[ring[0]] != []
    ensures Size(ring[1..] + [ring[0]], pending[ring[0] := pending[ring[0]][1..]]) == Size(ring, pending) - 1
  {
    DequeueCounts(ring, pending, 0);
    MovingCounts(ring, pending[ring[0] := pending[ring[0]][1..]]);
  }

  lemma ServingCounts(q: Queue)
    requires Proper(q) && q.lap != []
    ensures Total(Serve(q)) == Total(q) - 1
  {
    var ring := q.Ring();
    assert ring[0] == q.lap[0];
    ServeRing(q);
    ServePending(q);
    if |q.pending[ring[0]]| == 1 {
      LeavingCounts(ring, q.pending);
    } else {
      TurningCounts(ring, q.pending);
    }
  }

  lemma JoiningCounts(q: Queue, r: Request)
    requires Proper(q) && SessionOf(r) !in q.pending
    ensures Total(Join(q, r)) == Total(q) + 1
  {
    var s, after := SessionOf(r), Join(q, r).pending;
    EnqueueCounts(q.Ring(), q.pending, r);
    assert q.lap + [s] + q.next == q.lap + ([s] + q.next);
    SizeSplits(q.lap, [s] + q.next, after);
    SizeSplits([s], q.next, after);
    SizeSplits(q.lap + q.next, [s], after);
    SizeSplits(q.lap, q.next, after);
  }

  /** With another session left in the lap, a service leaves a delayed session delayed. */
  lemma ServiceDelays(q: Queue, limit: int, s: Id)
    requires Proper(q) && s in q.next && |q.lap| > 1 && Total(q) <= limit
    ensures Proper(Serve(q)) && Delayed(Serve(q), limit, s) && Total(Serve(q)) <= limit && SessionOf(Front(q)) != s
  {
    ServeIsProper(q);
    ServingCounts(q);
    var ring := q.Ring();
    var i :| 0 <= i < |q.next| && q.next[i] == s;
    assert ring[|q.lap| + i] == s && ring[0] == q.lap[0];
  }

  /** A new session before a service keeps the lap going. */
  lemma ArrivalHelps(q: Queue, limit: int, r: Request, s: Id)
    requires Proper(q) && s in q.next && q.lap != [] && Total(q) < limit && SessionOf(r) !in q.pending
    ensures Proper(Join(q, r)) && Step(q, limit, Arrive(r)) == Join(q, r)
    ensures s in Join(q, r).next && |Join(q, r).lap| > 1 && Total(Join(q, r)) <= limit
  {
    JoinIsProper(q, r);
    JoiningCounts(q, r);
  }

  lemma PassedByTake(q: Queue, limit: int, rest: seq<Op>, s: Id, k: nat)
    requires Proper(q) && q.lap != [] && Proper(Serve(q))
    requires SessionOf(Front(q)) != s && k > 0 && PassesOver(Serve(q), limit, rest, s, k - 1)
    ensures PassesOver(q, limit, [Take] + rest, s, k)
  {
    assert ([Take] + rest)[1..] == rest;
    OneMore(Front(q), Outputs(Serve(q), limit, rest), s);
  }

  lemma {:induction false} DelayedIsPassedOver(q: Queue, limit: int, s: Id, k: nat) returns (ops: seq<Op>)
    requires Proper(q) && Delayed(q, limit, s) && Total(q) <= limit
    ensures PassesOver(q, limit, ops, s, k)
    decreases k
  {
    if k == 0 {
      ops := [];
    } else if |q.lap| > 1 {
      ServiceDelays(q, limit, s);
      var rest := DelayedIsPassedOver(Serve(q), limit, s, k - 1);
      ops := [Take] + rest;
      PassedByTake(q, limit, rest, s, k);
    } else {
      var r := NewRequest(q);
      ArrivalHelps(q, limit, r, s);
      ServiceDelays(Join(q, r), limit, s);
      var rest := DelayedIsPassedOver(Serve(Join(q, r)), limit, s, k - 1);
      ops := [Arrive(r), Take] + rest;
      PassedOnceMore(q, limit, r, rest, s, k - 1);
    }
  }

  /** A full queue with one session left in its lap must turn: then every waiting session is in the
      lap after the next service, and so is served in time. */
  lemma {:induction false} FullQueueTurns(q: Queue, limit: int, ops: seq<Op>, s: Id)
    requires Proper(q) && s in q.next && |q.lap| == 1 && Total(q) >= limit && Takes(ops) >= |q.next| + 2
    ensures IsServed(Outputs(q, limit, ops), s)
    decreases |ops|
  {
    var op, rest := ops[0], ops[1..];
    StepIsProper(q, limit, op);
    match op {
      case Take =>
        assert Outputs(q, limit, ops) == [Front(q)] + Outputs(Serve(q), limit, rest);
        assert s in Serve(q).lap && |Serve(q).lap| <= |q.next| + 1;
        AheadOfConcat(Serve(q).lap, [], s);
        ServedInLap(Serve(q), limit, rest, s);
        LaterIsServed([Front(q)], Outputs(Serve(q), limit, rest), s);
      case Arrive(r) =>
        assert Outputs(q, limit, ops) == Outputs(q, limit, rest);
        FullQueueTurns(q, limit, rest, s);
    }
  }

  /** A waiting session can be starved exactly when it waits for the next lap and the current one can
      be kept going: there is room for a newcomer, or another session before the last one. */
  lemma CanStarveIff(q: Queue, limit: int, s: Id)
    requires Proper(q) && s in q.pending && Total(q) <= limit
    ensures CanStarve(q, limit, s) <==> Delayed(q, limit, s)
  {
    WaitsInRing(q, s);
    if Delayed(q, limit, s) {
      forall k: nat
        ensures CanPassOver(q, limit, s, k)
      {
        var ops := DelayedIsPassedOver(q, limit, s, k);
      }
    } else if s in q.lap {
      LapCannotStarve(q, limit, s);
    } else {
      FullCannotStarve(q, limit, s);
    }
  }

  lemma LapCannotStarve(q: Queue, limit: int, s: Id)
    requires Proper(q) && s in q.lap
    ensures !CanStarve(q, limit, s)
  {
    var k := Ahead(q.lap, s) + 1;
    if CanPassOver(q, limit, s, k) {
      var ops :| PassesOver(q, limit, ops, s, k);
      ServedInLap(q, limit, ops, s);
    }
  }

  lemma FullCannotStarve(q: Queue, limit: int, s: Id)
    requires Proper(q) && s in q.next && |q.lap| == 1 && Total(q) >= limit
    ensures !CanStarve(q, limit, s)
  {
    var k := |q.next| + 2;
    if CanPassOver(q, limit, s, k) {
      var ops :| PassesOver(q, limit, ops, s, k);
      FullQueueTurns(q, limit, ops, s);
    }
  }

  // ----- Alternation -----

  /** Both sessions have requests waiting before and after every step. */
  ghost predicate BothStay(q: Queue, limit: int, ops: seq<Op>, a: Id, b: Id)
    requires Proper(q)
    decreases |ops|
  {
    && Waits(q, a) && Waits(q, b)
    && (ops == [] || (StepIsProper(q, limit, ops[0]); BothStay(Step(q, limit, ops[0]), limit, ops[1..], a, b)))
  }

  /** The sessions served, as far as they are `a` or `b`. */
  function Turns(outputs: seq<Request>, a: Id, b: Id): seq<Id> {
    if outputs == [] then []
    else
      var s := SessionOf(outputs[0]);
      (if s == a || s == b then [s] else []) + Turns(outputs[1..], a, b)
  }

  ghost predicate Alternates(turns: seq<Id>, first: Id, second: Id) {
    turns == [] || (turns[0] == first && Alternates(turns[1..], second, first))
  }

  /** Nothing but its own service lets `a` fall behind `b`. */
  lemma OrderIsKept(q: Queue, limit: int, op: Op, a: Id, b: Id)
    requires Proper(q) && Waits(q, a) && Waits(q, b)
    requires Ahead(q.Ring(), a) < Ahead(q.Ring(), b)
    requires Waits(Step(q, limit, op), a) && Waits(Step(q, limit, op), b)
    ensures var ring := Step(q, limit, op).Ring();
            if op.Take? && q.lap != [] && q.lap[0] == a then Ahead(ring, b) < Ahead(ring, a)
            else Ahead(ring, a) < Ahead(ring, b)
  {
    match op
    case Take =>
      WaitsInRing(q, a);
      if q.lap[0] == a {
        ServedGoesLast(q, a, b);
      } else {
        TakeAdvances(q, a);
        assert q.lap[0] != b by { assert q.Ring()[0] == q.lap[0]; }
        TakeAdvances(q, b);
      }
    case Arrive(r) =>
      if Newcomer(q, limit, op) == 1 {
        NewcomerKeepsOrder(q, r, a, b);
      }
  }

  lemma ServedGoesLast(q: Queue, a: Id, b: Id)
    requires Proper(q) && q.lap != [] && q.lap[0] == a && a != b && Waits(q, b)
    requires Waits(Serve(q), a) && Waits(Serve(q), b)
    ensures Ahead(Serve(q).Ring(), b) < Ahead(Serve(q).Ring(), a)
  {
    var ring := q.Ring();
    ServeRing(q);
    DistinctTail(ring);
    AheadOfConcat(ring[1..], [a], a);
    AheadOfConcat(ring[1..], [a], b);
  }

  lemma NewcomerKeepsOrder(q: Queue, r: Request, a: Id, b: Id)
    requires Proper(q) && Waits(q, a) && Waits(q, b) && SessionOf(r) !in q.pending
    requires Ahead(q.Ring(), a) < Ahead(q.Ring(), b)
    requires Waits(Join(q, r), a) && Waits(Join(q, r), b)
    ensures Ahead(Join(q, r).Ring(), a) < Ahead(Join(q, r).Ring(), b)
  {
    var n, q' := SessionOf(r), Join(q, r);
    assert q'.Ring() == q.lap + ([n] + q.next);
    AheadOfConcat(q.lap, q.next, a);
    AheadOfConcat(q.lap, q.next, b);
    AheadOfConcat(q.lap, [n] + q.next, a);
    AheadOfConcat(q.lap, [n] + q.next, b);
    if a !in q.lap {
      AheadOfConcat([n], q.next, a);
    }
    if b !in q.lap {
      AheadOfConcat([n], q.next, b);
    }
  }

  /** Two sessions that never run dry are served strictly in turn, whatever else arrives or is
      served in between. */
  lemma {:induction false} ServicesAlternate(q: Queue, limit: int, ops: seq<Op>, a: Id, b: Id)
    requires Proper(q) && BothStay(q, limit, ops, a, b)
    requires Ahead(q.Ring(), a) < Ahead(q.Ring(), b)
    ensures Alternates(Turns(Outputs(q, limit, ops), a, b), a, b)
    decreases |ops|
  {
    if ops != [] {
      var op, rest := ops[0], ops[1..];
      StepIsProper(q, limit, op);
      var q' := Step(q, limit, op);
      OrderIsKept(q, limit, op, a, b);
      FirstTurn(q, limit, ops, a, b);
      if op.Take? && q.lap != [] && q.lap[0] == a {
        BothStayIsSymmetric(q', limit, rest, a, b);
        ServicesAlternate(q', limit, rest, b, a);
        TurnsAreSymmetric(Outputs(q', limit, rest), a, b);
      } else {
        ServicesAlternate(q', limit, rest, a, b);
      }
    }
  }

  /** Of the two sessions only the one further ahead can be served next. */
  lemma FirstTurn(q: Queue, limit: int, ops: seq<Op>, a: Id, b: Id)
    requires Proper(q) && ops != [] && Proper(Step(q, limit, ops[0])) && Waits(q, a) && Waits(q, b)
    requires Ahead(q.Ring(), a) < Ahead(q.Ring(), b)
    ensures var later := Turns(Outputs(Step(q, limit, ops[0]), limit, ops[1..]), a, b);
            var turns := Turns(Outputs(q, limit, ops), a, b);
            if ops[0].Take? && q.lap != [] && q.lap[0] == a then turns != [] && turns[0] == a && turns[1..] == later
            else turns == later
  {
    WaitsInRing(q, a);
    var later := Outputs(Step(q, limit, ops[0]), limit, ops[1..]);
    if ops[0].Take? {
      assert Outputs(q, limit, ops) == [Front(q)] + later;
      assert ([Front(q)] + later)[1..] == later;
      assert q.lap[0] in q.Ring() && SessionOf(Front(q)) == q.lap[0];
      assert q.lap[0] != b by { assert q.Ring()[0] == q.lap[0]; }
    } else {
      assert Outputs(q, limit, ops) == later;
    }
  }

  lemma {:induction false} BothStayIsSymmetric(q: Queue, limit: int, ops: seq<Op>, a: Id, b: Id)
    requires Proper(q) && BothStay(q, limit, ops, a, b)
    ensures BothStay(q, limit, ops, b, a)
    decreases |ops|
  {
    if ops != [] {
      StepIsProper(q, limit, ops[0]);
      BothStayIsSymmetric(Step(q, limit, ops[0]), limit, ops[1..], a, b);
    }
  }

  lemma {:induction false} TurnsAreSymmetric(outputs: seq<Request>, a: Id, b: Id)
    ensures Turns(outputs, a, b) == Turns(outputs, b, a)
  {
    if outputs != [] {
      TurnsAreSymmetric(outputs[1..], a, b);
    }
  }
}
