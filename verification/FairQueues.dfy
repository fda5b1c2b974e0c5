/** The fair request queue: one FIFO per session, served round-robin. */
module FairQueues {
  import opened Ids
  import opened Options

  datatype Request = Request(session: Id, body: Id)

  /** Requests without a session share one. */
  function SessionOf(r: Request): Id {
    if r.session.Empty? then FromString("_global") else r.session
  }

  /** Requests share a line exactly if they name the same session, none counting as `_global`. */
  lemma SameLineIff(a: Request, b: Request)
    ensures SessionOf(a) == SessionOf(b) <==>
              || a.session == b.session
              || (a.session.Empty? && b.session == FromString("_global"))
              || (b.session.Empty? && a.session == FromString("_global"))
    ensures a.session != Empty ==> SessionOf(a) == a.session
  {
    assert FromString("_global").Char?;
  }

  // ----- The abstract queue -----

  /** The sessions still to be served in the current lap and those waiting for the next one,
      with the pending requests of each. */
  datatype Queue = Queue(lap: seq<Id>, next: seq<Id>, pending: map<Id, seq<Request>>)
  {
    function Ring(): seq<Id> { lap + next }
  }

  ghost predicate Proper(q: Queue) {
    && Distinct(q.Ring())
    && (forall s :: s in q.Ring() <==> s in q.pending)
    && (forall s :: s in q.pending ==>
          q.pending[s] != [] && forall i :: 0 <= i < |q.pending[s]| ==> SessionOf(q.pending[s][i]) == s)
    && (q.lap == [] ==> q.next == [])
  }

  /** What waits in the line of a session was sent for it; the line `_global` also holds what was sent
      for none. */
  lemma LinesHoldOwn(q: Queue, s: Id, i: nat)
    requires Proper(q) && s in q.pending && i < |q.pending[s]|
    ensures q.pending[s][i].session == s || (q.pending[s][i].session.Empty? && s == FromString("_global"))
  {
    assert SessionOf(q.pending[s][i]) == s;
  }

  function Requests(pending: map<Id, seq<Request>>, s: Id): seq<Request> {
    if s in pending then pending[s] else []
  }

  /** A request joins its session; a new session joins the end of the current lap. */
  function Join(q: Queue, r: Request): Queue {
    var s := SessionOf(r);
    Queue(if s in q.pending then q.lap else q.lap + [s], q.next, q.pending[s := Requests(q.pending, s) + [r]])
  }

  /** When the lap is over the next one begins. */
  function Turn(q: Queue): Queue {
    if q.lap == [] then Queue(q.next, [], q.pending) else q
  }

  /** The session at the front gives up its oldest request and, if it has more, waits for the
      next lap. */
  function Serve(q: Queue): Queue
    requires Proper(q) && q.lap != []
  {
    var s := q.lap[0];
    assert s in q.Ring();
    var rest := q.pending[s][1..];
    Turn(if rest == [] then Queue(q.lap[1..], q.next, q.pending - {s})
         else Queue(q.lap[1..], q.next + [s], q.pending[s := rest]))
  }

  function Front(q: Queue): Request
    requires Proper(q) && q.lap != []
  {
    assert q.lap[0] in q.Ring();
    q.pending[q.lap[0]][0]
  }

  function Size(order: seq<Id>, pending: map<Id, seq<Request>>): nat {
    if order == [] then 0
    else (if order[0] in pending then |pending[order[0]]| else 0) + Size(order[1..], pending)
  }

  lemma JoinIsProper(q: Queue, r: Request)
    requires Proper(q)
    ensures Proper(Join(q, r))
  {
    var s, q' := SessionOf(r), Join(q, r);
    if s !in q.pending {
      DistinctInsert(q.lap, s, q.next);
      assert q'.Ring() == q.lap + [s] + q.next;
    }
    forall t
      ensures t in q'.Ring() <==> t in q'.pending
    {
      assert t in q.Ring() <==> t in q.lap || t in q.next;
      assert t in q'.Ring() <==> t in q'.lap || t in q'.next;
    }
  }

  /** Serving moves the front session to the back of the ring or takes it out. */
  lemma ServeRing(q: Queue)
    requires Proper(q) && q.lap != []
    ensures var s := q.lap[0];
            s in q.pending && Serve(q).Ring() == if |q.pending[s]| == 1 then q.Ring()[1..] else q.Ring()[1..] + [s]
  {
    assert q.lap[0] in q.Ring();
  }

  lemma ServeIsProper(q: Queue)
    requires Proper(q) && q.lap != []
    ensures Proper(Serve(q))
  {
    var s, q' := q.lap[0], Serve(q);
    var ring := q.Ring();
    ServeRing(q);
    DistinctTail(ring);
    if |q.pending[s]| != 1 {
      DistinctAppend(ring[1..], [s]);
    }
    ServePending(q);
  }

  /** What serving does to the pending requests. */
  lemma ServePending(q: Queue)
    requires Proper(q) && q.lap != []
    ensures var s := q.lap[0];
            && s in q.pending
            && Serve(q).pending == if |q.pending[s]| == 1 then q.pending - {s} else q.pending[s := q.pending[s][1..]]
  {
    assert q.lap[0] in q.Ring();
  }

  // ----- Counting -----

  lemma {:induction false} SizeSplits(a: seq<Id>, b: seq<Id>, pending: map<Id, seq<Request>>)
    ensures Size(a + b, pending) == Size(a, pending) + Size(b, pending)
  {
    if a == [] {
      assert a + b == b;
    } else {
      assert (a + b)[1..] == a[1..] + b;
      SizeSplits(a[1..], b, pending);
    }
  }

  lemma {:induction false} SizeElsewhere(order: seq<Id>, before: map<Id, seq<Request>>, after: map<Id, seq<Request>>)
    requires forall s :: s in order ==> (s in before <==> s in after) && (s in before && s in after ==>
            before[s] == after[s])
    ensures Size(order, before) == Size(order, after)
  {
    if order != [] {
      assert order[0] in order;
      SizeElsewhere(order[1..], before, after);
    }
  }

  // ----- The implementation -----

  /** The queue as laps: from the cursor to the end, then from the start to the cursor. */
  function LapsOf(order: seq<Id>, pos: nat, sessions: map<Id, seq<Request>>): Queue
    requires pos <= |order|
  {
    Queue(order[pos..], order[..pos], sessions)
  }

  /** The cursor is in range, the laps are proper, and `total` counts the requests and respects
      the limit. */
  ghost predicate ValidState(order: seq<Id>, pos: nat, sessions: map<Id, seq<Request>>, total: int, maxSize: int) {
    && (pos < |order| || (order == [] && pos == 0))
    && Proper(LapsOf(order, pos, sessions))
    && total == Size(order, sessions)
    && (total == 0 || total <= maxSize)
  }

  /** Adds the request to its session, creating the session if need be. */
  method Append(order: seq<Id>, sessions: map<Id, seq<Request>>, r: Request)
    returns (order': seq<Id>, sessions': map<Id, seq<Request>>)
    ensures order' == if SessionOf(r) in sessions then order else order + [SessionOf(r)]
    ensures sessions' == sessions[SessionOf(r) := Requests(sessions, SessionOf(r)) + [r]]
  {
    order', sessions' := order, sessions;
    var s := SessionOf(r);
    if s !in sessions {
      order' := order' + [s];
      sessions' := sessions'[s := []];
    }
    sessions' := sessions'[s := sessions'[s] + [r]];
  }

  /** The order and cursor after the session at the cursor was served. */
  function Moved(order: seq<Id>, pos: nat, last: bool): (seq<Id>, nat)
    requires pos < |order|
  {
    if last then
      var shorter := order[..pos] + order[pos + 1..];
      (shorter, if pos >= |shorter| then 0 else pos)
    else (order, if pos + 1 == |order| then 0 else pos + 1)
  }

  /** Takes the oldest request of the session at the cursor, drops the session if that was its
      last, and moves the cursor on. */
  method TakeAtCursor(order: seq<Id>, pos: nat, sessions: map<Id, seq<Request>>)
    returns (r: Request, order': seq<Id>, pos': nat, sessions': map<Id, seq<Request>>)
    requires pos < |order| && Requests(sessions, order[pos]) != []
    ensures var s := order[pos];
            && r == sessions[s][0]
            && (order', pos') == Moved(order, pos, |sessions[s]| == 1)
            && sessions' == if |sessions[s]| == 1 then sessions - {s} else sessions[s := sessions[s][1..]]
  {
    var s := order[pos];
    order', pos', sessions' := order, pos, sessions;
    r := sessions[s][0];
    sessions' := sessions'[s := sessions'[s][1..]];
    if |sessions'[s]| == 0 {
      sessions' := sessions' - {s};
      order' := order'[..pos'] + order'[pos' + 1..];
      if pos' >= |order'| {
        pos' := 0;
      }
    } else {
      NextIndex(pos', |order'|);
      pos' := (pos' + 1) % |order'|;
    }
  }

  /** `order` lists exactly the sessions with requests, once each. */
  lemma OrderListsSessions(order: seq<Id>, pos: nat, sessions: map<Id, seq<Request>>)
    requires pos <= |order| && Proper(LapsOf(order, pos, sessions))
    ensures Distinct(order)
    ensures forall s :: s in order <==> s in sessions
    ensures forall s :: s in sessions ==> sessions[s] != []
  {
    var a, b := order[..pos], order[pos..];
    assert order == a + b && LapsOf(order, pos, sessions).Ring() == b + a;
    RotateDistinct(b, a);
  }

  lemma RotateDistinct<T>(a: seq<T>, b: seq<T>)
    requires Distinct(a + b)
    ensures Distinct(b + a)
    ensures forall x :: x in a + b <==> x in b + a
  {
    forall i, j | 0 <= i < j < |b + a|
      ensures (b + a)[i] != (b + a)[j]
    {
      var i' := if i < |b| then i + |a| else i - |b|;
      var j' := if j < |b| then j + |a| else j - |b|;
      assert (b + a)[i] == (a + b)[i'] && (b + a)[j] == (a + b)[j'];
    }
  }

  class FairQueue {
    var sessions: map<Id, seq<Request>>
    var order: seq<Id>
    var pos: nat
    var total: int
    const maxSize: int

    ghost predicate Valid()
      reads this
    {
      ValidState(order, pos, sessions, total, maxSize)
    }

    ghost function Laps(): Queue
      reads this
      requires pos <= |order|
    {
      LapsOf(order, pos, sessions)
    }

    constructor (maxSize: int)
      ensures Valid() && this.maxSize == maxSize && Laps() == Queue([], [], map[])
    {
      sessions, order, pos, total := map[], [], 0, 0;
      this.maxSize := maxSize;
    }

    method Enqueue(r: Request) returns (accepted: bool)
      requires Valid()
      modifies this
      ensures Valid()
      ensures accepted <==> old(total) < maxSize
      ensures Laps() == if accepted then Join(old(Laps()), r) else old(Laps())
    {
      if total >= maxSize {
        return false;
      }
      var order', sessions' := Append(order, sessions, r);
      EnqueueKeeps(order, pos, sessions, total, maxSize, r, order', sessions');
      order, sessions, total := order', sessions', total + 1;
      accepted := true;
    }

    /** Moves the cursor to the next session that has a request, if there is any. */
    method Scan() returns (found: bool)
      requires pos < |order|
      modifies `pos
      ensures pos < |order|
      ensures found ==> Requests(sessions, order[pos]) != []
      ensures !found ==> forall i :: 0 <= i < |order| ==> Requests(sessions, order[i]) == []
      ensures Requests(sessions, order[old(pos)]) != [] ==> found && pos == old(pos)
    {
      var start := pos;
      ghost var wrapped := false;
      while true
        invariant pos < |order| && (if wrapped then pos < start else start <= pos)
        invariant forall i :: start <= i < (if wrapped then |order| else pos) ==> Requests(sessions, order[i]) == []
        invariant wrapped ==> forall i :: 0 <= i < pos ==> Requests(sessions, order[i]) == []
        decreases !wrapped, |order| - pos
      {
        if Requests(sessions, order[pos]) != [] {
          return true;
        }
        NextIndex(pos, |order|);
        wrapped := wrapped || pos + 1 == |order|;
        pos := (pos + 1) % |order|;
        if pos == start {
          break;
        }
      }
      found := false;
    }

    method Dequeue() returns (r: Option<Request>)
      requires Valid()
      modifies this
      ensures Valid()
      ensures r.None? <==> old(order) == []
      ensures r.None? ==> Laps() == old(Laps())
      ensures r.Some? ==> old(Laps()).lap != [] && r.value == Front(old(Laps())) && Laps() == Serve(old(Laps()))
    {
      ghost var q, cursor := Laps(), pos;
      ReadyWhenNotEmpty(order, pos, sessions, total, maxSize);
      if total == 0 {
        return None;
      }
      var found := Scan();
      assert pos == cursor;
      var request, order', pos', sessions' := TakeAtCursor(order, pos, sessions);
      DequeueKeeps(order, pos, sessions, total, maxSize, q, order', pos', sessions');
      order, pos, sessions, total := order', pos', sessions', total - 1;
      r := Some(request);
    }
  }

  lemma NextIndex(pos: nat, n: nat)
    requires pos < n
    ensures (pos + 1) % n == if pos + 1 == n then 0 else pos + 1
  {
  }

  lemma EnqueueKeeps(order: seq<Id>, pos: nat, sessions: map<Id, seq<Request>>, total: int, maxSize: int, r: Request,
                     order': seq<Id>, sessions': map<Id, seq<Request>>)
    requires ValidState(order, pos, sessions, total, maxSize) && total < maxSize
    requires order' == if SessionOf(r) in sessions then order else order + [SessionOf(r)]
    requires sessions' == sessions[SessionOf(r) := Requests(sessions, SessionOf(r)) + [r]]
    ensures ValidState(order', pos, sessions', total + 1, maxSize)
    ensures LapsOf(order', pos, sessions') == Join(LapsOf(order, pos, sessions), r)
  {
    OrderListsSessions(order, pos, sessions);
    JoinIsProper(LapsOf(order, pos, sessions), r);
    EnqueueCounts(order, sessions, r);
    EnqueueOrder(order, pos, sessions, r);
  }

  lemma EnqueueOrder(order: seq<Id>, pos: nat, sessions: map<Id, seq<Request>>, r: Request)
    requires Distinct(order) && pos <= |order| && forall s :: s in order <==> s in sessions
    ensures var s := SessionOf(r);
            var order' := if s in sessions then order else order + [s];
            var sessions' := sessions[s := Requests(sessions, s) + [r]];
            && Distinct(order') && (forall t :: t in order' <==> t in sessions')
            && LapsOf(order', pos, sessions') == Join(LapsOf(order, pos, sessions), r)
  {
    var s := SessionOf(r);
    if s !in sessions {
      DistinctAppend(order, [s]);
      assert (order + [s])[pos..] == order[pos..] + [s] && (order + [s])[..pos] == order[..pos];
    }
  }

  lemma ReadyWhenNotEmpty(order: seq<Id>, pos: nat, sessions: map<Id, seq<Request>>, total: int, maxSize: int)
    requires ValidState(order, pos, sessions, total, maxSize)
    ensures total == 0 <==> order == []
    ensures order != [] ==> order[pos] in sessions && Requests(sessions, order[pos]) != []
  {
  }

  /** The state after a request of the session at the cursor was taken. */
  lemma DequeueKeeps(order: seq<Id>, pos: nat, sessions: map<Id, seq<Request>>, total: int, maxSize: int,
                     q: Queue, order': seq<Id>, pos': nat, sessions': map<Id, seq<Request>>)
    requires ValidState(order, pos, sessions, total, maxSize) && order != []
    requires order[pos] in sessions && sessions[order[pos]] != []
    requires (order', pos') == Moved(order, pos, |sessions[order[pos]]| == 1)
    requires sessions' == if |sessions[order[pos]]| == 1 then sessions - {order[pos]}
                          else sessions[order[pos] := sessions[order[pos]][1..]]
    ensures ValidState(order', pos', sessions', total - 1, maxSize)
    requires q == LapsOf(order, pos, sessions)
    ensures q.lap != [] && Front(q) == sessions[order[pos]][0] && LapsOf(order', pos', sessions') == Serve(q)
  {
    var s := order[pos];
    OrderListsSessions(order, pos, sessions);
    ServeIsProper(q);
    DequeueCounts(order, sessions, pos);
    if |sessions[s]| == 1 {
      DequeueLast(order, pos, sessions);
    } else {
      DequeueOne(order, pos, sessions);
    }
  }

  lemma DequeueLast(order: seq<Id>, pos: nat, sessions: map<Id, seq<Request>>)
    requires Distinct(order) && pos < |order| && order[pos] in sessions && |sessions[order[pos]]| == 1
    requires forall s :: s in order <==> s in sessions
    requires Proper(LapsOf(order, pos, sessions))
    ensures var s := order[pos];
            var shorter := order[..pos] + order[pos + 1..];
            var at := if pos >= |shorter| then 0 else pos;
            && Distinct(shorter) && (forall t :: t in shorter <==> t in sessions - {s})
            && LapsOf(shorter, at, sessions - {s}) == Serve(LapsOf(order, pos, sessions))
  {
    DistinctDelete(order, pos);
    var shorter := order[..pos] + order[pos + 1..];
    assert shorter[..pos] == order[..pos] && shorter[pos..] == order[pos + 1..];
    assert order[pos..][1..] == order[pos + 1..];
    if pos >= |shorter| {
      assert shorter == order[..pos];
    }
  }

  lemma DequeueOne(order: seq<Id>, pos: nat, sessions: map<Id, seq<Request>>)
    requires pos < |order| && order[pos] in sessions && |sessions[order[pos]]| > 1
    requires Proper(LapsOf(order, pos, sessions))
    ensures var s := order[pos];
            var at := if pos + 1 == |order| then 0 else pos + 1;
            LapsOf(order, at, sessions[s := sessions[s][1..]]) == Serve(LapsOf(order, pos, sessions))
  {
    assert order[pos..][1..] == order[pos + 1..];
    assert order[..pos] + [order[pos]] == order[..pos + 1];
  }

  lemma EnqueueCounts(order: seq<Id>, sessions: map<Id, seq<Request>>, r: Request)
    requires Distinct(order) && forall s :: s in order <==> s in sessions
    ensures var s := SessionOf(r);
            var order' := if s in sessions then order else order + [s];
            Size(order', sessions[s := Requests(sessions, s) + [r]]) == Size(order, sessions) + 1
  {
    var s := SessionOf(r);
    var after := sessions[s := Requests(sessions, s) + [r]];
    if s in sessions {
      var i :| 0 <= i < |order| && order[i] == s;
      SplitAt(order, i);
      SizeSplits(order[..i], [s] + order[i + 1..], sessions);
      SizeSplits(order[..i], [s] + order[i + 1..], after);
      assert ([s] + order[i + 1..])[1..] == order[i + 1..];
      SizeElsewhere(order[..i], sessions, after);
      SizeElsewhere(order[i + 1..], sessions, after);
    } else {
      SizeSplits(order, [s], after);
      SizeElsewhere(order, sessions, after);
      assert Size([s], after) == 1 + Size([s][1..], after);
    }
  }

  lemma SplitAt(order: seq<Id>, i: nat)
    requires Distinct(order) && i < |order|
    ensures order == order[..i] + ([order[i]] + order[i + 1..])
    ensures order[i] !in order[..i] && order[i] !in order[i + 1..]
  {
  }

  lemma DistinctDelete(order: seq<Id>, i: nat)
    requires Distinct(order) && i < |order|
    ensures var shorter := order[..i] + order[i + 1..];
            Distinct(shorter) && forall s :: s in shorter <==> s in order && s != order[i]
  {
  }

  lemma DequeueCounts(order: seq<Id>, sessions: map<Id, seq<Request>>, i: nat)
    requires Distinct(order) && i < |order| && order[i] in sessions && sessions[order[i]] != []
    ensures var s := order[i];
            && Size(order[..i] + order[i + 1..], sessions - {s}) == Size(order, sessions) - |sessions[s]|
            && Size(order, sessions[s := sessions[s][1..]]) == Size(order, sessions) - 1
  {
    var s := order[i];
    SplitAt(order, i);
    var tail := [s] + order[i + 1..];
    assert tail[1..] == order[i + 1..];
    SizeSplits(order[..i], tail, sessions);
    var shrunk := sessions[s := sessions[s][1..]];
    SizeSplits(order[..i], tail, shrunk);
    SizeElsewhere(order[..i], sessions, shrunk);
    SizeElsewhere(order[i + 1..], sessions, shrunk);
    var fewer := sessions - {s};
    SizeSplits(order[..i], order[i + 1..], fewer);
    SizeElsewhere(order[..i], sessions, fewer);
    SizeElsewhere(order[i + 1..], sessions, fewer);
  }
}
