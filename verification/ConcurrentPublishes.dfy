/** Publish calls side by side: the filter and the mark of a delivery are atomic, what lies between
    them is not. */
module ConcurrentPublishes {
  import opened Ids
  import opened Deliveries

  /** One goroutine that publishes: the actions still to be delivered, the ids that were marked as
      delivered when it filtered, and whether the endpoint has accepted the first action but the
      delivery is not marked yet. */
  datatype Worker = Worker(todo: seq<Action>, known: set<Id>, marking: bool)

  /** `log` tells who delivered what, in the order in which the endpoint accepted. */
  datatype World = World(delivered: set<Id>, workers: seq<Worker>, log: seq<(nat, Id)>)

  /** `order` is how the sort leaves the survivors; giving up stands for failed or cancelled tries. */
  datatype Step =
    | Filter(worker: nat, actions: seq<Action>, now: int, order: seq<Action>)
    | Accept(worker: nat)
    | Mark(worker: nat)
    | GiveUp(worker: nat)

  ghost predicate Possible(w: World, s: Step) {
    s.worker < |w.workers| &&
    var me := w.workers[s.worker];
    match s
    case Filter(_, actions, now, order) =>
      me.todo == [] && multiset(order) == multiset(Survivors(actions, w.delivered, now)) && InOrder(order)
    case Mark(_) => me.todo != [] && me.marking
    case _ => me.todo != [] && !me.marking
  }

  ghost function After(w: World, s: Step): World
    requires Possible(w, s)
  {
    var i, me := s.worker, w.workers[s.worker];
    match s
    case Filter(_, _, _, order) => w.(workers := w.workers[i := Worker(order, w.delivered, false)])
    case Accept(_) => w.(workers := w.workers[i := me.(marking := true)], log := w.log + [(i, me.todo[0].id)])
    case Mark(_) =>
      World(w.delivered + {me.todo[0].id}, w.workers[i := Worker(me.todo[1..], me.known, false)], w.log)
    case GiveUp(_) => w.(workers := w.workers[i := Worker(me.todo[1..], me.known, false)])
  }

  /** `steps` is an interleaving that leads from `w` to `end`. */
  ghost predicate Leads(w: World, steps: seq<Step>, end: World)
    decreases |steps|
  {
    if steps == [] then w == end else Possible(w, steps[0]) && Leads(After(w, steps[0]), steps[1..], end)
  }

  /** `delivered` was delivered before, and `n` workers have nothing to do. */
  function Start(delivered: set<Id>, n: nat): World {
    World(delivered, seq(n, _ => Worker([], {}, false)), [])
  }

  // ----- What every interleaving keeps -----

  /** The endpoint has accepted `id` from the worker, and the worker has not marked it yet. */
  predicate IsMarking(me: Worker, id: Id) {
    me.marking && me.todo != [] && me.todo[0].id == id
  }

  /** A worker's actions have distinct ids, none of which it knew to be delivered. */
  ghost predicate Tidy(me: Worker) {
    && DistinctIds(me.todo) && (me.marking ==> me.todo != [])
    && (forall a :: a in me.todo ==> a.id !in me.known)
  }

  /** What a worker has delivered is marked or just being marked, and is not to be delivered again. */
  ghost predicate Settled(w: World, e: (nat, Id)) {
    && e.0 < |w.workers|
    && (IsMarking(w.workers[e.0], e.1) || (e.1 in w.delivered && e.1 !in IdsOf(w.workers[e.0].todo)))
  }

  ghost predicate Orderly(w: World) {
    && Distinct(w.log)
    && (forall i :: 0 <= i < |w.workers| ==> Tidy(w.workers[i]))
    && (forall k :: 0 <= k < |w.log| ==> Settled(w, w.log[k]))
  }

  lemma FilterIsTidy(w: World, s: Step)
    requires s.Filter? && Possible(w, s)
    ensures Tidy(Worker(s.order, w.delivered, false))
    ensures forall id :: id in w.delivered ==> id !in IdsOf(s.order)
  {
    var survivors := Survivors(s.actions, w.delivered, s.now);
    SurvivorsAre(s.actions, w.delivered, s.now);
    OrderingIsDistinct(s.order, survivors);
    SameElements(s.order, survivors);
  }

  lemma RestIsTidy(me: Worker)
    requires Tidy(me) && me.todo != []
    ensures Tidy(Worker(me.todo[1..], me.known, false))
    ensures IdsOf(me.todo) == IdsOf(me.todo[1..]) + {me.todo[0].id} && me.todo[0].id !in IdsOf(me.todo[1..])
  {
    assert me.todo == [me.todo[0]] + me.todo[1..];
  }

  lemma WorkersStayTidy(w: World, s: Step)
    requires Orderly(w) && Possible(w, s)
    ensures forall i :: 0 <= i < |w.workers| ==> Tidy(After(w, s).workers[i])
  {
    var me := w.workers[s.worker];
    match s
    case Filter(_, _, _, _) => FilterIsTidy(w, s);
    case Accept(_) =>
    case _ => RestIsTidy(me);
  }

  lemma StaysSettled(w: World, s: Step, e: (nat, Id))
    requires Orderly(w) && Possible(w, s) && Settled(w, e)
    ensures Settled(After(w, s), e)
  {
    if e.0 == s.worker {
      match s
      case Filter(_, _, _, _) => FilterIsTidy(w, s);
      case Accept(_) =>
      case _ => RestIsTidy(w.workers[s.worker]);
    }
  }

  /** What is first to be delivered was not delivered by this worker before. */
  lemma FirstIsNew(w: World, i: nat)
    requires Orderly(w) && i < |w.workers| && w.workers[i].todo != [] && !w.workers[i].marking
    ensures (i, w.workers[i].todo[0].id) !in w.log
  {
    var todo := w.workers[i].todo;
    assert todo[0] in todo;
    forall k | 0 <= k < |w.log|
      ensures w.log[k] != (i, todo[0].id)
    {
      assert Settled(w, w.log[k]);
    }
  }

  lemma OrderlyStep(w: World, s: Step)
    requires Orderly(w) && Possible(w, s)
    ensures Orderly(After(w, s))
  {
    var w' := After(w, s);
    WorkersStayTidy(w, s);
    if s.Accept? {
      FirstIsNew(w, s.worker);
    }
    forall k | 0 <= k < |w'.log|
      ensures Settled(w', w'.log[k])
    {
      if k < |w.log| {
        StaysSettled(w, s, w.log[k]);
      }
    }
  }

  lemma {:induction false} RunsAreOrderly(w: World, steps: seq<Step>, end: World)
    requires Orderly(w) && Leads(w, steps, end)
    ensures Orderly(end) && |end.workers| == |w.workers|
    decreases |steps|
  {
    if steps != [] {
      OrderlyStep(w, steps[0]);
      RunsAreOrderly(After(w, steps[0]), steps[1..], end);
    }
  }

  lemma RunsFromStartAreOrderly(delivered: set<Id>, n: nat, steps: seq<Step>, end: World)
    requires Leads(Start(delivered, n), steps, end)
    ensures Orderly(end) && |end.workers| == n
  {
    RunsAreOrderly(Start(delivered, n), steps, end);
  }

  // ----- How often an id is delivered -----

  /** Who delivered `id`, in order. */
  function Deliverers(log: seq<(nat, Id)>, id: Id): seq<nat> {
    if log == [] then []
    else
      var e := log[|log| - 1];
      Deliverers(log[..|log| - 1], id) + if e.1 == id then [e.0] else []
  }

  lemma {:induction false} DeliverersAre(log: seq<(nat, Id)>, id: Id)
    requires Distinct(log)
    ensures Distinct(Deliverers(log, id))
    ensures forall i :: i in Deliverers(log, id) <==> (i, id) in log
  {
    if log != [] {
      var shorter, e := log[..|log| - 1], log[|log| - 1];
      DeliverersAre(shorter, id);
      assert log == shorter + [e];
      if e.1 == id {
        DistinctAppend(Deliverers(shorter, id), [e.0]);
      }
    }
  }

  /** The numbers of `n` workers. */
  function Below(n: nat): set<nat> {
    if n == 0 then {} else Below(n - 1) + {n - 1}
  }

  lemma {:induction false} BelowIs(n: nat, i: nat)
    ensures |Below(n)| == n && (i in Below(n) <==> i < n)
  {
    if n > 0 {
      BelowIs(n - 1, i);
      BelowIs(n - 1, n - 1);
    }
  }

  /** Over any interleaving no worker delivers an id twice, so an id is delivered at most as often
      as there are workers, and at most once if there is only one. */
  lemma DeliveredOncePerWorker(delivered: set<Id>, n: nat, steps: seq<Step>, end: World, id: Id)
    requires Leads(Start(delivered, n), steps, end)
    ensures Distinct(end.log)
    ensures |Deliverers(end.log, id)| <= n
  {
    RunsFromStartAreOrderly(delivered, n, steps, end);
    DeliverersAre(end.log, id);
    forall i | i in Deliverers(end.log, id)
      ensures i in Below(n)
    {
      var k :| 0 <= k < |end.log| && end.log[k] == (i, id);
      assert Settled(end, end.log[k]);
      BelowIs(n, i);
    }
    BelowIs(n, 0);
    Pigeonhole(Deliverers(end.log, id), Below(n));
  }

  // ----- Which batches can be delivered twice -----

  /** What one publish call is given, and when it filters. */
  datatype Load = Load(actions: seq<Action>, now: int)

  /** Every worker publishes its own load. */
  ghost predicate Obeys(loads: seq<Load>, steps: seq<Step>) {
    forall k :: 0 <= k < |steps| ==> ObeysStep(loads, steps[k])
  }

  predicate ObeysStep(loads: seq<Load>, s: Step) {
    s.worker < |loads| && (s.Filter? ==> s.actions == loads[s.worker].actions && s.now == loads[s.worker].now)
  }

  /** The load has a live action with the id, which was not delivered before. */
  ghost predicate Offers(load: Load, delivered: set<Id>, id: Id) {
    exists x :: x in load.actions && Survives(x, delivered, load.now) && x.id == id
  }

  /** Two loads offer one id. */
  ghost predicate Contended(loads: seq<Load>, delivered: set<Id>, id: Id) {
    exists i, j :: 0 <= i < j < |loads| && Offers(loads[i], delivered, id) && Offers(loads[j], delivered, id)
  }

  /** What is to be delivered or was delivered by a worker, its load offers. */
  ghost predicate Proper(loads: seq<Load>, delivered: set<Id>, w: World) {
    && |w.workers| == |loads| && delivered <= w.delivered
    && (forall i, a :: 0 <= i < |loads| && a in w.workers[i].todo ==> Offers(loads[i], delivered, a.id))
    && (forall k :: 0 <= k < |w.log| ==> w.log[k].0 < |loads| && Offers(loads[w.log[k].0], delivered, w.log[k].1))
  }

  lemma FilterIsProper(loads: seq<Load>, delivered: set<Id>, w: World, s: Step)
    requires Proper(loads, delivered, w) && Possible(w, s) && s.Filter? && ObeysStep(loads, s)
    ensures forall a :: a in s.order ==> Offers(loads[s.worker], delivered, a.id)
  {
    SurvivorsAre(s.actions, w.delivered, s.now);
    SameElements(s.order, Survivors(s.actions, w.delivered, s.now));
  }

  lemma ProperStep(loads: seq<Load>, delivered: set<Id>, w: World, s: Step)
    requires Proper(loads, delivered, w) && Possible(w, s) && ObeysStep(loads, s)
    ensures Proper(loads, delivered, After(w, s))
  {
    var me := w.workers[s.worker];
    match s
    case Filter(_, _, _, _) => FilterIsProper(loads, delivered, w, s);
    case Accept(_) => assert me.todo[0] in me.todo;
    case _ =>
  }

  lemma {:induction false} RunsAreProper(loads: seq<Load>, delivered: set<Id>, w: World, steps: seq<Step>, end: World)
    requires Proper(loads, delivered, w) && Leads(w, steps, end) && Obeys(loads, steps)
    ensures Proper(loads, delivered, end)
    decreases |steps|
  {
    if steps != [] {
      ProperStep(loads, delivered, w, steps[0]);
      RunsAreProper(loads, delivered, After(w, steps[0]), steps[1..], end);
    }
  }

  /** An id that was delivered twice is offered by two loads. */
  lemma RepeatedIsContended(loads: seq<Load>, delivered: set<Id>, steps: seq<Step>, end: World, id: Id)
    requires Leads(Start(delivered, |loads|), steps, end) && Obeys(loads, steps) && |Deliverers(end.log, id)| > 1
    ensures Contended(loads, delivered, id)
  {
    RunsFromStartAreOrderly(delivered, |loads|, steps, end);
    RunsAreProper(loads, delivered, Start(delivered, |loads|), steps, end);
    DeliverersAre(end.log, id);
    var i, j := Deliverers(end.log, id)[0], Deliverers(end.log, id)[1];
    assert i in Deliverers(end.log, id) && j in Deliverers(end.log, id);
    var k, l :| 0 <= k < |end.log| && 0 <= l < |end.log| && end.log[k] == (i, id) && end.log[l] == (j, id);
    if j < i {
      assert Offers(loads[j], delivered, id) && Offers(loads[i], delivered, id);
    }
  }

  // ----- How they are delivered twice -----

  lemma {:induction false} LeadsOn(a: World, x: seq<Step>, b: World, y: seq<Step>, c: World)
    requires Leads(a, x, b) && Leads(b, y, c)
    ensures Leads(a, x + y, c)
    decreases |x|
  {
    if x == [] {
      assert x + y == y;
    } else {
      assert (x + y)[1..] == x[1..] + y;
      LeadsOn(After(a, x[0]), x[1..], b, y, c);
    }
  }

  lemma OneStep(w: World, s: Step)
    requires Possible(w, s)
    ensures Leads(w, [s], After(w, s))
  {
    assert [s][1..] == [];
    assert Leads(After(w, s), [], After(w, s));
  }

  /** Worker `i` delivers `n` actions at the first try. */
  function Drain(i: nat, n: nat): seq<Step> {
    if n == 0 then [] else [Accept(i)] + [Mark(i)] + Drain(i, n - 1)
  }

  /** `after` is `before` with the worker's actions delivered. */
  ghost predicate Drained(before: World, i: nat, after: World) {
    && i < |before.workers| == |after.workers|
    && (forall j :: 0 <= j < |before.workers| && j != i ==> after.workers[j] == before.workers[j])
    && (forall e :: e in before.log ==> e in after.log)
    && (forall a :: a in before.workers[i].todo ==> (i, a.id) in after.log)
  }

  lemma DeliversFirst(w: World, i: nat) returns (next: World)
    requires i < |w.workers| && w.workers[i].todo != [] && !w.workers[i].marking
    ensures Leads(w, [Accept(i)] + [Mark(i)], next)
    ensures next.workers == w.workers[i := Worker(w.workers[i].todo[1..], w.workers[i].known, false)]
    ensures next.log == w.log + [(i, w.workers[i].todo[0].id)]
  {
    var middle := After(w, Accept(i));
    next := After(middle, Mark(i));
    OneStep(w, Accept(i));
    OneStep(middle, Mark(i));
    LeadsOn(w, [Accept(i)], middle, [Mark(i)], next);
  }

  lemma {:induction false} Drains(w: World, i: nat) returns (end: World)
    requires i < |w.workers| && !w.workers[i].marking
    ensures Leads(w, Drain(i, |w.workers[i].todo|), end) && Drained(w, i, end)
    decreases |w.workers[i].todo|
  {
    var todo := w.workers[i].todo;
    if todo == [] {
      end := w;
    } else {
      var next := DeliversFirst(w, i);
      end := Drains(next, i);
      LeadsOn(w, [Accept(i)] + [Mark(i)], next, Drain(i, |todo| - 1), end);
      DrainedToo(w, i, next, end);
    }
  }

  lemma DrainedToo(w: World, i: nat, next: World, end: World)
    requires i < |w.workers| && w.workers[i].todo != [] && Drained(next, i, end)
    requires next.workers == w.workers[i := Worker(w.workers[i].todo[1..], w.workers[i].known, false)]
    requires next.log == w.log + [(i, w.workers[i].todo[0].id)]
    ensures Drained(w, i, end)
  {
    var todo := w.workers[i].todo;
    assert next.log[|w.log|] == (i, todo[0].id);
    forall a | a in todo
      ensures (i, a.id) in end.log
    {
      assert todo == [todo[0]] + todo[1..];
    }
  }

  /** Some ordering by issue time exists. */
  lemma {:induction false} CanBeOrdered(actions: seq<Action>) returns (order: seq<Action>)
    ensures multiset(order) == multiset(actions) && InOrder(order)
  {
    if actions == [] {
      order := [];
    } else {
      var rest := CanBeOrdered(actions[1..]);
      order := Inserted(rest, actions[0]);
      assert actions == [actions[0]] + actions[1..];
    }
  }

  lemma {:induction false} Inserted(order: seq<Action>, a: Action) returns (r: seq<Action>)
    requires InOrder(order)
    ensures multiset(r) == multiset(order) + multiset{a} && InOrder(r)
    ensures r != [] && (r[0] == a || (order != [] && r[0] == order[0]))
  {
    if order == [] || a.issuedAt <= order[0].issuedAt {
      r := [a] + order;
    } else {
      var rest := Inserted(order[1..], a);
      r := [order[0]] + rest;
      assert order == [order[0]] + order[1..];
    }
  }

  ghost predicate HasId(actions: seq<Action>, id: Id) {
    exists a :: a in actions && a.id == id
  }

  /** A worker with nothing to do filters its load, and then has an action with every id it offers. */
  lemma Filters(loads: seq<Load>, w: World, i: nat, id: Id) returns (s: Step)
    requires i < |loads| == |w.workers| && w.workers[i].todo == [] && Offers(loads[i], w.delivered, id)
    ensures s.Filter? && s.worker == i && Possible(w, s) && ObeysStep(loads, s)
    ensures HasId(s.order, id)
  {
    var load := loads[i];
    var survivors := Survivors(load.actions, w.delivered, load.now);
    var order := CanBeOrdered(survivors);
    s := Filter(i, load.actions, load.now, order);
    SurvivorsAre(load.actions, w.delivered, load.now);
    SameElements(order, survivors);
    var x :| x in load.actions && Survives(x, w.delivered, load.now) && x.id == id;
    var a :| a in survivors && a.id == id;
  }

  /** No try fails or is cancelled. */
  ghost predicate NeverGivesUp(steps: seq<Step>) {
    forall k :: 0 <= k < |steps| ==> !steps[k].GiveUp?
  }

  lemma {:induction false} DrainsObey(loads: seq<Load>, i: nat, n: nat)
    requires i < |loads|
    ensures Obeys(loads, Drain(i, n)) && NeverGivesUp(Drain(i, n))
  {
    if n > 0 {
      DrainsObey(loads, i, n - 1);
    }
  }

  /** Both workers filter before either delivers. */
  lemma BothFilter(loads: seq<Load>, delivered: set<Id>, id: Id, i: nat, j: nat) returns (f: Step, g: Step, w: World)
    requires i < j < |loads| && Offers(loads[i], delivered, id) && Offers(loads[j], delivered, id)
    ensures Leads(Start(delivered, |loads|), [f] + [g], w) && f.Filter? && g.Filter?
    ensures ObeysStep(loads, f) && ObeysStep(loads, g)
    ensures |w.workers| == |loads| && HasId(w.workers[i].todo, id) && HasId(w.workers[j].todo, id)
    ensures !w.workers[i].marking && !w.workers[j].marking
  {
    var start := Start(delivered, |loads|);
    f := Filters(loads, start, i, id);
    var next := After(start, f);
    g := Filters(loads, next, j, id);
    w := After(next, g);
    OneStep(start, f);
    OneStep(next, g);
    LeadsOn(start, [f], next, [g], w);
  }

  /** Then both deliver all they have. */
  lemma BothDrain(w: World, id: Id, i: nat, j: nat) returns (n: nat, m: nat, end: World)
    requires i < |w.workers| && j < |w.workers| && i != j && !w.workers[i].marking && !w.workers[j].marking
    requires HasId(w.workers[i].todo, id) && HasId(w.workers[j].todo, id)
    ensures Leads(w, Drain(i, n) + Drain(j, m), end) && (i, id) in end.log && (j, id) in end.log
  {
    n, m := |w.workers[i].todo|, |w.workers[j].todo|;
    var a, b :| a in w.workers[i].todo && a.id == id && b in w.workers[j].todo && b.id == id;
    var middle := Drains(w, i);
    assert (i, a.id) in middle.log;
    end := Drains(middle, j);
    LeadsOn(w, Drain(i, n), middle, Drain(j, m), end);
  }

  lemma RepeatingObeys(loads: seq<Load>, f: Step, g: Step, i: nat, n: nat, j: nat, m: nat)
    requires f.Filter? && g.Filter? && ObeysStep(loads, f) && ObeysStep(loads, g) && i < |loads| && j < |loads|
    ensures Obeys(loads, [f] + [g] + (Drain(i, n) + Drain(j, m)))
    ensures NeverGivesUp([f] + [g] + (Drain(i, n) + Drain(j, m)))
  {
    DrainsObey(loads, i, n);
    DrainsObey(loads, j, m);
  }

  lemma ContendedIsRepeated(loads: seq<Load>, delivered: set<Id>, id: Id) returns (steps: seq<Step>, end: World)
    requires Contended(loads, delivered, id)
    ensures Leads(Start(delivered, |loads|), steps, end) && Obeys(loads, steps) && |Deliverers(end.log, id)| > 1
    ensures NeverGivesUp(steps)
  {
    var i, j :| 0 <= i < j < |loads| && Offers(loads[i], delivered, id) && Offers(loads[j], delivered, id);
    var f, g, w := BothFilter(loads, delivered, id, i, j);
    var n, m;
    n, m, end := BothDrain(w, id, i, j);
    LeadsOn(Start(delivered, |loads|), [f] + [g], w, Drain(i, n) + Drain(j, m), end);
    steps := [f] + [g] + (Drain(i, n) + Drain(j, m));
    RepeatingObeys(loads, f, g, i, n, j, m);
    RunsFromStartAreOrderly(delivered, |loads|, steps, end);
    TwoDeliverers(end.log, id, i, j);
  }

  lemma TwoDeliverers(log: seq<(nat, Id)>, id: Id, i: nat, j: nat)
    requires Distinct(log) && i != j && (i, id) in log && (j, id) in log
    ensures |Deliverers(log, id)| > 1
  {
    DeliverersAre(log, id);
    var k :| 0 <= k < |Deliverers(log, id)| && Deliverers(log, id)[k] == i;
    var l :| 0 <= l < |Deliverers(log, id)| && Deliverers(log, id)[l] == j;
  }

  /** Publish calls side by side can deliver an id more than once exactly when two of them are given
      live actions with that id and it was not delivered before; the endpoint need not fail. */
  lemma RepeatsIff(loads: seq<Load>, delivered: set<Id>, id: Id)
    ensures (exists steps, end ::
               Leads(Start(delivered, |loads|), steps, end) && Obeys(loads, steps) && |Deliverers(end.log, id)| > 1)
            <==> Contended(loads, delivered, id)
  {
    if Contended(loads, delivered, id) {
      var steps, end := ContendedIsRepeated(loads, delivered, id);
    }
    if steps, end :| Leads(Start(delivered, |loads|), steps, end) && Obeys(loads, steps)
                     && |Deliverers(end.log, id)| > 1 {
      RepeatedIsContended(loads, delivered, steps, end, id);
    }
  }

  // ----- The smallest case -----

  lemma LeadsFirst(w: World, s: Step, next: World, rest: seq<Step>, end: World)
    requires Possible(w, s) && After(w, s) == next && Leads(next, rest, end)
    ensures Leads(w, [s] + rest, end)
  {
    assert ([s] + rest)[1..] == rest;
  }

  /** Both workers hold the action; `a` and `b` tell who is marking it. */
  function BothHold(x: Action, a: bool, b: bool, log: seq<(nat, Id)>): World {
    World({}, [Worker([x], {}, a), Worker([x], {}, b)], log)
  }

  lemma SurvivesAlone(a: Action, delivered: set<Id>, now: int)
    requires Survives(a, delivered, now)
    ensures Survivors([a], delivered, now) == [a]
  {
    assert [a][..0] == [];
    assert Survivors([], delivered, now) == [];
  }

  /** The first worker has filtered, the second not yet. */
  function OneHolds(x: Action): World {
    World({}, [Worker([x], {}, false), Worker([], {}, false)], [])
  }

  lemma FirstFilters(a: Action, now: int)
    requires !IsExpired(a, now)
    ensures Possible(Start({}, 2), Filter(0, [a], now, [a]))
    ensures After(Start({}, 2), Filter(0, [a], now, [a])) == OneHolds(a)
  {
    SurvivesAlone(a, {}, now);
    assert Start({}, 2).workers == [Worker([], {}, false), Worker([], {}, false)];
  }

  lemma SecondFilters(a: Action, now: int)
    requires !IsExpired(a, now)
    ensures Possible(OneHolds(a), Filter(1, [a], now, [a]))
    ensures After(OneHolds(a), Filter(1, [a], now, [a])) == BothHold(a, false, false, [])
  {
    SurvivesAlone(a, {}, now);
  }

  lemma DeliverersGrow(log: seq<(nat, Id)>, i: nat, id: Id)
    ensures Deliverers(log + [(i, id)], id) == Deliverers(log, id) + [i]
  {
    assert (log + [(i, id)])[..|log|] == log;
  }

  lemma BothAccept(a: Action) returns (steps: seq<Step>, end: World)
    ensures steps == [Accept(0)] + ([Accept(1)] + [])
    ensures Leads(BothHold(a, false, false, []), steps, end) && Deliverers(end.log, a.id) == [0, 1]
  {
    var none, first := BothHold(a, false, false, []), BothHold(a, true, false, [] + [(0, a.id)]);
    end := BothHold(a, true, true, [] + [(0, a.id)] + [(1, a.id)]);
    assert Leads(end, [], end);
    LeadsFirst(first, Accept(1), end, [], end);
    LeadsFirst(none, Accept(0), first, [Accept(1)] + [], end);
    DeliverersGrow([], 0, a.id);
    DeliverersGrow([] + [(0, a.id)], 1, a.id);
    steps := [Accept(0)] + ([Accept(1)] + []);
  }

  /** Two workers that both filter before either marks deliver the same action twice. */
  lemma TwoDeliverTwice(a: Action, now: int) returns (steps: seq<Step>, end: World)
    requires !IsExpired(a, now)
    ensures Leads(Start({}, 2), steps, end) && Deliverers(end.log, a.id) == [0, 1]
  {
    var f, g := Filter(0, [a], now, [a]), Filter(1, [a], now, [a]);
    var accepts;
    accepts, end := BothAccept(a);
    SecondFilters(a, now);
    LeadsFirst(OneHolds(a), g, BothHold(a, false, false, []), accepts, end);
    FirstFilters(a, now);
    LeadsFirst(Start({}, 2), f, OneHolds(a), [g] + accepts, end);
    steps := [f] + ([g] + accepts);
  }
}
