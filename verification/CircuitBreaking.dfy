/** The circuit breaker: two atomic sections around a call that may take any time. */
module CircuitBreaking {

  datatype Circuit = Closed | HalfOpen | Open

  datatype Config = Config(threshold: int, latency: int, recovery: int, maxProbes: int)

  const DEFAULTS := Config(5, 5000, 30000, 3)

  /** Settings that are not positive fall back to the defaults. */
  function Normalised(c: Config): (n: Config)
    ensures Positive(n) && (Positive(c) ==> n == c)
  {
    Config(
      if c.threshold <= 0 then DEFAULTS.threshold else c.threshold,
      if c.latency <= 0 then DEFAULTS.latency else c.latency,
      if c.recovery <= 0 then DEFAULTS.recovery else c.recovery,
      if c.maxProbes <= 0 then DEFAULTS.maxProbes else c.maxProbes)
  }

  predicate Positive(c: Config) {
    c.threshold > 0 && c.latency > 0 && c.recovery > 0 && c.maxProbes > 0
  }

  /** The breaker's fields: `fails` in a row, the time of the last one, and the probes admitted
      since the circuit was last half-opened. */
  datatype Breaker = Breaker(circuit: Circuit, fails: nat, lastFailure: int, sent: nat)

  const INITIAL := Breaker(Closed, 0, 0, 0)

  /** How a call ended: with an error, successfully but late, or successfully in time. */
  datatype Ending = Failed | Slow | Prompt

  function EndingOf(c: Config, success: bool, elapsed: int): Ending {
    if !success then Failed else if elapsed >= c.latency then Slow else Prompt
  }

  // ----- The two sections as steps -----

  /** An open circuit half-opens once the recovery time has passed. */
  function Wake(c: Config, b: Breaker, now: int): Breaker {
    if b.circuit.Open? && now - b.lastFailure > c.recovery then b.(circuit := HalfOpen, sent := 0) else b
  }

  predicate Admits(c: Config, b: Breaker, now: int) {
    var w := Wake(c, b, now);
    w.circuit.Closed? || (w.circuit.HalfOpen? && w.sent < c.maxProbes)
  }

  function Admitted(c: Config, b: Breaker, now: int): Breaker {
    var w := Wake(c, b, now);
    if w.circuit.HalfOpen? && w.sent < c.maxProbes then w.(sent := w.sent + 1) else w
  }

  function Ended(c: Config, b: Breaker, ending: Ending, now: int): Breaker {
    match ending
    case Prompt => b.(circuit := if b.circuit.HalfOpen? then Closed else b.circuit, fails := 0)
    case Slow =>
      var n := b.fails + 1;
      b.(fails := n, lastFailure := now, circuit := if n >= c.threshold then Open else b.circuit)
    case Failed =>
      var n := b.fails + 1;
      if b.circuit.HalfOpen? then Breaker(Open, n, now, 0)
      else b.(fails := n, lastFailure := now, circuit := if n >= c.threshold then Open else b.circuit)
  }

  class CircuitBreaker {
    var circuit: Circuit
    var consecutiveFail: nat
    var lastFailureTime: int
    var halfOpenSent: nat
    const config: Config

    function Fields(): Breaker
      reads this
    {
      Breaker(circuit, consecutiveFail, lastFailureTime, halfOpenSent)
    }

    constructor (config: Config)
      ensures Fields() == INITIAL && this.config == Normalised(config)
      ensures this.config.threshold == if config.threshold <= 0 then 5 else config.threshold
      ensures this.config.latency == if config.latency <= 0 then 5000 else config.latency
      ensures this.config.recovery == if config.recovery <= 0 then 30000 else config.recovery
      ensures this.config.maxProbes == if config.maxProbes <= 0 then 3 else config.maxProbes
    {
      circuit, consecutiveFail, lastFailureTime, halfOpenSent := Closed, 0, 0, 0;
      this.config := Normalised(config);
    }

    /** The first section: rejects the call or lets it through. */
    method Admit(now: int) returns (admitted: bool)
      requires Positive(config)
      modifies this
      ensures admitted == Admits(config, old(Fields()), now)
      ensures Fields() == Admitted(config, old(Fields()), now)
    {
      var state := circuit;
      if state.Open? {
        if now - lastFailureTime > config.recovery {
          circuit := HalfOpen;
          halfOpenSent := 0;
          state := HalfOpen;
        } else {
          return false;
        }
      }
      if state.HalfOpen? && halfOpenSent >= config.maxProbes {
        return false;
      }
      if state.HalfOpen? {
        halfOpenSent := halfOpenSent + 1;
      }
      admitted := true;
    }

    /** The second section: records how an admitted call ended. */
    method Finish(success: bool, elapsed: int, now: int)
      modifies this
      ensures Fields() == Ended(config, old(Fields()), EndingOf(config, success, elapsed), now)
    {
      if !success {
        consecutiveFail := consecutiveFail + 1;
        lastFailureTime := now;
        if circuit.HalfOpen? {
          circuit := Open;
          halfOpenSent := 0;
        } else if consecutiveFail >= config.threshold {
          circuit := Open;
        }
        return;
      }
      if elapsed >= config.latency {
        consecutiveFail := consecutiveFail + 1;
        lastFailureTime := now;
        if consecutiveFail >= config.threshold {
          circuit := Open;
        }
        return;
      }
      if circuit.HalfOpen? {
        circuit := Closed;
      }
      consecutiveFail := 0;
    }
  }

  // ----- Interleaved calls -----

  /** What the breaker sees, in the order of its critical sections: a call arrives, or the call
      that arrived at `arrived` is back after `elapsed`. */
  datatype Event =
    | Arrive(now: int)
    | Return(arrived: int, success: bool, elapsed: int, now: int)

  /** The breaker, the time of the last section, and the arrival times of the calls that it has let
      through and that are not back yet. */
  datatype World = World(b: Breaker, now: int, calls: multiset<int>)

  /** Time does not run backwards, only a call that is out comes back, and it has not taken longer
      than it has been out. */
  predicate Possible(w: World, e: Event) {
    w.now <= e.now && (e.Return? ==> e.arrived in w.calls && 0 <= e.elapsed <= e.now - e.arrived)
  }

  function After(c: Config, w: World, e: Event): World
    requires Possible(w, e)
  {
    match e
    case Arrive(now) =>
      World(Admitted(c, w.b, now), now, if Admits(c, w.b, now) then w.calls + multiset{now} else w.calls)
    case Return(arrived, success, elapsed, now) =>
      World(Ended(c, w.b, EndingOf(c, success, elapsed), now), now, w.calls - multiset{arrived})
  }

  /** `events` is an interleaving of arrivals and returns that leads from `w` to `end`. */
  ghost predicate Leads(c: Config, w: World, events: seq<Event>, end: World)
    decreases |events|
  {
    if events == [] then w == end
    else Possible(w, events[0]) && Leads(c, After(c, w, events[0]), events[1..], end)
  }

  const START := World(INITIAL, 0, multiset{})

  lemma {:induction false} LeadsOn(c: Config, a: World, x: seq<Event>, b: World, y: seq<Event>, d: World)
    requires Leads(c, a, x, b) && Leads(c, b, y, d)
    ensures Leads(c, a, x + y, d)
    decreases |x|
  {
    if x == [] {
      assert x + y == y;
    } else {
      assert (x + y)[1..] == x[1..] + y;
      LeadsOn(c, After(c, a, x[0]), x[1..], b, y, d);
    }
  }

  // ----- What the breaker has seen -----

  /** A call that came back with an error, or too late. */
  predicate IsBad(c: Config, e: Event) {
    e.Return? && (!e.success || e.elapsed >= c.latency)
  }

  /** When the last bad call of a run came back; zero if none has. */
  function LastBad(c: Config, events: seq<Event>): int {
    if events == [] then 0
    else
      var e := events[|events| - 1];
      if IsBad(c, e) then e.now else LastBad(c, events[..|events| - 1])
  }

  /** How many bad calls have come back since the last good one. */
  function BadInARow(c: Config, events: seq<Event>): nat {
    if events == [] then 0
    else
      var e, before := events[|events| - 1], BadInARow(c, events[..|events| - 1]);
      if IsBad(c, e) then before + 1 else if e.Return? then 0 else before
  }

  lemma {:induction false} LastEvent(c: Config, w: World, events: seq<Event>, end: World) returns (before: World)
    requires Leads(c, w, events, end) && events != []
    ensures Leads(c, w, events[..|events| - 1], before)
    ensures Possible(before, events[|events| - 1]) && After(c, before, events[|events| - 1]) == end
    decreases |events|
  {
    if |events| == 1 {
      before := w;
    } else {
      before := LastEvent(c, After(c, w, events[0]), events[1..], end);
      assert events[1..][..|events| - 2] == events[..|events| - 1][1..];
    }
  }

  /** Over every interleaving the breaker's counter is the number of bad calls in a row, and its
      clock shows when the last bad call came back. */
  lemma {:induction false} HistoryTells(c: Config, events: seq<Event>, w: World)
    requires Leads(c, START, events, w)
    ensures w.b.fails == BadInARow(c, events) && w.b.lastFailure == LastBad(c, events)
  {
    if events != [] {
      var before := LastEvent(c, START, events, w);
      HistoryTells(c, events[..|events| - 1], before);
    }
  }

  /** Over every interleaving: an open breaker rejects each call that comes within the recovery time
      after the last bad call has come back, and changes nothing. It lets the first later one
      through, and is half-open then, with that one probe sent. */
  lemma OpenRejects(c: Config, events: seq<Event>, w: World, now: int, next: World)
    requires Positive(c) && Leads(c, START, events, w) && w.b.circuit.Open? && Leads(c, w, [Arrive(now)], next)
    ensures now <= LastBad(c, events) + c.recovery ==> next == World(w.b, now, w.calls)
    ensures now > LastBad(c, events) + c.recovery ==>
              && next.calls == w.calls + multiset{now}
              && next.b == Breaker(HalfOpen, BadInARow(c, events), LastBad(c, events), 1)
  {
    HistoryTells(c, events, w);
    assert Leads(c, After(c, w, Arrive(now)), [], next);
  }

  /** So the breaker stays open for the whole recovery time, whoever calls, unless a call that was
      still out comes back. */
  lemma {:induction false} StaysOpen(c: Config, events: seq<Event>, w: World, more: seq<Event>, end: World)
    requires Positive(c) && Leads(c, START, events, w) && w.b.circuit.Open? && Leads(c, w, more, end)
    requires forall k :: 0 <= k < |more| ==> more[k].Arrive? && more[k].now <= LastBad(c, events) + c.recovery
    ensures end.b == w.b && end.calls == w.calls
  {
    if more != [] {
      var last := |more| - 1;
      var before := LastEvent(c, w, more, end);
      StaysOpen(c, events, w, more[..last], before);
      HistoryTells(c, events, w);
      assert more[last].Arrive?;
    }
  }

  /** A closed breaker lets every call through and changes nothing; a half-open one lets calls through
      until all its probes are spent. */
  lemma OthersAdmit(c: Config, w: World, now: int, next: World)
    requires Positive(c) && !w.b.circuit.Open? && Leads(c, w, [Arrive(now)], next)
    ensures w.b.circuit.Closed? || w.b.sent < c.maxProbes <==> next.calls == w.calls + multiset{now}
    ensures !(w.b.circuit.Closed? || w.b.sent < c.maxProbes) <==> next.calls == w.calls
    ensures next.b == if w.b.circuit.HalfOpen? && w.b.sent < c.maxProbes then w.b.(sent := w.b.sent + 1) else w.b
  {
    assert Leads(c, After(c, w, Arrive(now)), [], next);
    assert |w.calls + multiset{now}| == |w.calls| + 1;
  }

  /** Over every interleaving: a call that comes back opens a closed breaker exactly if with it as many
      bad calls in a row have come back as the threshold says. A half-open one it opens if it is an
      error, or late and that many; a good one closes it. An open breaker stays open. */
  lemma ReturnsDecide(c: Config, events: seq<Event>, w: World, e: Event, next: World)
    requires Positive(c) && Leads(c, START, events, w) && e.Return? && Leads(c, w, [e], next)
    ensures var many := BadInARow(c, events + [e]) >= c.threshold;
            && (next.b.circuit.Open? <==>
                  w.b.circuit.Open? || (IsBad(c, e) && (many || (w.b.circuit.HalfOpen? && !e.success))))
            && (next.b.circuit.HalfOpen? <==> w.b.circuit.HalfOpen? && IsBad(c, e) && e.success && !many)
  {
    HistoryTells(c, events, w);
    assert (events + [e])[..|events|] == events;
    assert Leads(c, After(c, w, e), [], next);
  }

  /** How many arrivals of a run are let through while the circuit is half-open. */
  ghost function Probes(c: Config, w: World, events: seq<Event>): nat
    decreases |events|
  {
    if events == [] || !Possible(w, events[0]) then 0
    else
      var next := After(c, w, events[0]);
      (if events[0].Arrive? && Admits(c, w.b, events[0].now) && next.b.circuit.HalfOpen? then 1 else 0)
        + Probes(c, next, events[1..])
  }

  /** The circuit is half-open before and after every event. */
  ghost predicate StaysHalfOpen(c: Config, w: World, events: seq<Event>)
    decreases |events|
  {
    w.b.circuit.HalfOpen? &&
    (events == [] || (Possible(w, events[0]) && StaysHalfOpen(c, After(c, w, events[0]), events[1..])))
  }

  /** Between half-opening and the next change of state, at most `maxProbes` calls get through,
      however many are attempted: the probes so far and those of the rest of the episode together
      never exceed the limit. */
  lemma {:induction false} ProbesAreLimited(c: Config, w: World, events: seq<Event>)
    requires Positive(c) && w.b.sent <= c.maxProbes && StaysHalfOpen(c, w, events)
    ensures w.b.sent + Probes(c, w, events) <= c.maxProbes
    decreases |events|
  {
    if events != [] {
      ProbesAreLimited(c, After(c, w, events[0]), events[1..]);
    }
  }

  // ----- One call at a time -----

  /** A whole call without any other in between. */
  function Call(c: Config, b: Breaker, call: CallInfo): Breaker {
    var admitted := Admitted(c, b, call.arrival);
    if Admits(c, b, call.arrival) then Ended(c, admitted, EndingOf(c, call.success, call.elapsed), call.back)
    else admitted
  }

  /** At rest the circuit is closed exactly when the failures in a row are below the threshold. */
  ghost predicate AtRest(c: Config, b: Breaker) {
    !b.circuit.HalfOpen? && (b.circuit.Closed? <==> b.fails < c.threshold)
  }

  datatype CallInfo = CallInfo(arrival: int, success: bool, elapsed: int, back: int)

  function Calls(c: Config, b: Breaker, calls: seq<CallInfo>): Breaker
    decreases |calls|
  {
    if calls == [] then b
    else Calls(c, Call(c, b, calls[0]), calls[1..])
  }

  /** With one call at a time a single probe decides every half-open episode, so the breaker is
      always at rest between calls. */
  lemma {:induction false} SequentialCallsRest(c: Config, b: Breaker, calls: seq<CallInfo>)
    requires Positive(c) && AtRest(c, b)
    ensures AtRest(c, Calls(c, b, calls))
    decreases |calls|
  {
    if calls != [] {
      SequentialCallsRest(c, Call(c, b, calls[0]), calls[1..]);
    }
  }

  // ----- When the breaker locks itself up -----

  /** Half-open, all probes used up, and no call out that could change anything. */
  ghost predicate Wedged(c: Config, w: World) {
    w.b.circuit.HalfOpen? && w.b.sent >= c.maxProbes && w.calls == multiset{}
  }

  /** A wedged breaker rejects every call for ever, however much time passes. */
  lemma {:induction false} WedgedForEver(c: Config, w: World, events: seq<Event>, end: World)
    requires Wedged(c, w) && Leads(c, w, events, end)
    ensures Wedged(c, end) && end.b == w.b
    ensures forall i :: 0 <= i < |events| ==> events[i].Arrive? && !Admits(c, w.b, events[i].now)
    decreases |events|
  {
    if events != [] {
      assert After(c, w, events[0]) == w.(now := events[0].now);
      WedgedForEver(c, After(c, w, events[0]), events[1..], end);
      forall i | 0 <= i < |events|
        ensures events[i].Arrive? && !Admits(c, w.b, events[i].now)
      {
        if i > 0 {
          assert events[i] == events[1..][i - 1];
        }
      }
    }
  }

  ghost predicate CanWedge(c: Config) {
    exists events, end :: Leads(c, START, events, end) && Wedged(c, end)
  }

  /** While half-open, the probes sent are covered by calls out and late returns since; and with
      the failure count still at the threshold, no probe has come back yet. */
  ghost predicate Covered(c: Config, w: World) {
    w.b.circuit.HalfOpen? ==>
      && 1 <= w.b.sent <= |w.calls| + w.b.fails
      && (w.b.fails >= c.threshold ==> w.b.sent <= |w.calls|)
  }

  lemma CoveredStep(c: Config, w: World, e: Event)
    requires Positive(c) && Covered(c, w) && Possible(w, e)
    ensures Covered(c, After(c, w, e))
  {
  }

  lemma {:induction false} AlwaysCovered(c: Config, w: World, events: seq<Event>, end: World)
    requires Positive(c) && Covered(c, w) && Leads(c, w, events, end)
    ensures Covered(c, end)
    decreases |events|
  {
    if events != [] {
      CoveredStep(c, w, events[0]);
      AlwaysCovered(c, After(c, w, events[0]), events[1..], end);
    }
  }

  ghost predicate Follows(c: Config, w: World, e: Event, next: World) {
    Possible(w, e) && After(c, w, e) == next
  }

  function Repeat(e: Event, n: nat): seq<Event> {
    if n == 0 then [] else [e] + Repeat(e, n - 1)
  }

  /** The listed worlds follow one another by the same event. */
  ghost predicate Chain(c: Config, w: World, e: Event, n: nat, end: World, worlds: seq<World>) {
    && |worlds| == n + 1 && worlds[0] == w && worlds[n] == end
    && (forall i :: 0 <= i < n ==> Follows(c, worlds[i], e, worlds[i + 1]))
  }

  lemma {:induction false} ChainLeads(c: Config, w: World, e: Event, n: nat, end: World, worlds: seq<World>)
    requires Chain(c, w, e, n, end, worlds)
    ensures Leads(c, w, Repeat(e, n), end)
    decreases n
  {
    if n > 0 {
      var rest := worlds[1..];
      forall i | 0 <= i < n - 1
        ensures Follows(c, rest[i], e, rest[i + 1])
      {
        assert rest[i] == worlds[i + 1];
      }
      ChainLeads(c, worlds[1], e, n - 1, end, rest);
      assert Follows(c, worlds[0], e, worlds[0 + 1]);
      assert Repeat(e, n)[1..] == Repeat(e, n - 1);
    }
  }

  lemma OneEvent(c: Config, w: World, e: Event, end: World)
    requires Follows(c, w, e, end)
    ensures Leads(c, w, [e], end)
  {
    assert [e][1..] == [];
    assert Leads(c, end, [], end);
  }

  /** `n` calls that arrived at `time`. */
  function Out(time: int, n: nat): multiset<int> {
    multiset{}[time := n]
  }

  lemma OneMoreOut(time: int, n: nat)
    ensures Out(time, n) + multiset{time} == Out(time, n + 1)
    ensures Out(time, n + 1) - multiset{time} == Out(time, n)
    ensures time in Out(time, n + 1)
  {
  }

  lemma NoneOut(time: int)
    ensures Out(time, 0) == multiset{}
  {
  }

  /** `n` calls that arrived at time zero are out. */
  function Loaded(n: nat): World {
    World(INITIAL, 0, Out(0, n))
  }

  lemma OneArrives(c: Config, n: nat)
    ensures Follows(c, Loaded(n), Arrive(0), Loaded(n + 1))
  {
    OneMoreOut(0, n);
  }

  lemma ManyArrive(c: Config, n: nat)
    ensures Leads(c, Loaded(0), Repeat(Arrive(0), n), Loaded(n))
  {
    var worlds := seq(n + 1, i requires 0 <= i <= n => Loaded(i));
    forall i | 0 <= i < n
      ensures Follows(c, worlds[i], Arrive(0), worlds[i + 1])
    {
      OneArrives(c, i);
    }
    ChainLeads(c, Loaded(0), Arrive(0), n, Loaded(n), worlds);
  }

  function FailsNow(): Event {
    Return(0, false, 0, 0)
  }

  /** After `fails` failures at time zero, with `out` calls of that time still out. */
  function Failing(c: Config, fails: nat, out: nat): World {
    World(Breaker(if fails >= c.threshold then Open else Closed, fails, 0, 0), 0, Out(0, out))
  }

  lemma OneFails(c: Config, fails: nat, out: nat)
    requires Positive(c) && fails < c.threshold
    ensures Follows(c, Failing(c, fails, out + 1), FailsNow(), Failing(c, fails + 1, out))
  {
    OneMoreOut(0, out);
  }

  /** Failures up to the one that opens the circuit; one call is still out. */
  lemma ManyFail(c: Config)
    requires Positive(c)
    ensures Leads(c, Failing(c, 0, c.threshold + 1), Repeat(FailsNow(), c.threshold), Failing(c, c.threshold, 1))
  {
    var n := c.threshold;
    var worlds := seq(n + 1, i requires 0 <= i <= n => Failing(c, i, n + 1 - i));
    forall i | 0 <= i < n
      ensures Follows(c, worlds[i], FailsNow(), worlds[i + 1])
    {
      OneFails(c, i, n - i);
      assert worlds[i] == Failing(c, i, n - i + 1) && worlds[i + 1] == Failing(c, i + 1, n - i);
    }
    ChainLeads(c, Failing(c, 0, n + 1), FailsNow(), n, Failing(c, n, 1), worlds);
  }

  /** Open, with no failure counted and no call out. */
  function Forgiven(): World {
    World(Breaker(Open, 0, 0, 0), 0, multiset{})
  }

  /** One call outlives the failures that open the circuit and resets their count. */
  lemma OpensWithoutFailures(c: Config) returns (events: seq<Event>)
    requires Positive(c)
    ensures Leads(c, START, events, Forgiven())
  {
    var t, back := c.threshold, Return(0, true, 0, 0);
    var a, b := Repeat(Arrive(0), t + 1), Repeat(FailsNow(), t);
    NoneOut(0);
    OneMoreOut(0, 0);
    ManyArrive(c, t + 1);
    ManyFail(c);
    OneEvent(c, Failing(c, t, 1), back, Forgiven());
    LeadsOn(c, START, a, Failing(c, 0, t + 1), b, Failing(c, t, 1));
    LeadsOn(c, START, a + b, Failing(c, t, 1), [back], Forgiven());
    events := a + b + [back];
  }

  /** Half-open, with `n` probes sent at `time` and all of them out. */
  function Probing(time: int, n: nat): World {
    World(Breaker(HalfOpen, 0, 0, n), time, Out(time, n))
  }

  lemma OneProbes(c: Config, time: int, n: nat)
    requires n < c.maxProbes
    ensures Follows(c, Probing(time, n), Arrive(time), Probing(time, n + 1))
  {
    OneMoreOut(time, n);
  }

  lemma Wakes(c: Config)
    requires Positive(c)
    ensures Follows(c, Forgiven(), Arrive(c.recovery + 1), Probing(c.recovery + 1, 1))
  {
    NoneOut(c.recovery + 1);
    OneMoreOut(c.recovery + 1, 0);
  }

  lemma OthersFollow(c: Config, time: int)
    requires Positive(c)
    ensures Leads(c, Probing(time, 1), Repeat(Arrive(time), c.maxProbes - 1), Probing(time, c.maxProbes))
  {
    var m := c.maxProbes;
    var worlds := seq(m, i requires 0 <= i < m => Probing(time, i + 1));
    forall i | 0 <= i < m - 1
      ensures Follows(c, worlds[i], Arrive(time), worlds[i + 1])
    {
      OneProbes(c, time, i + 1);
    }
    ChainLeads(c, Probing(time, 1), Arrive(time), m - 1, Probing(time, m), worlds);
  }

  /** The first probe wakes the breaker; the others follow at once. */
  lemma AllProbe(c: Config) returns (events: seq<Event>)
    requires Positive(c)
    ensures Leads(c, Forgiven(), events, Probing(c.recovery + 1, c.maxProbes))
  {
    var m, wake := c.maxProbes, c.recovery + 1;
    OthersFollow(c, wake);
    Wakes(c);
    OneEvent(c, Forgiven(), Arrive(wake), Probing(wake, 1));
    events := [Arrive(wake)] + Repeat(Arrive(wake), m - 1);
    LeadsOn(c, Forgiven(), [Arrive(wake)], Probing(wake, 1), Repeat(Arrive(wake), m - 1), Probing(wake, m));
  }

  /** A probe that was sent at `time` and took exactly the latency limit. */
  function Late(c: Config, time: int): Event {
    Return(time, true, c.latency, time + c.latency)
  }

  /** Of all probes, sent at `time`, `n` have come back late. */
  function Waiting(c: Config, time: int, n: nat): World
    requires n <= c.maxProbes
  {
    var now := time + c.latency;
    if n == 0 then Probing(time, c.maxProbes)
    else World(Breaker(HalfOpen, n, now, c.maxProbes), now, Out(time, c.maxProbes - n))
  }

  lemma OneComesLate(c: Config, time: int, n: nat)
    requires Positive(c) && n < c.maxProbes < c.threshold
    ensures Follows(c, Waiting(c, time, n), Late(c, time), Waiting(c, time, n + 1))
  {
    var w, out := Waiting(c, time, n), c.maxProbes - n - 1;
    OneMoreOut(time, out);
    assert w.calls == Out(time, out + 1) && w.b.fails == n;
    assert Ended(c, w.b, Slow, time + c.latency) == Breaker(HalfOpen, n + 1, time + c.latency, c.maxProbes);
  }

  lemma AllComeLate(c: Config, time: int)
    requires Positive(c) && c.maxProbes < c.threshold
    ensures Leads(c, Probing(time, c.maxProbes), Repeat(Late(c, time), c.maxProbes), Waiting(c, time, c.maxProbes))
  {
    var m := c.maxProbes;
    var worlds := seq(m + 1, i requires 0 <= i <= m => Waiting(c, time, i));
    forall i | 0 <= i < m
      ensures Follows(c, worlds[i], Late(c, time), worlds[i + 1])
    {
      OneComesLate(c, time, i);
    }
    ChainLeads(c, Waiting(c, time, 0), Late(c, time), m, Waiting(c, time, m), worlds);
  }

  predicate IsLate(c: Config, e: Event) {
    e.Return? && e.success && e.elapsed >= c.latency
  }

  /** Late successes below the threshold leave a half-open breaker half-open with its probes spent,
      however many come back and whenever they were sent. */
  lemma {:induction false} LateReturnsDecideNothing(c: Config, w: World, events: seq<Event>, end: World)
    requires Leads(c, w, events, end) && w.b.circuit.HalfOpen?
    requires (forall k :: 0 <= k < |events| ==> IsLate(c, events[k])) && w.b.fails + |events| < c.threshold
    ensures end.b.circuit.HalfOpen? && end.b.sent == w.b.sent && end.b.fails == w.b.fails + |events|
    ensures |end.calls| == |w.calls| - |events|
    decreases |events|
  {
    if events != [] {
      LateReturnsDecideNothing(c, After(c, w, events[0]), events[1..], end);
    }
  }

  /** One call outlives the failures that open the circuit; when the recovery time is over all
      probes go out, and all of them come back late. */
  lemma WedgeExists(c: Config)
    requires Positive(c) && c.maxProbes < c.threshold
    ensures CanWedge(c)
  {
    var m, wake := c.maxProbes, c.recovery + 1;
    var before := OpensWithoutFailures(c);
    var probes := AllProbe(c);
    AllComeLate(c, wake);
    NoneOut(wake);
    LeadsOn(c, START, before, Forgiven(), probes, Probing(wake, m));
    LeadsOn(c, START, before + probes, Probing(wake, m), Repeat(Late(c, wake), m), Waiting(c, wake, m));
    assert Wedged(c, Waiting(c, wake, m));
  }

  /** The breaker can lock itself up for ever exactly when fewer probes are allowed than failures
      are needed to open the circuit; the default settings are of that kind. */
  lemma WedgesIff(c: Config)
    requires Positive(c)
    ensures CanWedge(c) <==> c.maxProbes < c.threshold
    ensures CanWedge(DEFAULTS)
  {
    WedgeExists(DEFAULTS);
    if c.maxProbes < c.threshold {
      WedgeExists(c);
    } else if CanWedge(c) {
      var events, end :| Leads(c, START, events, end) && Wedged(c, end);
      AlwaysCovered(c, START, events, end);
      assert false;
    }
  }
}
