/** The status map and the commit engine, the only writer of node statuses. */
module Commit {
  import opened Ids
  import opened Options
  import opened Statuses

  class StatusMap {
    var states: map<Id, Status>

    constructor ()
      ensures states == map[]
    {
      states := map[];
    }

    function Get(id: Id): Option<Status>
      reads this
    {
      Lookup(states, id)
    }

    /** The write that creates an entry. */
    method Init(id: Id, status: Status)
      modifies this
      ensures states == old(states)[id := status]
    {
      states := states[id := status];
    }

    /** Changes an existing entry; an unknown node is left unknown. */
    method Set(id: Id, status: Status)
      modifies this
      ensures states == if id in old(states) then old(states)[id := status] else old(states)
    {
      if id in states {
        states := states[id := status];
      }
    }

    method AllTerminal(ids: seq<Id>) returns (all: bool)
      ensures all <==> forall i :: 0 <= i < |ids| ==> ids[i] in states && IsTerminal(states[ids[i]])
    {
      for i := 0 to |ids|
        invariant forall j :: 0 <= j < i ==> ids[j] in states && IsTerminal(states[ids[j]])
      {
        if ids[i] !in states || !IsTerminal(states[ids[i]]) {
          return false;
        }
      }
      return true;
    }
  }

  datatype CommitResult = Accepted | AlreadyThere | DoubleCommit | InvalidTransition

  const CAPACITY := 1024

  /** `log` is every accepted commit; `events` is what waits in the bounded channel. */
  class Engine {
    const sm: StatusMap
    var events: seq<Event>
    ghost var log: seq<Event>
    ghost var received: seq<Event>
    ghost var dropped: nat

    ghost predicate Valid()
      reads this, sm
    {
      && ValidLog(log) && sm.states == After(log)
      && |events| <= CAPACITY
      && |received| + |events| + dropped == |log|
      && (dropped == 0 ==> received + events == log)
      && (dropped > 0 ==> |log| > CAPACITY)
    }

    constructor (sm: StatusMap)
      requires sm.states == map[]
      ensures this.sm == sm && Valid() && log == []
    {
      this.sm := sm;
      events, log, received, dropped := [], [], [], 0;
    }

    /** Moves a node to a new status, or refuses and changes nothing. */
    method Commit(id: Id, status: Status) returns (r: CommitResult)
      requires Valid()
      modifies this, sm
      ensures Valid() && received == old(received)
      ensures r.Accepted? <==> Accepts(old(sm.states), Event(id, status))
      ensures log == if r.Accepted? then old(log) + [Event(id, status)] else old(log)
      ensures sm.states == if r.Accepted? then old(sm.states)[id := status] else old(sm.states)
      ensures events == if r.Accepted? && |old(events)| < CAPACITY then old(events) + [Event(id, status)]
                        else old(events)
      ensures r.AlreadyThere? <==>
                id in old(sm.states) && IsTerminal(old(sm.states)[id]) && old(sm.states)[id] == status
      ensures r.DoubleCommit? <==>
                id in old(sm.states) && IsTerminal(old(sm.states)[id]) && old(sm.states)[id] != status
    {
      LogGrows(log, Event(id, status));
      var existing := sm.Get(id);
      if existing.None? {
        sm.Init(id, status);
        Publish(id, status);
        return Accepted;
      }
      if IsTerminal(existing.value) {
        return if existing.value == status then AlreadyThere else DoubleCommit;
      }
      if !Allowed(existing.value, status) {
        return InvalidTransition;
      }
      sm.Set(id, status);
      Publish(id, status);
      return Accepted;
    }

    /** Records the commit; the channel takes the event only if it has room. */
    method Publish(id: Id, status: Status)
      requires ValidLog(log + [Event(id, status)]) && sm.states == After(log + [Event(id, status)])
      requires |events| <= CAPACITY && |received| + |events| + dropped == |log|
      requires dropped == 0 ==> received + events == log
      requires dropped > 0 ==> |log| > CAPACITY
      modifies this
      ensures Valid() && log == old(log) + [Event(id, status)] && received == old(received)
      ensures events == if |old(events)| < CAPACITY then old(events) + [Event(id, status)] else old(events)
    {
      if |events| < CAPACITY {
        assert received + (events + [Event(id, status)]) == received + events + [Event(id, status)];
        events := events + [Event(id, status)];
      } else {
        dropped := dropped + 1;
      }
      log := log + [Event(id, status)];
    }

    /** A reader takes the next event, if there is one. */
    method Receive() returns (e: Option<Event>)
      requires Valid()
      modifies this
      ensures Valid() && log == old(log)
      ensures e.None? <==> old(events) == []
      ensures e.Some? ==> e.value == old(events)[0] && received == old(received) + [e.value]
      ensures e.None? ==> received == old(received)
    {
      if events == [] {
        return None;
      }
      e := Some(events[0]);
      received, events := received + [events[0]], events[1..];
    }

    /** With at most 256 nodes, a quarter of what the channel holds, no event is ever lost, however
        slowly the channel is read. */
    lemma NothingIsDropped(ids: seq<Id>)
      requires Valid() && About(log, ids) && |ids| <= 256
      ensures dropped == 0 && received + events == log
    {
      LogIsShort(log, ids);
    }
  }
}
