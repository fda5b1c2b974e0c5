/** The journal and the trace collector, which only listen to the engine's events. */
module Observers {
  import opened Ids
  import opened Options
  import opened Statuses

  // ----- Journal -----

  datatype Entry = Entry(sequence: nat, node: Id, from: Option<Status>, to: Status)

  /** The status last journaled for `n`. */
  function LastTo(entries: seq<Entry>, n: Id): Option<Status> {
    if entries == [] then None
    else if entries[|entries| - 1].node == n then Some(entries[|entries| - 1].to)
    else LastTo(entries[..|entries| - 1], n)
  }

  function EntryFor(entries: seq<Entry>, e: Event): Entry {
    Entry(|entries|, e.node, LastTo(entries, e.node), e.status)
  }

  /** The journal that a sequence of events leaves behind. */
  function Journaled(events: seq<Event>): seq<Entry> {
    if events == [] then []
    else
      var entries := Journaled(events[..|events| - 1]);
      entries + [EntryFor(entries, events[|events| - 1])]
  }

  /** The entries of one node, in order. */
  function EntriesOf(entries: seq<Entry>, n: Id): seq<Entry> {
    if entries == [] then []
    else
      var e := entries[|entries| - 1];
      EntriesOf(entries[..|entries| - 1], n) + if e.node == n then [e] else []
  }

  /** The last status of every journaled node. */
  function LastWrites(entries: seq<Entry>): map<Id, Status> {
    if entries == [] then map[]
    else
      var e := entries[|entries| - 1];
      LastWrites(entries[..|entries| - 1])[e.node := e.to]
  }

  class Journal {
    var entries: seq<Entry>
    var sequence: nat

    ghost predicate Valid()
      reads this
    {
      sequence == |entries|
    }

    constructor ()
      ensures Valid() && entries == []
    {
      entries, sequence := [], 0;
    }

    /** Appends an entry whose earlier status is inferred by searching backwards. */
    method Record(e: Event)
      requires Valid()
      modifies this
      ensures Valid() && entries == old(entries) + [EntryFor(old(entries), e)]
    {
      var from := None;
      var i := |entries| - 1;
      assert entries[..i + 1] == entries;
      while i >= 0
        invariant -1 <= i < |entries|
        invariant from.None?
        invariant LastTo(entries, e.node) == LastTo(entries[..i + 1], e.node)
      {
        assert entries[..i + 1][..i] == entries[..i];
        if entries[i].node == e.node {
          from := Some(entries[i].to);
          break;
        }
        i := i - 1;
      }
      entries := entries + [Entry(sequence, e.node, from, e.status)];
      sequence := sequence + 1;
    }

    /** Records everything a closed channel delivers. */
    method Subscribe(events: seq<Event>)
      requires Valid() && entries == []
      modifies this
      ensures Valid() && entries == Journaled(events)
    {
      for i := 0 to |events|
        invariant Valid() && entries == Journaled(events[..i])
      {
        assert events[..i + 1][..i] == events[..i];
        Record(events[i]);
      }
      assert events[..|events|] == events;
    }

    method TerminalStatus(n: Id) returns (s: Option<Status>)
      ensures s == LastTo(entries, n)
    {
      var i := |entries| - 1;
      assert entries[..i + 1] == entries;
      while i >= 0
        invariant -1 <= i < |entries|
        invariant LastTo(entries, n) == LastTo(entries[..i + 1], n)
      {
        assert entries[..i + 1][..i] == entries[..i];
        if entries[i].node == n {
          return Some(entries[i].to);
        }
        i := i - 1;
      }
      return None;
    }

    method NodeHistory(n: Id) returns (history: seq<Entry>)
      ensures history == EntriesOf(entries, n)
    {
      history := [];
      for i := 0 to |entries|
        invariant history == EntriesOf(entries[..i], n)
      {
        assert entries[..i + 1][..i] == entries[..i];
        if entries[i].node == n {
          history := history + [entries[i]];
        }
      }
      assert entries[..|entries|] == entries;
    }
  }

  /** Reads the terminal statuses back from the journal's lines; the last line of a node wins. */
  method LoadTerminals(lines: seq<Entry>) returns (terminals: map<Id, Status>)
    ensures terminals == LastWrites(lines)
  {
    terminals := map[];
    for i := 0 to |lines|
      invariant terminals == LastWrites(lines[..i])
    {
      assert lines[..i + 1][..i] == lines[..i];
      terminals := terminals[lines[i].node := lines[i].to];
    }
    assert lines[..|lines|] == lines;
  }

  /** The journal forgets nothing: from any events it recovers the current statuses, and what it
      infers as a node's earlier status is the true one. */
  lemma {:induction false} JournalIsFaithful(events: seq<Event>, n: Id)
    ensures LastWrites(Journaled(events)) == After(events)
    ensures LastTo(Journaled(events), n) == Lookup(After(events), n)
    ensures |Journaled(events)| == |events|
  {
    if events != [] {
      var shorter, e := events[..|events| - 1], events[|events| - 1];
      JournalIsFaithful(shorter, n);
      var entries := Journaled(shorter);
      assert (entries + [EntryFor(entries, e)])[..|entries|] == entries;
    }
  }

  /** Entry `k` carries the event, its position and the node's true earlier status. */
  lemma {:induction false} EntryIsTrue(events: seq<Event>, k: nat)
    requires k < |events|
    ensures |Journaled(events)| == |events|
    ensures var n := events[k].node;
            Journaled(events)[k] == Entry(k, n, Lookup(After(events[..k]), n), events[k].status)
  {
    var shorter := events[..|events| - 1];
    JournalIsFaithful(events, events[k].node);
    JournalIsFaithful(shorter, events[|events| - 1].node);
    if k < |shorter| {
      EntryIsTrue(shorter, k);
      assert shorter[..k] == events[..k];
    }
  }

  /** The statuses journaled for a node are exactly its commit history. */
  lemma {:induction false} NodeHistoryIsHistory(events: seq<Event>, n: Id)
    ensures var h := EntriesOf(Journaled(events), n);
            |h| == |History(events, n)| && forall i :: 0 <= i < |h| ==>
                h[i].node == n && h[i].to == History(events, n)[i]
  {
    if events != [] {
      var shorter, e := events[..|events| - 1], events[|events| - 1];
      NodeHistoryIsHistory(shorter, n);
      var entries := Journaled(shorter);
      assert (entries + [EntryFor(entries, e)])[..|entries|] == entries;
    }
  }

  // ----- Trace -----

  /** The trace of each seen node, as far as its terminal status goes. */
  type Traces = map<Id, Option<Status>>

  function Traced(traces: Traces, e: Event): Traces {
    if IsTerminal(e.status) then traces[e.node := Some(e.status)]
    else if e.node in traces then traces
    else traces[e.node := None]
  }

  function TracesAfter(events: seq<Event>): Traces {
    if events == [] then map[] else Traced(TracesAfter(events[..|events| - 1]), events[|events| - 1])
  }

  class Collector {
    var traces: Traces
    var sequence: nat

    constructor ()
      ensures traces == map[] && sequence == 0
    {
      traces, sequence := map[], 0;
    }

    /** Creates the trace on first sight; every status but BLOCKED also emits a trace event. */
    method Process(e: Event)
      modifies this
      ensures traces == Traced(old(traces), e)
      ensures sequence == old(sequence) + if e.status.Blocked? then 0 else 1
    {
      if e.node !in traces {
        traces := traces[e.node := None];
      }
      match e.status {
        case Success =>
          traces := traces[e.node := Some(Success)];
          sequence := sequence + 1;
        case Failure =>
          traces := traces[e.node := Some(Failure)];
          sequence := sequence + 1;
        case Skipped =>
          traces := traces[e.node := Some(Skipped)];
          sequence := sequence + 1;
        case Terminated =>
          traces := traces[e.node := Some(Terminated)];
          sequence := sequence + 1;
        case Running =>
          sequence := sequence + 1;
        case Ready =>
          sequence := sequence + 1;
        case Blocked =>
      }
    }

    method Subscribe(events: seq<Event>)
      requires traces == map[]
      modifies this
      ensures traces == TracesAfter(events)
    {
      for i := 0 to |events|
        invariant traces == TracesAfter(events[..i])
      {
        assert events[..i + 1][..i] == events[..i];
        Process(events[i]);
      }
      assert events[..|events|] == events;
    }
  }

  /** On every log the engine can write, the trace knows exactly the terminal statuses. */
  lemma {:induction false} TraceKnowsTerminals(log: seq<Event>)
    requires ValidLog(log)
    ensures TracesAfter(log).Keys == After(log).Keys
    ensures forall n :: n in After(log) ==>
              TracesAfter(log)[n] == if IsTerminal(After(log)[n]) then Some(After(log)[n]) else None
  {
    if log != [] {
      TraceKnowsTerminals(log[..|log| - 1]);
    }
  }

  /** The last terminal status that the events report of a node. */
  function LastEnding(events: seq<Event>, n: Id): Option<Status> {
    if events == [] then None
    else
      var e := events[|events| - 1];
      if e.node == n && IsTerminal(e.status) then Some(e.status) else LastEnding(events[..|events| - 1], n)
  }

  /** Whatever events it is fed, the collector knows every node that one is about, and of each the last
      terminal status reported, if any. */
  lemma {:induction false} TraceIsLastEnding(events: seq<Event>, n: Id)
    ensures n in TracesAfter(events) <==> exists i :: 0 <= i < |events| && events[i].node == n
    ensures n in TracesAfter(events) ==> TracesAfter(events)[n] == LastEnding(events, n)
    ensures n !in TracesAfter(events) ==> LastEnding(events, n) == None
  {
    if events != [] {
      var last := |events| - 1;
      TraceIsLastEnding(events[..last], n);
      if i :| 0 <= i < last && events[i].node == n {
        assert events[..last][i].node == n;
      }
      if i :| 0 <= i < last && events[..last][i].node == n {
        assert events[i].node == n;
      }
    }
  }
}
