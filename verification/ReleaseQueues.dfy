/** The release queue and the loop that works it off. */
module ReleaseQueues {
  import opened Ids
  import opened Retrying
  import opened ReleaseRuns

  type Entries = seq<ReleaseEntry>

  const SHA_LENGTH := 8

  function Truncate(s: Id, n: nat): Id {
    if n == 0 || s.Empty? then Empty else Char(s.head, Truncate(s.tail, n - 1))
  }

  /** The version and the first characters of the commit. */
  function ReleaseId(version: Id, commit: Id): Id {
    Concat(version, Char('@', Truncate(commit, SHA_LENGTH)))
  }

  /** The first position with the given release id, or the length. */
  function First(entries: Entries, id: Id): (i: nat)
    ensures i <= |entries|
    ensures i < |entries| ==> entries[i].id == id
  {
    if entries == [] then 0
    else
      var i := First(entries[..|entries| - 1], id);
      if i < |entries| - 1 || entries[i].id == id then i else |entries|
  }

  lemma {:induction false} FirstIsFirst(entries: Entries, id: Id, k: nat)
    requires k < |entries| && entries[k].id == id
    ensures First(entries, id) <= k
  {
    if k < |entries| - 1 {
      FirstIsFirst(entries[..|entries| - 1], id, k);
    }
  }

  /** No earlier entry has the same release id. */
  predicate IsFirst(entries: Entries, i: nat)
    requires i < |entries|
  {
    First(entries, entries[i].id) == i
  }

  ghost predicate DistinctIds(entries: Entries) {
    forall i :: 0 <= i < |entries| ==> IsFirst(entries, i)
  }

  function Finished(e: ReleaseEntry, success: bool, now: int, jitter: real, message: Id): ReleaseEntry {
    if success then Succeeded(e, now) else Missed(e, now, jitter, message)
  }

  /** Completion goes to the first entry with the id, whichever entry was dequeued. */
  function FinishFirst(entries: Entries, id: Id, success: bool, now: int, jitter: real, message: Id): Entries {
    var i := First(entries, id);
    if i == |entries| then entries else entries[i := Finished(entries[i], success, now, jitter, message)]
  }

  class ReleaseQueue {
    var entries: Entries

    constructor ()
      ensures entries == []
    {
      entries := [];
    }

    /** Loads stored entries; those waiting are due at once. */
    method Recover(stored: Entries)
      modifies this
      ensures entries == Next(State(stored, {}), Restart).entries
    {
      var recovered := stored;
      for i := 0 to |stored|
        invariant |recovered| == |stored|
        invariant forall k :: 0 <= k < |stored| ==> recovered[k] == if k < i then Recovered(stored[k]) else stored[k]
      {
        if recovered[i].status.PendingExternal? || recovered[i].status.Queued? {
          recovered := recovered[i := recovered[i].(status := PendingExternal)];
        }
      }
      entries := recovered;
    }

    method Enqueue(version: Id, commit: Id, key: Id, now: int, jitter: real) returns (entry: ReleaseEntry)
      modifies this
      ensures entry.id == ReleaseId(version, commit) && entry.version == version && entry.commit == commit
              && entry.key == key
      ensures entry.retry == NewRetryState(now, jitter) && entry.updatedAt == now
      ensures Enabled(State(old(entries), {}), ReleaseRuns.Enqueue(entry))
      ensures entries == Next(State(old(entries), {}), ReleaseRuns.Enqueue(entry)).entries
    {
      entry := ReleaseEntry(ReleaseId(version, commit), commit, version, key, PendingExternal,
                            NewRetryState(now, jitter), now, Empty);
      entries := entries + [entry];
    }

    /** Takes the first entry that is due when it is looked at; `clock(k)` is the time then. */
    method Dequeue(clock: nat -> int) returns (found: bool, entry: ReleaseEntry, ghost at: nat)
      modifies this
      ensures found ==>
                && at < |old(entries)| == |entries| && entry == entries[at] && IsDue(old(entries)[at], clock(at))
                && entries == Next(State(old(entries), {}), Take(at, clock(at))).entries
                && (forall k :: 0 <= k < at ==> !IsDue(old(entries)[k], clock(k)))
      ensures !found ==> entries == old(entries) && forall k :: 0 <= k < |entries| ==> !IsDue(entries[k], clock(k))
    {
      for i := 0 to |entries|
        invariant entries == old(entries)
        invariant forall k :: 0 <= k < i ==> !IsDue(entries[k], clock(k))
      {
        var e := entries[i];
        if e.status.PendingExternal? || (e.status.Queued? && IsRetryDue(e.retry, clock(i))) {
          entries := entries[i := e.(status := Publishing, updatedAt := clock(i))];
          return true, entries[i], i;
        }
      }
      found, at := false, 0;
      entry := ReleaseEntry(Empty, Empty, Empty, Empty, PendingExternal, RetryState(0, 0, false), 0, Empty);
    }

    method Complete(id: Id, success: bool, message: Id, now: int, jitter: real)
      modifies this
      ensures entries == FinishFirst(old(entries), id, success, now, jitter, message)
    {
      for i := 0 to |entries|
        invariant entries == old(entries)
        invariant forall k :: 0 <= k < i ==> entries[k].id != id
      {
        var e := entries[i];
        if e.id == id {
          FirstIsFirst(entries, id, i);
          if success {
            entries := entries[i := e.(status := Completed, updatedAt := now)];
          } else {
            var rs := AdvanceRetryState(e.retry, now, jitter);
            var status := if rs.finalized then FinalFailed else Queued;
            entries := entries[i := e.(retry := rs, lastError := message, status := status, updatedAt := now)];
          }
          return;
        }
      }
    }
  }
}
