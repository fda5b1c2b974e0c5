/** Working off the release queue against a remote that may fail or answer anything. */
module Orchestrating {
  import opened Ids
  import opened Retrying
  import opened ReleaseRuns
  import opened ReleaseQueues

  /** What the remote answers in one round. Lookups may miss what is there. */
  datatype Answers = Answers(recovered: bool, access: bool, tagSeen: bool, tagMade: bool, releaseSeen: bool,
                             releaseMade: bool)

  /** The remote itself. A lookup does not invent anything, a successful creation is there, and a
      creation that is reported as failed may still have taken effect. */
  class GitHub {
    var tags: set<Id>
    var releases: set<Id>

    constructor ()
      ensures tags == {} && releases == {}
    {
      tags, releases := {}, {};
    }

    method TagExists(version: Id, seen: bool) returns (there: bool)
      ensures there <==> seen && version in tags
    {
      there := seen && version in tags;
    }

    method ReleaseExists(version: Id, seen: bool) returns (there: bool)
      ensures there <==> seen && version in releases
    {
      there := seen && version in releases;
    }

    method CreateTag(version: Id, made: bool) returns (ok: bool)
      modifies this
      ensures ok == made && releases == old(releases)
      ensures tags == old(tags) || tags == old(tags) + {version}
      ensures made ==> version in tags
    {
      ok := made;
      var effect: bool := *;
      if made || effect {
        tags := tags + {version};
      }
    }

    method CreateRelease(version: Id, made: bool) returns (ok: bool)
      modifies this
      ensures ok == made && tags == old(tags)
      ensures releases == old(releases) || releases == old(releases) + {version}
      ensures made ==> version in releases
    {
      ok := made;
      var effect: bool := *;
      if made || effect {
        releases := releases + {version};
      }
    }
  }

  // ----- Termination -----

  /** How many more rounds an entry can cost: one for being in line, one for each retry left. */
  function Cost(e: ReleaseEntry): nat {
    (if IsWaiting(e) then 1 else 0) + (if e.retry.attempts < MAX_ATTEMPTS then MAX_ATTEMPTS - e.retry.attempts else 0)
  }

  function TotalCost(entries: Entries): nat {
    if entries == [] then 0 else TotalCost(entries[..|entries| - 1]) + Cost(entries[|entries| - 1])
  }

  lemma {:induction false} CostOfUpdate(entries: Entries, i: nat, e: ReleaseEntry)
    requires i < |entries|
    ensures TotalCost(entries[i := e]) == TotalCost(entries) - Cost(entries[i]) + Cost(e)
  {
    var last := |entries| - 1;
    if i == last {
      assert entries[i := e][..last] == entries[..last];
    } else {
      assert entries[i := e][..last] == entries[..last][i := e];
      CostOfUpdate(entries[..last], i, e);
    }
  }

  /** The queue after one round of the loop: take position `at`, complete its id. */
  function RoundOf(entries: Entries, at: nat, takenAt: int, ok: bool, now: int, jitter: real, message: Id): Entries
    requires at < |entries|
  {
    FinishFirst(entries[at := Taken(entries[at], takenAt)], entries[at].id, ok, now, jitter, message)
  }

  /** Every round is paid for, even when it completes another entry than it took. */
  lemma RoundCosts(entries: Entries, at: nat, takenAt: int, ok: bool, now: int, jitter: real, message: Id)
    requires at < |entries| && IsWaiting(entries[at])
    ensures TotalCost(RoundOf(entries, at, takenAt, ok, now, jitter, message)) < TotalCost(entries)
  {
    var taken := entries[at := Taken(entries[at], takenAt)];
    CostOfUpdate(entries, at, taken[at]);
    var i := First(taken, entries[at].id);
    if i < |taken| {
      CostOfUpdate(taken, i, Finished(taken[i], ok, now, jitter, message));
    }
  }

  // ----- What the loop keeps, for any queue -----

  lemma {:induction false} FirstKeepsIds(a: Entries, b: Entries, id: Id)
    requires |a| == |b| && forall i :: 0 <= i < |a| ==> a[i].id == b[i].id
    ensures First(a, id) == First(b, id)
  {
    if a != [] {
      FirstKeepsIds(a[..|a| - 1], b[..|b| - 1], id);
    }
  }

  ghost predicate SameReleases(a: Entries, b: Entries) {
    |a| == |b| && forall i :: 0 <= i < |a| ==> SameRelease(a[i], b[i])
  }

  /** Entries behind another with their id are never completed; the others are never left in flight. */
  ghost predicate Progressed(before: Entries, after: Entries) {
    && SameReleases(before, after)
    && forall i :: 0 <= i < |before| ==> EntryProgressed(before, i, after[i])
  }

  predicate EntryProgressed(before: Entries, i: nat, e: ReleaseEntry)
    requires i < |before|
  {
    if IsFirst(before, i) then e.status.Publishing? ==> before[i].status.Publishing?
    else e == before[i] || e.status.Publishing?
  }

  lemma RoundKeepsProgress(start: Entries, entries: Entries, at: nat, takenAt: int, ok: bool, now: int, jitter: real,
                           message: Id)
    requires Progressed(start, entries) && at < |entries| && IsWaiting(entries[at])
    ensures Progressed(start, RoundOf(entries, at, takenAt, ok, now, jitter, message))
  {
    var taken := entries[at := Taken(entries[at], takenAt)];
    var id := entries[at].id;
    FirstKeepsIds(start, taken, id);
    FirstIsFirst(taken, id, at);
    var i := First(taken, id);
    var after := RoundOf(entries, at, takenAt, ok, now, jitter, message);
    forall k | 0 <= k < |start|
      ensures SameRelease(start[k], after[k]) && EntryProgressed(start, k, after[k])
    {
      assert SameRelease(start[k], entries[k]) && EntryProgressed(start, k, entries[k]);
    }
  }

  // ----- Duplicate release ids -----

  /** A round settles the entry it took exactly when no earlier entry has its id. Otherwise that
      entry stays in flight, and the outcome overwrites the earlier entry, even a completed one. */
  lemma RoundSettlesIff(entries: Entries, at: nat, takenAt: int, ok: bool, now: int, jitter: real, message: Id)
    requires at < |entries| && IsWaiting(entries[at])
    ensures !RoundOf(entries, at, takenAt, ok, now, jitter, message)[at].status.Publishing? <==> IsFirst(entries, at)
    ensures var i, after := First(entries, entries[at].id), RoundOf(entries, at, takenAt, ok, now, jitter, message);
            i != at ==>
              && i < at && after[i] == Finished(entries[i], ok, now, jitter, message)
              && (after[i].status.Completed? <==> ok)
  {
    FirstKeepsIds(entries, entries[at := Taken(entries[at], takenAt)], entries[at].id);
    FirstIsFirst(entries, entries[at].id, at);
  }

  /** An entry pending before the loop is in flight after it exactly when an earlier entry has
      its id; and then no later run, with any restarts, ever changes it. */
  lemma StrandedIff(before: Entries, after: Entries, i: nat, log: seq<Action>)
    requires Progressed(before, after) && i < |before|
    requires before[i].status.PendingExternal? && !after[i].status.PendingExternal?
    ensures after[i].status.Publishing? <==> !IsFirst(before, i)
    ensures !IsFirst(before, i) && Legal(State(after, {}), log) ==>
              i < |After(State(after, {}), log).entries| && After(State(after, {}), log).entries[i] == after[i]
  {
    assert EntryProgressed(before, i, after[i]);
    if !IsFirst(before, i) && Legal(State(after, {}), log) {
      StuckStays(State(after, {}), log, i);
    }
  }

  lemma {:induction false} ConcatInjective(a: Id, b: Id, c: Id)
    ensures Concat(a, b) == Concat(a, c) <==> b == c
  {
    if a.Char? {
      ConcatInjective(a.tail, b, c);
    }
  }

  /** Releases of one version have the same id exactly when their commits start alike, so
      enqueueing a release again while the first is in the queue makes a duplicate. */
  lemma SameIdIff(version: Id, a: Id, b: Id)
    ensures ReleaseId(version, a) == ReleaseId(version, b) <==> Truncate(a, 8) == Truncate(b, 8)
  {
    ConcatInjective(version, Char('@', Truncate(a, SHA_LENGTH)), Char('@', Truncate(b, SHA_LENGTH)));
  }

  // ----- What the loop is, for a queue without duplicates -----

  ghost predicate IsRun(start: Entries, log: seq<Action>, entries: Entries) {
    Legal(State(start, {}), log) && After(State(start, {}), log) == State(entries, {})
  }

  lemma TriesGrow(log: seq<Action>, a: Action, i: nat)
    ensures Misses(log + [a], i) == Misses(log, i) + if a.Miss? && a.at == i then 1 else 0
    ensures Successes(log + [a], i) == Successes(log, i) + if a.Succeed? && a.at == i then 1 else 0
  {
    assert (log + [a])[..|log|] == log;
  }

  /** One more try of entry `at`, and of no other. */
  ghost predicate CountsOneMore(log: seq<Action>, longer: seq<Action>, at: nat, ok: bool) {
    && (forall i :: Misses(longer, i) == Misses(log, i) + if i == at && !ok then 1 else 0)
    && (forall i :: Successes(longer, i) == Successes(log, i) + if i == at && ok then 1 else 0)
  }

  lemma RoundIsRun(start: Entries, log: seq<Action>, entries: Entries, at: nat, takenAt: int, ok: bool, now: int,
                   jitter: real, message: Id)
    returns (longer: seq<Action>)
    requires DistinctIds(start) && SameReleases(start, entries) && IsRun(start, log, entries)
    requires at < |entries| && IsDue(entries[at], takenAt)
    ensures IsRun(start, longer, RoundOf(entries, at, takenAt, ok, now, jitter, message))
    ensures Wins(longer) == Wins(log) + if ok then 1 else 0
    ensures CountsOneMore(log, longer, at, ok)
  {
    var taken := entries[at := Taken(entries[at], takenAt)];
    assert IsFirst(start, at);
    FirstKeepsIds(start, taken, entries[at].id);
    var take := Take(at, takenAt);
    var finish := if ok then Succeed(at, now) else Miss(at, now, jitter, message);
    LogGrows(State(start, {}), log, take);
    LogGrows(State(start, {}), log + [take], finish);
    longer := log + [take] + [finish];
    WinsGrow(log, take);
    WinsGrow(log + [take], finish);
    forall i
      ensures Misses(longer, i) == Misses(log, i) + if i == at && !ok then 1 else 0
      ensures Successes(longer, i) == Successes(log, i) + if i == at && ok then 1 else 0
    {
      TriesGrow(log, take, i);
      TriesGrow(log + [take], finish, i);
    }
    assert {at} - {at} == {};
  }

  /** The number of successful completions in a run. */
  function Wins(log: seq<Action>): nat {
    if log == [] then 0 else Wins(log[..|log| - 1]) + if log[|log| - 1].Succeed? then 1 else 0
  }

  lemma WinsGrow(log: seq<Action>, a: Action)
    ensures Wins(log + [a]) == Wins(log) + if a.Succeed? then 1 else 0
  {
    assert (log + [a])[..|log|] == log;
  }

  function CountCompleted(entries: Entries): nat {
    if entries == [] then 0
    else CountCompleted(entries[..|entries| - 1]) + if entries[|entries| - 1].status.Completed? then 1 else 0
  }

  lemma {:induction false} CountOfUpdate(entries: Entries, i: nat, e: ReleaseEntry)
    requires i < |entries|
    ensures CountCompleted(entries[i := e]) ==
              CountCompleted(entries) - (if entries[i].status.Completed? then 1 else 0)
                  + (if e.status.Completed? then 1 else 0)
  {
    var last := |entries| - 1;
    if i == last {
      assert entries[i := e][..last] == entries[..last];
    } else {
      assert entries[i := e][..last] == entries[..last][i := e];
      CountOfUpdate(entries[..last], i, e);
    }
  }

  lemma {:induction false} CountOfRecovered(a: Entries, b: Entries)
    requires |a| == |b| && forall i :: 0 <= i < |a| ==> b[i] == Recovered(a[i])
    ensures CountCompleted(a) == CountCompleted(b)
  {
    if a != [] {
      CountOfRecovered(a[..|a| - 1], b[..|b| - 1]);
    }
  }

  /** In every run the successes are exactly the newly completed entries. */
  lemma {:induction false} WinsAreCompletions(s: State, log: seq<Action>)
    requires Held(s) && Legal(s, log)
    ensures Held(After(s, log)) && CountCompleted(After(s, log).entries) == CountCompleted(s.entries) + Wins(log)
  {
    if log != [] {
      var shorter, a := log[..|log| - 1], log[|log| - 1];
      WinsAreCompletions(s, shorter);
      StepCounts(After(s, shorter), a);
    }
  }

  lemma StepCounts(s: State, a: Action)
    requires Held(s) && Enabled(s, a)
    ensures Held(Next(s, a))
    ensures CountCompleted(Next(s, a).entries) == CountCompleted(s.entries) + if a.Succeed? then 1 else 0
  {
    match a
    case Enqueue(e) => assert (s.entries + [e])[..|s.entries|] == s.entries;
    case Restart => CountOfRecovered(s.entries, Next(s, a).entries);
    case _ => CountOfUpdate(s.entries, a.at, Next(s, a).entries[a.at]);
  }

  predicate IsOut(e: ReleaseEntry, published: set<Id>, releases: set<Id>) {
    e.key in published && e.version in releases
  }

  /** Every entry completed since `start` is out. */
  ghost predicate Delivered(start: Entries, entries: Entries, published: set<Id>, releases: set<Id>) {
    |start| == |entries| &&
    forall i :: 0 <= i < |start| && entries[i].status.Completed? && !start[i].status.Completed? ==>
      IsOut(entries[i], published, releases)
  }

  /** What the loop keeps for a queue without duplicates. */
  ghost predicate Faithful(start: Entries, log: seq<Action>, entries: Entries, processed: nat, published: set<Id>,
                           releases: set<Id>) {
    IsRun(start, log, entries) && processed == Wins(log) && Delivered(start, entries, published, releases)
  }

  lemma RoundIsFaithful(start: Entries, log: seq<Action>, entries: Entries, processed: nat, published: set<Id>,
                        releases: set<Id>,
                        at: nat, takenAt: int, ok: bool, now: int, jitter: real, message: Id, published': set<Id>,
                        releases': set<Id>)
    returns (longer: seq<Action>)
    requires DistinctIds(start) && SameReleases(start, entries)
    requires Faithful(start, log, entries, processed, published, releases)
    requires at < |entries| && IsDue(entries[at], takenAt)
    requires published <= published' && releases <= releases'
    requires ok ==> IsOut(entries[at], published', releases')
    ensures Faithful(start, longer, RoundOf(entries, at, takenAt, ok, now, jitter, message),
                     processed + if ok then 1 else 0, published', releases')
    ensures CountsOneMore(log, longer, at, ok)
  {
    longer := RoundIsRun(start, log, entries, at, takenAt, ok, now, jitter, message);
    assert IsFirst(start, at);
    FirstKeepsIds(start, entries[at := Taken(entries[at], takenAt)], entries[at].id);
  }

  /** A release goes out when it is known to be out already, or when there is access and both its
      tag and the release itself are found or made. */
  predicate GoesOut(e: ReleaseEntry, remote: Answers, published: set<Id>, tags: set<Id>, releases: set<Id>) {
    || (e.key in published && remote.recovered && e.version in releases)
    || (&& remote.access
        && ((remote.tagSeen && e.version in tags) || remote.tagMade)
        && ((remote.releaseSeen && e.version in releases) || remote.releaseMade))
  }

  predicate Cooperates(remote: Answers) {
    remote.access && remote.tagMade && remote.releaseMade
  }

  /** Every entry is as it was or completed. */
  ghost predicate OnlyCompletes(start: Entries, entries: Entries) {
    |start| == |entries| &&
    forall i :: 0 <= i < |start| ==> entries[i] == start[i] || entries[i].status.Completed?
  }

  lemma RoundOnlyCompletes(start: Entries, entries: Entries, at: nat, takenAt: int, now: int, jitter: real, message: Id)
    requires DistinctIds(start) && SameReleases(start, entries) && OnlyCompletes(start, entries) && at < |entries|
    ensures OnlyCompletes(start, RoundOf(entries, at, takenAt, true, now, jitter, message))
  {
    assert IsFirst(start, at);
    FirstKeepsIds(start, entries[at := Taken(entries[at], takenAt)], entries[at].id);
  }

  // ----- How often one call of the loop tries an entry -----

  /** The whole loop takes less than half a minute: every look at the queue falls within it, and so
      no completion comes before its start. */
  ghost predicate Brief(clock: nat -> nat -> int, marks: nat -> (int, real, Id), start: int) {
    && (forall r, k :: start <= clock(r)(k) < start + ShortestWait(1))
    && (forall r :: start <= marks(r).0 && IsJitter(marks(r).1))
  }

  /** The entry was not tried; or tried once and completed; or tried once in vain, and then it waits
      in line again, due no earlier than the shortest wait from `start`, or has failed for good. */
  ghost predicate TriedOnce(was: ReleaseEntry, e: ReleaseEntry, misses: nat, wins: nat, start: int) {
    if misses == 0 && wins == 0 then e == was
    else
      && misses + wins == 1 && IsWaiting(was)
      && if wins == 1 then e.status.Completed?
         else
           && e.retry.attempts == was.retry.attempts + 1
           && if e.retry.attempts == MAX_ATTEMPTS then e.status.FinalFailed?
              else e.status.Queued? && e.retry.nextRetryAt >= start + ShortestWait(1)
  }

  ghost predicate AllTriedOnce(before: Entries, entries: Entries, log: seq<Action>, start: int) {
    |before| == |entries| &&
    forall i :: 0 <= i < |before| ==> TriedOnce(before[i], entries[i], Misses(log, i), Successes(log, i), start)
  }

  ghost predicate AllSane(entries: Entries) {
    forall i :: 0 <= i < |entries| ==> Sane(entries[i])
  }

  lemma WaitsGrow(k: nat)
    requires k > 0
    ensures ShortestWait(1) == 30000 <= ShortestWait(k)
  {
    assert Doublings(0) == 1;
  }

  lemma FinishTriesOnce(was: ReleaseEntry, takenAt: int, ok: bool, now: int, jitter: real, message: Id, start: int)
    requires Sane(was) && IsDue(was, takenAt) && start <= now && IsJitter(jitter)
    ensures TriedOnce(was, Finished(Taken(was, takenAt), ok, now, jitter, message), if ok then 0 else 1,
                      if ok then 1 else 0, start)
  {
    if !ok {
      MissedWaits(Taken(was, takenAt).(status := was.status), now, jitter, message);
      WaitsGrow(was.retry.attempts + 1);
    }
  }

  /** What a brief loop has tried, it does not find due again. */
  lemma RoundTriesOnce(before: Entries, entries: Entries, log: seq<Action>, longer: seq<Action>, at: nat, takenAt: int,
                       ok: bool, now: int, jitter: real, message: Id, start: int)
    requires DistinctIds(before) && SameReleases(before, entries) && AllSane(before)
    requires AllTriedOnce(before, entries, log, start) && CountsOneMore(log, longer, at, ok)
    requires at < |entries| && IsDue(entries[at], takenAt) && takenAt < start + ShortestWait(1)
    requires start <= now && IsJitter(jitter)
    ensures AllTriedOnce(before, RoundOf(entries, at, takenAt, ok, now, jitter, message), longer, start)
  {
    var after := RoundOf(entries, at, takenAt, ok, now, jitter, message);
    assert IsFirst(before, at);
    FirstKeepsIds(before, entries[at := Taken(entries[at], takenAt)], entries[at].id);
    assert TriedOnce(before[at], entries[at], Misses(log, at), Successes(log, at), start);
    assert entries[at] == before[at] && Misses(log, at) == Successes(log, at) == 0;
    FinishTriesOnce(before[at], takenAt, ok, now, jitter, message, start);
    forall i | 0 <= i < |before|
      ensures TriedOnce(before[i], after[i], Misses(longer, i), Successes(longer, i), start)
    {
      assert TriedOnce(before[i], entries[i], Misses(log, i), Successes(log, i), start);
    }
  }

  lemma PendingAreTried(before: Entries, entries: Entries, log: seq<Action>, start: int, i: nat)
    requires AllTriedOnce(before, entries, log, start) && i < |entries| && !IsDue(entries[i], start)
    ensures IsDue(before[i], start) ==> Misses(log, i) + Successes(log, i) == 1
  {
    assert TriedOnce(before[i], entries[i], Misses(log, i), Successes(log, i), start);
  }

  /** What every round of the loop keeps. */
  ghost predicate Kept(before: Entries, log: seq<Action>, entries: Entries, processed: nat, published: set<Id>,
                       releases: set<Id>, cooperating: bool, brief: bool, start: int) {
    && Progressed(before, entries)
    && (DistinctIds(before) ==>
          && Faithful(before, log, entries, processed, published, releases)
          && (cooperating ==> OnlyCompletes(before, entries))
          && (brief && AllSane(before) ==> AllTriedOnce(before, entries, log, start)))
  }

  lemma RoundIsKept(before: Entries, log: seq<Action>, entries: Entries, processed: nat, published: set<Id>,
                    releases: set<Id>, cooperating: bool, brief: bool, start: int, at: nat, takenAt: int, ok: bool,
                    now: int, jitter: real, message: Id, published': set<Id>, releases': set<Id>)
    returns (longer: seq<Action>)
    requires Kept(before, log, entries, processed, published, releases, cooperating, brief, start)
    requires at < |entries| && IsDue(entries[at], takenAt)
    requires published <= published' && releases <= releases'
    requires ok ==> IsOut(entries[at], published', releases')
    requires cooperating ==> ok
    requires brief ==> takenAt < start + ShortestWait(1) && start <= now && IsJitter(jitter)
    ensures Kept(before, longer, RoundOf(entries, at, takenAt, ok, now, jitter, message),
                 processed + if ok then 1 else 0, published', releases', cooperating, brief, start)
  {
    longer := log;
    RoundKeepsProgress(before, entries, at, takenAt, ok, now, jitter, message);
    if DistinctIds(before) {
      longer := RoundIsFaithful(before, log, entries, processed, published, releases, at, takenAt, ok, now, jitter,
                                message, published', releases');
      if cooperating {
        RoundOnlyCompletes(before, entries, at, takenAt, now, jitter, message);
      }
      if brief && AllSane(before) {
        RoundTriesOnce(before, entries, log, longer, at, takenAt, ok, now, jitter, message, start);
      }
    }
  }

  class ReleaseOrchestrator {
    const queue: ReleaseQueue
    const github: GitHub
    /** Idempotency keys of the releases that went out. */
    var published: set<Id>

    constructor (queue: ReleaseQueue, github: GitHub)
      ensures this.queue == queue && this.github == github && published == {}
    {
      this.queue, this.github := queue, github;
      published := {};
    }

    /** Publishes one entry, or finds it published already. */
    method Publish(entry: ReleaseEntry, remote: Answers) returns (ok: bool)
      modifies this, github
      ensures old(published) <= published && old(github.releases) <= github.releases
      ensures ok <==>
                || (entry.key in old(published) && remote.recovered && entry.version in old(github.releases))
                || (&& remote.access
                    && ((remote.tagSeen && entry.version in old(github.tags)) || remote.tagMade)
                    && ((remote.releaseSeen && entry.version in old(github.releases)) || remote.releaseMade))
      ensures ok ==> entry.key in published && entry.version in github.releases
      ensures !ok ==> published == old(published)
    {
      if entry.key in published {
        var there := github.ReleaseExists(entry.version, remote.recovered);
        if there {
          return true;
        }
      }
      if !remote.access {
        return false;
      }
      var tagged := github.TagExists(entry.version, remote.tagSeen);
      if !tagged {
        var created := github.CreateTag(entry.version, remote.tagMade);
        if !created {
          return false;
        }
      }
      var released := github.ReleaseExists(entry.version, remote.releaseSeen);
      if !released {
        var created := github.CreateRelease(entry.version, remote.releaseMade);
        if !created {
          return false;
        }
      }
      published := published + {entry.key};
      return true;
    }

    /** One round of the loop. */
    method Round(clock: nat -> int, remote: Answers, now: int, jitter: real, message: Id)
      returns (found: bool, ok: bool, ghost at: nat)
      modifies this, queue, github
      ensures old(published) <= published && old(github.releases) <= github.releases
      ensures !found ==> queue.entries == old(queue.entries) && forall k :: 0 <= k < |queue.entries| ==>
              !IsDue(queue.entries[k], clock(k))
      ensures !found ==> !ok
      ensures found ==>
                && at < |old(queue.entries)| && IsDue(old(queue.entries)[at], clock(at))
                && queue.entries == RoundOf(old(queue.entries), at, clock(at), ok, now, jitter, message)
                && (ok <==>
                      GoesOut(old(queue.entries)[at], remote, old(published), old(github.tags), old(github.releases)))
                && (ok ==> IsOut(old(queue.entries)[at], published, github.releases))
    {
      var entry;
      found, entry, at := queue.Dequeue(clock);
      ok := false;
      if found {
        ok := Publish(entry, remote);
        queue.Complete(entry.id, ok, message, now, jitter);
      }
    }

    /** Works the queue off until nothing in it is due. `clock` gives the times at which entries
        are looked at, by round and position, none before `start`; `remote` is what the remote answers
        and `marks` the time, jitter and message of each completion. */
    method ProcessQueue(clock: nat -> nat -> int, remote: nat -> Answers, marks: nat -> (int, real, Id),
                        ghost start: int)
      returns (processed: nat, ghost log: seq<Action>)
      requires forall r, k :: start <= clock(r)(k)
      modifies this, queue, github
      ensures Progressed(old(queue.entries), queue.entries)
      ensures forall i :: 0 <= i < |queue.entries| ==> !IsDue(queue.entries[i], start)
      ensures DistinctIds(old(queue.entries)) ==>
                Faithful(old(queue.entries), log, queue.entries, processed, published, github.releases)
      ensures DistinctIds(old(queue.entries)) && (forall r :: Cooperates(remote(r))) ==>
                OnlyCompletes(old(queue.entries), queue.entries)
      ensures old(published) <= published && old(github.releases) <= github.releases
      ensures DistinctIds(old(queue.entries)) && AllSane(old(queue.entries)) && Brief(clock, marks, start) ==>
                && AllTriedOnce(old(queue.entries), queue.entries, log, start)
                && forall i :: 0 <= i < |queue.entries| && IsDue(old(queue.entries)[i], start) ==>
                     Misses(log, i) + Successes(log, i) == 1
    {
      processed, log := 0, [];
      ghost var before := queue.entries;
      ghost var cooperating, brief := forall r :: Cooperates(remote(r)), Brief(clock, marks, start);
      var round := 0;
      while true
        invariant Kept(before, log, queue.entries, processed, published, github.releases, cooperating, brief, start)
        invariant old(published) <= published && old(github.releases) <= github.releases
        decreases TotalCost(queue.entries)
      {
        var (now, jitter, message) := marks(round);
        assert cooperating ==> Cooperates(remote(round));
        assert brief ==> start <= marks(round).0 && IsJitter(marks(round).1);
        ghost var entries, published0, releases0 := queue.entries, published, github.releases;
        var found, ok, at := Round(clock(round), remote(round), now, jitter, message);
        if !found {
          break;
        }
        ghost var takenAt := clock(round)(at);
        RoundCosts(entries, at, takenAt, ok, now, jitter, message);
        log := RoundIsKept(before, log, entries, processed, published0, releases0, cooperating, brief, start,
                           at, takenAt, ok, now, jitter, message, published, github.releases);
        if ok {
          processed := processed + 1;
        }
        round := round + 1;
      }
      if DistinctIds(before) && AllSane(before) && brief {
        forall i | 0 <= i < |queue.entries| && IsDue(before[i], start)
          ensures Misses(log, i) + Successes(log, i) == 1
        {
          PendingAreTried(before, queue.entries, log, start, i);
        }
      }
    }
  }
}
