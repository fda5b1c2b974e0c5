/** The life of release entries over every run of the queue: enqueues, dequeues, completions and
    restarts in any order, with any number of workers holding an entry at the same time. */
module ReleaseRuns {
  import opened Ids
  import opened Retrying

  datatype ReleaseStatus = PendingExternal | Queued | Publishing | Completed | FinalFailed

  /** `key` is the idempotency key, which the program hashes from commit and version. */
  datatype ReleaseEntry = ReleaseEntry(
    id: Id,
    commit: Id,
    version: Id,
    key: Id,
    status: ReleaseStatus,
    retry: RetryState,
    updatedAt: int,
    lastError: Id)

  predicate IsWaiting(e: ReleaseEntry) {
    e.status.PendingExternal? || e.status.Queued?
  }

  predicate IsFinal(e: ReleaseEntry) {
    e.status.Completed? || e.status.FinalFailed?
  }

  /** What a dequeue may pick at a given time. */
  predicate IsDue(e: ReleaseEntry, now: int) {
    e.status.PendingExternal? || (e.status.Queued? && IsRetryDue(e.retry, now))
  }

  // ----- What each operation does to one entry -----

  function Taken(e: ReleaseEntry, now: int): ReleaseEntry {
    e.(status := Publishing, updatedAt := now)
  }

  function Succeeded(e: ReleaseEntry, now: int): ReleaseEntry {
    e.(status := Completed, updatedAt := now)
  }

  function Missed(e: ReleaseEntry, now: int, jitter: real, message: Id): ReleaseEntry {
    var retry := AdvanceRetryState(e.retry, now, jitter);
    var status := if retry.finalized then FinalFailed else Queued;
    e.(retry := retry, lastError := message, updatedAt := now, status := status)
  }

  function Recovered(e: ReleaseEntry): ReleaseEntry {
    if IsWaiting(e) then e.(status := PendingExternal) else e
  }

  // ----- Runs -----

  datatype Action =
    | Enqueue(entry: ReleaseEntry)
    | Take(at: nat, now: int)
    | Succeed(at: nat, now: int)
    | Miss(at: nat, now: int, jitter: real, message: Id)
    | Restart

  /** `active` holds the positions that some worker has dequeued and not yet completed. */
  datatype State = State(entries: seq<ReleaseEntry>, active: set<nat>)

  predicate IsNew(e: ReleaseEntry) {
    e.status.PendingExternal? && e.retry.attempts == 0 && !e.retry.finalized
  }

  ghost predicate Enabled(s: State, a: Action) {
    match a
    case Enqueue(e) => IsNew(e)
    case Take(i, now) => i < |s.entries| && IsDue(s.entries[i], now)
    case Succeed(i, _) => i < |s.entries| && i in s.active
    case Miss(i, _, _, _) => i < |s.entries| && i in s.active
    case Restart => true
  }

  function Next(s: State, a: Action): State
    requires Enabled(s, a)
  {
    match a
    case Enqueue(e) => State(s.entries + [e], s.active)
    case Take(i, now) => State(s.entries[i := Taken(s.entries[i], now)], s.active + {i})
    case Succeed(i, now) => State(s.entries[i := Succeeded(s.entries[i], now)], s.active - {i})
    case Miss(i, now, jitter, message) =>
      State(s.entries[i := Missed(s.entries[i], now, jitter, message)], s.active - {i})
    case Restart => State(seq(|s.entries|, i requires 0 <= i < |s.entries| => Recovered(s.entries[i])), {})
  }

  ghost predicate Legal(s: State, log: seq<Action>)
    decreases |log|, 0
  {
    log == [] || (Legal(s, log[..|log| - 1]) && Enabled(After(s, log[..|log| - 1]), log[|log| - 1]))
  }

  function After(s: State, log: seq<Action>): State
    requires Legal(s, log)
    decreases |log|, 1
  {
    if log == [] then s else Next(After(s, log[..|log| - 1]), log[|log| - 1])
  }

  lemma LogGrows(s: State, log: seq<Action>, a: Action)
    requires Legal(s, log) && Enabled(After(s, log), a)
    ensures Legal(s, log + [a]) && After(s, log + [a]) == Next(After(s, log), a)
  {
    assert (log + [a])[..|log|] == log;
  }

  lemma {:induction false} LogsJoin(s: State, log: seq<Action>, more: seq<Action>)
    requires Legal(s, log) && Legal(After(s, log), more)
    ensures Legal(s, log + more) && After(s, log + more) == After(After(s, log), more)
  {
    if more == [] {
      assert log + more == log;
    } else {
      var shorter, last := more[..|more| - 1], more[|more| - 1];
      LogsJoin(s, log, shorter);
      LogGrows(s, log + shorter, last);
      assert log + more == (log + shorter) + [last];
    }
  }

  // ----- The invariant -----

  /** Five attempts are final, and only they are. */
  predicate Sane(e: ReleaseEntry) {
    && 0 <= e.retry.attempts <= MAX_ATTEMPTS
    && (e.retry.finalized <==> e.retry.attempts == MAX_ATTEMPTS)
    && (e.retry.finalized <==> e.status.FinalFailed?)
  }

  ghost predicate Healthy(s: State) {
    Held(s) && forall i :: 0 <= i < |s.entries| ==> Sane(s.entries[i])
  }

  /** What a worker holds is being published. */
  ghost predicate Held(s: State) {
    forall i :: i in s.active ==> i < |s.entries| && s.entries[i].status.Publishing?
  }

  lemma StepIsHealthy(s: State, a: Action)
    requires Healthy(s) && Enabled(s, a)
    ensures Healthy(Next(s, a))
  {
  }

  lemma {:induction false} RunsAreHealthy(s: State, log: seq<Action>)
    requires Healthy(s) && Legal(s, log)
    ensures Healthy(After(s, log)) && |s.entries| <= |After(s, log).entries|
  {
    if log != [] {
      var shorter := log[..|log| - 1];
      RunsAreHealthy(s, shorter);
      StepIsHealthy(After(s, shorter), log[|log| - 1]);
    }
  }

  // ----- How often an entry is tried -----

  function Misses(log: seq<Action>, i: nat): nat {
    if log == [] then 0
    else Misses(log[..|log| - 1], i) + if log[|log| - 1].Miss? && log[|log| - 1].at == i then 1 else 0
  }

  function Successes(log: seq<Action>, i: nat): nat {
    if log == [] then 0
    else Successes(log[..|log| - 1], i) + if log[|log| - 1].Succeed? && log[|log| - 1].at == i then 1 else 0
  }

  function AttemptsAt(s: State, i: nat): int {
    if i < |s.entries| then s.entries[i].retry.attempts else 0
  }

  function DoneAt(s: State, i: nat): nat {
    if i < |s.entries| && s.entries[i].status.Completed? then 1 else 0
  }

  /** The stored attempts count exactly the failed tries, restarts included. */
  lemma {:induction false} AttemptsCountMisses(s: State, log: seq<Action>, i: nat)
    requires Healthy(s) && Legal(s, log)
    ensures AttemptsAt(After(s, log), i) == AttemptsAt(s, i) + Misses(log, i)
    ensures DoneAt(After(s, log), i) == DoneAt(s, i) + Successes(log, i)
  {
    if log != [] {
      var shorter := log[..|log| - 1];
      AttemptsCountMisses(s, shorter, i);
      RunsAreHealthy(s, shorter);
    }
  }

  /** From an empty queue: at most five failed tries and one success per entry; finally failed
      means exactly five failed tries, completed means exactly one success. */
  lemma TriesAreBounded(log: seq<Action>, i: nat)
    requires Legal(State([], {}), log)
    ensures Misses(log, i) <= 5 && Successes(log, i) <= 1
    ensures i < |After(State([], {}), log).entries| ==>
              var e := After(State([], {}), log).entries[i];
              && (e.status.FinalFailed? <==> Misses(log, i) == 5)
              && (e.status.Completed? <==> Successes(log, i) == 1)
  {
    AttemptsCountMisses(State([], {}), log, i);
    RunsAreHealthy(State([], {}), log);
  }

  // ----- What no run changes any more -----

  /** Final, or dequeued by a worker that a restart has lost. */
  ghost predicate Stuck(s: State, i: nat) {
    && i < |s.entries|
    && (IsFinal(s.entries[i]) || (s.entries[i].status.Publishing? && i !in s.active))
  }

  ghost predicate Unchanging(s: State, i: nat) {
    i < |s.entries| &&
    forall log :: Legal(s, log) ==> i < |After(s, log).entries| && After(s, log).entries[i] == s.entries[i]
  }

  lemma {:induction false} StuckStays(s: State, log: seq<Action>, i: nat)
    requires Held(s) && Legal(s, log) && Stuck(s, i)
    ensures Held(After(s, log)) && Stuck(After(s, log), i) && After(s, log).entries[i] == s.entries[i]
  {
    if log != [] {
      StuckStays(s, log[..|log| - 1], i);
    }
  }

  /** Completed and finally failed are absorbing; so is being published by a lost worker, and
      nothing else is. */
  lemma UnchangingIff(s: State, i: nat)
    requires Healthy(s) && i < |s.entries|
    ensures Unchanging(s, i) <==> Stuck(s, i)
  {
    if Stuck(s, i) {
      forall log | Legal(s, log)
        ensures i < |After(s, log).entries| && After(s, log).entries[i] == s.entries[i]
      {
        StuckStays(s, log, i);
      }
    } else {
      var e := s.entries[i];
      var a := if e.status.Publishing? then Succeed(i, 0) else Take(i, e.retry.nextRetryAt);
      LogGrows(s, [], a);
      assert After(s, [] + [a]).entries[i] != e;
    }
  }

  /** A restart puts waiting entries back, due at once, and abandons every entry in flight. */
  lemma RestartAbandons(s: State, log: seq<Action>, i: nat)
    requires Held(s) && i in s.active
    requires Legal(s, [Restart] + log)
    ensures i < |After(s, [Restart] + log).entries| && After(s, [Restart] + log).entries[i] == s.entries[i]
  {
    var lost := Next(s, Restart);
    RestartFirst(s, log);
    StuckStays(lost, log, i);
  }

  lemma {:induction false} RestartFirst(s: State, log: seq<Action>)
    requires Legal(s, [Restart] + log)
    ensures Legal(Next(s, Restart), log) && After(s, [Restart] + log) == After(Next(s, Restart), log)
  {
    var all := [Restart] + log;
    if log == [] {
      assert all[..0] == [];
    } else {
      var shorter := log[..|log| - 1];
      assert all[..|all| - 1] == [Restart] + shorter;
      RestartFirst(s, shorter);
    }
  }

  /** No entry is ever lost or given another identity. */
  lemma {:induction false} IdentitiesStay(s: State, log: seq<Action>, i: nat)
    requires Legal(s, log) && i < |s.entries|
    ensures i < |After(s, log).entries|
    ensures SameRelease(After(s, log).entries[i], s.entries[i])
  {
    if log != [] {
      IdentitiesStay(s, log[..|log| - 1], i);
    }
  }

  predicate SameRelease(a: ReleaseEntry, b: ReleaseEntry) {
    a.id == b.id && a.commit == b.commit && a.version == b.version && a.key == b.key
  }

  // ----- When an entry can be taken -----

  /** A new entry can be taken at once, at whatever time. */
  lemma NewIsDue(s: State, e: ReleaseEntry, now: int)
    requires Enabled(s, Enqueue(e))
    ensures Enabled(Next(s, Enqueue(e)), Take(|s.entries|, now))
  {
  }

  /** A restart makes exactly the waiting entries due at once, however long they had to wait. */
  lemma RestartReleases(s: State, i: nat, now: int)
    requires i < |s.entries|
    ensures Enabled(Next(s, Restart), Take(i, now))
            <==> s.entries[i].status.PendingExternal? || s.entries[i].status.Queued?
  {
  }

  /** In this part of a run nobody takes the entry and the queue is not restarted. */
  predicate LeavesAlone(log: seq<Action>, i: nat) {
    forall k :: 0 <= k < |log| ==> !log[k].Restart? && !(log[k].Take? && log[k].at == i)
  }

  lemma {:induction false} AloneStays(s: State, log: seq<Action>, i: nat)
    requires Legal(s, log) && LeavesAlone(log, i) && i < |s.entries| && i !in s.active
    ensures i < |After(s, log).entries| && After(s, log).entries[i] == s.entries[i] && i !in After(s, log).active
  {
    if log != [] {
      var shorter := log[..|log| - 1];
      forall k | 0 <= k < |shorter|
        ensures !shorter[k].Restart? && !(shorter[k].Take? && shorter[k].at == i)
      {
        assert shorter[k] == log[k];
      }
      AloneStays(s, shorter, i);
    }
  }

  /** What a failed try leaves: queued, with the wait for that many failures still ahead, or finally
      failed after the fifth. */
  ghost predicate HasMissed(e: ReleaseEntry, k: nat, failedAt: int) {
    && 1 <= k <= MAX_ATTEMPTS && e.retry.attempts == k
    && if k == MAX_ATTEMPTS then e.status.FinalFailed?
       else
         && e.status.Queued? && !e.retry.finalized
         && failedAt + ShortestWait(k) <= e.retry.nextRetryAt < failedAt + ShortestWait(k) + ShortestWait(k) / 5
  }

  lemma MissedWaits(e: ReleaseEntry, now: int, jitter: real, message: Id)
    requires Sane(e) && !e.status.FinalFailed? && IsJitter(jitter)
    ensures HasMissed(Missed(e, now, jitter, message), e.retry.attempts + 1, now)
  {
    WaitInMillis(now, e.retry.attempts + 1, jitter);
  }

  /** Over every run: after the k-th failed try of an entry nobody can take it again before half a
      minute, doubled k - 1 times, has passed, unless the queue is restarted; a fifth more is always
      enough. After the fifth nobody can. */
  lemma MissWaits(s: State, log: seq<Action>, i: nat, failedAt: int, jitter: real, message: Id, later: seq<Action>,
                  now: int)
    requires Healthy(s) && Legal(s, log) && Enabled(After(s, log), Miss(i, failedAt, jitter, message))
    requires 0.0 <= jitter < 0.2 && LeavesAlone(later, i)
    requires Legal(Next(After(s, log), Miss(i, failedAt, jitter, message)), later)
    ensures var k, end := AttemptsAt(s, i) + Misses(log, i) + 1,
                          After(Next(After(s, log), Miss(i, failedAt, jitter, message)), later);
            && 1 <= k <= MAX_ATTEMPTS
            && (Enabled(end, Take(i, now)) ==> k < MAX_ATTEMPTS && now >= failedAt + ShortestWait(k))
            && (k < MAX_ATTEMPTS && now >= failedAt + ShortestWait(k) + ShortestWait(k) / 5 ==>
                  Enabled(end, Take(i, now)))
  {
    var missed := Next(After(s, log), Miss(i, failedAt, jitter, message));
    RunsAreHealthy(s, log);
    AttemptsCountMisses(s, log, i);
    MissedWaits(After(s, log).entries[i], failedAt, jitter, message);
    AloneStays(missed, later, i);
  }
}
