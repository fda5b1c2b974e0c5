/** The retry policy of the release queue. Times are in milliseconds; the jitter, which the
    program derives from a hash, is a parameter. */
module Retrying {

  const MAX_ATTEMPTS := 5
  const BASE_BACKOFF := 30.0
  const MAX_BACKOFF := 3600.0
  const JITTER_RANGE := 0.2

  datatype RetryState = RetryState(attempts: int, nextRetryAt: int, finalized: bool)

  function TwoTo(n: nat): real {
    if n == 0 then 1.0 else 2.0 * TwoTo(n - 1)
  }

  /** The wait, in seconds, before the next attempt. */
  function ComputeNextRetry(attempts: int, jitter: real): real {
    if attempts <= 0 || attempts > MAX_ATTEMPTS then 0.0
    else
      var backoff := BASE_BACKOFF * TwoTo(attempts - 1);
      (if backoff > MAX_BACKOFF then MAX_BACKOFF else backoff) * (1.0 + jitter)
  }

  function TimeAfter(now: int, seconds: real): int {
    now + (1000.0 * seconds).Floor
  }

  function NewRetryState(now: int, jitter: real): RetryState {
    RetryState(0, TimeAfter(now, ComputeNextRetry(1, jitter)), false)
  }

  function AdvanceRetryState(rs: RetryState, now: int, jitter: real): RetryState {
    var attempts := rs.attempts + 1;
    if attempts >= MAX_ATTEMPTS then RetryState(attempts, rs.nextRetryAt, true)
    else RetryState(attempts, TimeAfter(now, ComputeNextRetry(attempts, jitter)), rs.finalized)
  }

  predicate IsRetryDue(rs: RetryState, now: int) {
    !rs.finalized && now >= rs.nextRetryAt
  }

  predicate IsJitter(jitter: real) {
    0.0 <= jitter < JITTER_RANGE
  }

  lemma {:induction false} TwoToGrows(m: nat, n: nat)
    requires m < n
    ensures 1.0 <= TwoTo(m) && 2.0 * TwoTo(m) <= TwoTo(n)
    decreases n
  {
    if m < n - 1 {
      TwoToGrows(m, n - 1);
    } else if m > 0 {
      TwoToGrows(m - 1, m);
    }
  }

  /** Each of the five waits lies within a fifth above its doubled base, so the cap is never
      reached and every wait is longer than the one before, whatever the jitters are. */
  lemma BackoffDoubles(attempts: int, jitter: real)
    requires 1 <= attempts <= MAX_ATTEMPTS && IsJitter(jitter)
    ensures BASE_BACKOFF * TwoTo(attempts - 1) <= ComputeNextRetry(attempts, jitter)
                                                < 1.2 * (BASE_BACKOFF * TwoTo(attempts - 1))
    ensures ComputeNextRetry(attempts, jitter) < MAX_BACKOFF
    ensures forall later :: IsJitter(later) && attempts < MAX_ATTEMPTS ==>
              ComputeNextRetry(attempts, jitter) < ComputeNextRetry(attempts + 1, later)
  {
    WaitIsBounded(attempts, jitter);
    forall later | IsJitter(later) && attempts < MAX_ATTEMPTS
      ensures ComputeNextRetry(attempts, jitter) < ComputeNextRetry(attempts + 1, later)
    {
      WaitIsBounded(attempts + 1, later);
      TwoToGrows(attempts - 1, attempts);
    }
  }

  lemma WaitIsBounded(attempts: int, jitter: real)
    requires 1 <= attempts <= MAX_ATTEMPTS && IsJitter(jitter)
    ensures BASE_BACKOFF * TwoTo(attempts - 1) <= ComputeNextRetry(attempts, jitter)
                                                < 1.2 * (BASE_BACKOFF * TwoTo(attempts - 1))
    ensures BASE_BACKOFF * TwoTo(attempts - 1) <= 480.0
  {
    assert TwoTo(4) == 16.0;
    if attempts < 5 {
      TwoToGrows(attempts - 1, 4);
    }
    if attempts > 1 {
      TwoToGrows(0, attempts - 1);
    }
    Scale(BASE_BACKOFF * TwoTo(attempts - 1), jitter);
  }

  lemma Scale(backoff: real, jitter: real)
    requires backoff > 0.0 && IsJitter(jitter)
    ensures backoff <= backoff * (1.0 + jitter) < 1.2 * backoff
  {
    assert backoff * jitter >= 0.0;
    assert backoff * (0.2 - jitter) > 0.0;
  }

  function Doublings(n: nat): (r: nat)
    ensures r >= 1
  {
    if n == 0 then 1 else 2 * Doublings(n - 1)
  }

  lemma {:induction false} TwoToIsWhole(n: nat)
    ensures TwoTo(n) == Doublings(n) as real
  {
    if n > 0 {
      TwoToIsWhole(n - 1);
    }
  }

  /** The k-th wait in milliseconds, without jitter: half a minute, doubled k - 1 times. */
  function ShortestWait(k: nat): nat
    requires k > 0
  {
    30000 * Doublings(k - 1)
  }

  lemma WaitInMillis(now: int, attempts: nat, jitter: real)
    requires 1 <= attempts <= MAX_ATTEMPTS && IsJitter(jitter)
    ensures now + ShortestWait(attempts) <= TimeAfter(now, ComputeNextRetry(attempts, jitter))
                                          < now + ShortestWait(attempts) + ShortestWait(attempts) / 5
  {
    var wait := 1000.0 * ComputeNextRetry(attempts, jitter);
    BackoffDoubles(attempts, jitter);
    TwoToIsWhole(attempts - 1);
    var n := Doublings(attempts - 1);
    assert ShortestWait(attempts) == 5 * (6000 * n);
    assert (30000 * n) as real <= wait < (36000 * n) as real;
    assert 30000 * n <= wait.Floor < 36000 * n;
  }

  /** After its k-th failure an entry is not due until the doubled wait is over, and due for good
      once a fifth more has passed; the fifth failure is final. */
  lemma RetryWindow(rs: RetryState, failedAt: int, jitter: real, now: int)
    requires 0 <= rs.attempts < MAX_ATTEMPTS && !rs.finalized && IsJitter(jitter)
    ensures rs.attempts + 1 == MAX_ATTEMPTS <==> AdvanceRetryState(rs, failedAt, jitter).finalized
    ensures rs.attempts + 1 == MAX_ATTEMPTS ==>
              && !IsRetryDue(AdvanceRetryState(rs, failedAt, jitter), now)
              && AdvanceRetryState(rs, failedAt, jitter).nextRetryAt == rs.nextRetryAt
    ensures rs.attempts + 1 < MAX_ATTEMPTS ==>
              var wait := ShortestWait(rs.attempts + 1);
              && (IsRetryDue(AdvanceRetryState(rs, failedAt, jitter), now) ==> now >= failedAt + wait)
              && (now >= failedAt + wait + wait / 5 ==> IsRetryDue(AdvanceRetryState(rs, failedAt, jitter), now))
  {
    WaitInMillis(failedAt, rs.attempts + 1, jitter);
  }
}
