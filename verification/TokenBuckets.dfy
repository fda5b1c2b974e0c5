/** The rate limiter: a token bucket over real time. */
module TokenBuckets {

  /** Settings and state; time is in seconds. */
  datatype Bucket = Bucket(tokens: real, maxTokens: real, refillRate: real, lastRefill: real)

  ghost predicate Proper(b: Bucket) {
    b.refillRate >= 0.0 && 0.0 <= b.tokens <= b.maxTokens
  }

  /** What flows in between two instants. */
  function Inflow(rate: real, from: real, to: real): real {
    (to - from) * rate
  }

  /** The tokens at `now`, before anything is taken. */
  function Refilled(b: Bucket, now: real): real {
    var t := b.tokens + Inflow(b.refillRate, b.lastRefill, now);
    if t > b.maxTokens then b.maxTokens else t
  }

  predicate Grants(b: Bucket, now: real) {
    Refilled(b, now) >= 1.0
  }

  function Taken(b: Bucket, now: real): Bucket {
    var t := Refilled(b, now);
    b.(tokens := if t >= 1.0 then t - 1.0 else t, lastRefill := now)
  }

  class TokenBucket {
    var tokens: real
    var lastRefill: real
    const maxTokens: real
    const refillRate: real

    function Fields(): Bucket
      reads this
    {
      Bucket(tokens, maxTokens, refillRate, lastRefill)
    }

    constructor (maxTokens: real, refillRate: real, now: real)
      ensures Fields() == Bucket(maxTokens, maxTokens, refillRate, now)
    {
      tokens, lastRefill := maxTokens, now;
      this.maxTokens, this.refillRate := maxTokens, refillRate;
    }

    method TryTake(now: real) returns (granted: bool)
      modifies this
      ensures granted == Grants(old(Fields()), now)
      ensures Fields() == Taken(old(Fields()), now)
    {
      var elapsed := now - lastRefill;
      var refill := elapsed * refillRate;
      assert refill == Inflow(refillRate, lastRefill, now);
      tokens := tokens + refill;
      if tokens > maxTokens {
        tokens := maxTokens;
      }
      lastRefill := now;
      if tokens >= 1.0 {
        tokens := tokens - 1.0;
        return true;
      }
      return false;
    }
  }

  // ----- Runs of calls -----

  ghost predicate InOrder(from: real, times: seq<real>) {
    (forall i :: 0 <= i < |times| ==> from <= times[i]) &&
    (forall i, j :: 0 <= i < j < |times| ==> times[i] <= times[j])
  }

  function AfterAll(b: Bucket, times: seq<real>): Bucket
    decreases |times|
  {
    if times == [] then b else AfterAll(Taken(b, times[0]), times[1..])
  }

  function Granted(b: Bucket, times: seq<real>): nat
    decreases |times|
  {
    if times == [] then 0 else (if Grants(b, times[0]) then 1 else 0) + Granted(Taken(b, times[0]), times[1..])
  }

  lemma InflowIsNonnegative(rate: real, from: real, to: real)
    requires from <= to && rate >= 0.0
    ensures Inflow(rate, from, to) >= 0.0
  {
    var elapsed := to - from;
    assert elapsed * rate >= 0.0;
  }

  /** A call keeps the level within the bucket. */
  lemma TakenIsProper(b: Bucket, now: real)
    requires Proper(b) && b.lastRefill <= now
    ensures Proper(Taken(b, now))
  {
    InflowIsNonnegative(b.refillRate, b.lastRefill, now);
  }

  lemma OrderContinues(from: real, times: seq<real>)
    requires InOrder(from, times) && times != []
    ensures InOrder(times[0], times[1..])
  {
  }

  lemma InflowAdds(rate: real, a: real, b: real, c: real)
    ensures Inflow(rate, a, b) + Inflow(rate, b, c) == Inflow(rate, a, c)
  {
  }

  lemma InflowGrows(rate: real, a: real, b: real, c: real)
    requires rate >= 0.0 && a <= b <= c
    ensures 0.0 <= Inflow(rate, b, c) <= Inflow(rate, a, c)
  {
    InflowAdds(rate, a, b, c);
    InflowIsNonnegative(rate, a, b);
    InflowIsNonnegative(rate, b, c);
  }

  function Grant(b: Bucket, now: real): nat {
    if Grants(b, now) then 1 else 0
  }

  /** One call pays for its grant out of the level and the inflow up to it. */
  lemma CallIsPaidFor(b: Bucket, now: real)
    ensures Grant(b, now) as real + Taken(b, now).tokens <= b.tokens + Inflow(b.refillRate, b.lastRefill, now)
    ensures Grant(b, now) as real + Taken(b, now).tokens <= b.maxTokens
  {
  }

  /** What is granted and what is left never exceed what was there and what flowed in. */
  lemma {:induction false} GrantsArePaidFor(b: Bucket, times: seq<real>, end: real)
    requires Proper(b) && InOrder(b.lastRefill, times)
    requires b.lastRefill <= end && forall i :: 0 <= i < |times| ==> times[i] <= end
    ensures Proper(AfterAll(b, times))
    ensures Granted(b, times) as real + AfterAll(b, times).tokens <= b.tokens + Inflow(b.refillRate, b.lastRefill, end)
    decreases |times|
  {
    if times == [] {
      InflowGrows(b.refillRate, b.lastRefill, b.lastRefill, end);
    } else {
      TakenIsProper(b, times[0]);
      OrderContinues(b.lastRefill, times);
      assert forall i :: 0 <= i < |times[1..]| ==> times[1..][i] == times[i + 1];
      var next := Taken(b, times[0]);
      GrantsArePaidFor(next, times[1..], end);
      PaidTogether(b, times[0], end, Granted(next, times[1..]), AfterAll(next, times[1..]).tokens);
      Unroll(b, times);
    }
  }

  lemma Unroll(b: Bucket, times: seq<real>)
    requires times != []
    ensures Granted(b, times) == Grant(b, times[0]) + Granted(Taken(b, times[0]), times[1..])
    ensures AfterAll(b, times) == AfterAll(Taken(b, times[0]), times[1..])
  {
  }

  /** A first call and the rest of a run, each paid for, are paid for together. */
  lemma PaidTogether(b: Bucket, now: real, end: real, rest: nat, left: real)
    requires rest as real + left <= Taken(b, now).tokens + Inflow(b.refillRate, now, end)
    ensures (Grant(b, now) + rest) as real + left <= b.tokens + Inflow(b.refillRate, b.lastRefill, end)
  {
    CallIsPaidFor(b, now);
    InflowAdds(b.refillRate, b.lastRefill, now, end);
  }

  lemma {:induction false} AfterAllSplits(b: Bucket, early: seq<real>, late: seq<real>)
    ensures AfterAll(b, early + late) == AfterAll(AfterAll(b, early), late)
    ensures Granted(b, early + late) == Granted(b, early) + Granted(AfterAll(b, early), late)
    decreases |early|
  {
    if early == [] {
      assert early + late == late;
    } else {
      assert (early + late)[1..] == early[1..] + late;
      AfterAllSplits(Taken(b, early[0]), early[1..], late);
    }
  }

  /** Whatever happened before, the calls between the instants `start` and `end` are granted at most
      `maxTokens` plus what flows in between them. */
  lemma WindowBound(b: Bucket, early: seq<real>, late: seq<real>, start: real, end: real)
    requires Proper(b) && InOrder(b.lastRefill, early + late) && start <= end
    requires forall i :: 0 <= i < |late| ==> start <= late[i] <= end
    ensures (Granted(b, early + late) - Granted(b, early)) as real <= b.maxTokens + Inflow(b.refillRate, start, end)
  {
    AfterAllSplits(b, early, late);
    EarlyPart(b, early, late);
    SameSettings(b, early);
    LateBound(AfterAll(b, early), late, start, end);
  }

  lemma LateBound(b: Bucket, late: seq<real>, start: real, end: real)
    requires Proper(b) && InOrder(b.lastRefill, late) && start <= end
    requires forall i :: 0 <= i < |late| ==> start <= late[i] <= end
    ensures Granted(b, late) as real <= b.maxTokens + Inflow(b.refillRate, start, end)
  {
    if late == [] {
      InflowGrows(b.refillRate, start, start, end);
    } else {
      TakenIsProper(b, late[0]);
      OrderContinues(b.lastRefill, late);
      assert forall i :: 0 <= i < |late[1..]| ==> late[1..][i] == late[i + 1];
      GrantsArePaidFor(Taken(b, late[0]), late[1..], end);
      CallIsPaidFor(b, late[0]);
      InflowGrows(b.refillRate, start, late[0], end);
      assert Granted(b, late) == Grant(b, late[0]) + Granted(Taken(b, late[0]), late[1..]);
    }
  }

  lemma {:induction false} SameSettings(b: Bucket, times: seq<real>)
    ensures AfterAll(b, times).maxTokens == b.maxTokens && AfterAll(b, times).refillRate == b.refillRate
    decreases |times|
  {
    if times != [] {
      SameSettings(Taken(b, times[0]), times[1..]);
    }
  }

  /** After the early calls the bucket is proper and its clock is not past the late ones. */
  lemma {:induction false} EarlyPart(b: Bucket, early: seq<real>, late: seq<real>)
    requires Proper(b) && InOrder(b.lastRefill, early + late)
    ensures Proper(AfterAll(b, early)) && InOrder(AfterAll(b, early).lastRefill, late)
    decreases |early|
  {
    var times := early + late;
    if early == [] {
      assert times == late;
    } else {
      assert times[0] == early[0];
      TakenIsProper(b, early[0]);
      assert times[1..] == early[1..] + late;
      OrderContinues(b.lastRefill, times);
      EarlyPart(Taken(b, early[0]), early[1..], late);
    }
  }

  /** Nobody is starved: a bucket that can hold a token grants one to any call that comes at least
      `1 / refillRate` seconds after the last. */
  lemma PatienceIsRewarded(b: Bucket, now: real)
    requires Proper(b) && b.maxTokens >= 1.0 && b.refillRate > 0.0
    requires now - b.lastRefill >= 1.0 / b.refillRate
    ensures Grants(b, now)
  {
    InflowCoversOne(b.refillRate, b.lastRefill, now);
  }

  lemma InflowCoversOne(rate: real, from: real, to: real)
    requires rate > 0.0 && to - from >= 1.0 / rate
    ensures Inflow(rate, from, to) >= 1.0
  {
    var wait := 1.0 / rate;
    assert wait * rate == 1.0;
    InflowAdds(rate, from, from + wait, to);
    InflowIsNonnegative(rate, from + wait, to);
    assert Inflow(rate, from, from + wait) == wait * rate;
  }

  /** `n` calls at one instant. */
  function Burst(now: real, n: nat): seq<real> {
    seq(n, i => now)
  }

  /** A call that is paid for is granted and leaves one token less. */
  lemma GrantTakesOne(b: Bucket, now: real)
    requires Proper(b) && b.lastRefill <= now && Refilled(b, now) >= 1.0
    ensures Grants(b, now) && Proper(Taken(b, now)) && Taken(b, now).lastRefill == now
    ensures Refilled(Taken(b, now), now) == Refilled(b, now) - 1.0
  {
    TakenIsProper(b, now);
    assert Inflow(b.refillRate, now, now) == 0.0;
  }

  /** Of the calls that come at one instant the bucket grants exactly as many as it holds whole
      tokens, with what has flowed in up to then, and the first ones at that. */
  lemma {:induction false} BurstIsGranted(b: Bucket, now: real, n: nat)
    requires Proper(b) && b.lastRefill <= now
    ensures Granted(b, Burst(now, n)) == if n as real <= Refilled(b, now) then n else Refilled(b, now).Floor
    decreases n
  {
    InflowIsNonnegative(b.refillRate, b.lastRefill, now);
    if n > 0 {
      var calls := Burst(now, n);
      assert calls[1..] == Burst(now, n - 1);
      Unroll(b, calls);
      TakenIsProper(b, now);
      BurstIsGranted(Taken(b, now), now, n - 1);
      if Refilled(b, now) >= 1.0 {
        GrantTakesOne(b, now);
      } else {
        assert Inflow(b.refillRate, now, now) == 0.0;
      }
    }
  }

  /** A bucket that holds as many tokens as calls come grants them all, whenever they come. */
  lemma {:induction false} TokensAreGranted(b: Bucket, times: seq<real>)
    requires Proper(b) && InOrder(b.lastRefill, times) && |times| as real <= b.tokens
    ensures Granted(b, times) == |times|
    decreases |times|
  {
    if times != [] {
      InflowIsNonnegative(b.refillRate, b.lastRefill, times[0]);
      TakenIsProper(b, times[0]);
      OrderContinues(b.lastRefill, times);
      Unroll(b, times);
      TokensAreGranted(Taken(b, times[0]), times[1..]);
    }
  }
}
