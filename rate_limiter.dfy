/**
 * The in-memory fixed-window rate limiter (`RateLimiter`). The process-wide
 * singleton is an ordinary object built by a constructor, and the clock
 * reading `Date.now()` is the `now` parameter of each operation.
 */
module RateLimiting {

  /** `RateLimitRecord`: the requests counted in the current window and when it ends. */
  datatype RateLimitRecord = RateLimitRecord(count: int, resetTime: int)

  type Limits = map<string, RateLimitRecord>

  /** The constructor's defaults: a window of 15 minutes, 100 requests per window. */
  const DefaultWindowMs := 15 * 60 * 1000
  const DefaultMaxRequests := 100

  /** The record of `id` governs `now` (otherwise there is none, or its window has expired). */
  predicate InWindow(limits: Limits, id: string, now: int) {
    id in limits && now <= limits[id].resetTime
  }

  /** Every stored count is at least 1 and, once the cap allows a request at all, at most the cap. */
  ghost predicate Bounded(limits: Limits, maxRequests: int) {
    forall id :: id in limits ==> 1 <= limits[id].count && (maxRequests >= 1 ==> limits[id].count <= maxRequests)
  }

  /**
   * One `checkLimit(id)` at time `now`: whether the request is allowed, and the
   * new table.
   */
  function Check(limits: Limits, id: string, now: int, windowMs: int, maxRequests: int): (r: (bool, Limits))
    ensures r.1.Keys == limits.Keys + {id}
    ensures forall other :: other in limits && other != id ==> r.1[other] == limits[other]
    ensures r.0 <==> !InWindow(limits, id, now) || limits[id].count < maxRequests
    ensures !InWindow(limits, id, now) ==> r.1[id] == RateLimitRecord(1, now + windowMs)
    ensures InWindow(limits, id, now) && r.0 ==>
              r.1[id] == RateLimitRecord(limits[id].count + 1, limits[id].resetTime)
    ensures !r.0 ==> r.1 == limits
  {
    if id !in limits || now > limits[id].resetTime then
      (true, limits[id := RateLimitRecord(1, now + windowMs)])
    else if limits[id].count >= maxRequests then
      (false, limits)
    else
      (true, limits[id := limits[id].(count := limits[id].count + 1)])
  }

  /** `getRemainingRequests(id)` at time `now`. */
  function Remaining(limits: Limits, id: string, now: int, maxRequests: int): (n: int)
    ensures !InWindow(limits, id, now) ==> n == maxRequests
    ensures InWindow(limits, id, now) ==> n == if maxRequests - limits[id].count > 0 then maxRequests - limits[id].count else 0
  {
    if id !in limits || now > limits[id].resetTime then maxRequests
    else if maxRequests - limits[id].count > 0 then maxRequests - limits[id].count
    else 0
  }

  /** `checkLimit` keeps every stored count within its bounds. */
  lemma CheckKeepsBounded(limits: Limits, id: string, now: int, windowMs: int, maxRequests: int)
    requires Bounded(limits, maxRequests)
    ensures Bounded(Check(limits, id, now, windowMs, maxRequests).1, maxRequests)
  {
    var next := Check(limits, id, now, windowMs, maxRequests).1;
    forall k | k in next
      ensures 1 <= next[k].count && (maxRequests >= 1 ==> next[k].count <= maxRequests)
    {
      if k != id {
        assert next[k] == limits[k];
      }
    }
  }

  /**
   * With a positive cap, a request is denied exactly when `getRemainingRequests`
   * reports none left.
   */
  lemma DeniedIffNoneRemaining(limits: Limits, id: string, now: int, windowMs: int, maxRequests: int)
    requires maxRequests >= 1
    ensures !Check(limits, id, now, windowMs, maxRequests).0 <==> Remaining(limits, id, now, maxRequests) == 0
  {
  }

  /** An allowed request uses up exactly one of the remaining requests of its window. */
  lemma AllowedUsesOneRequest(limits: Limits, id: string, now: int, windowMs: int, maxRequests: int)
    requires Bounded(limits, maxRequests) && maxRequests >= 1 && windowMs >= 0
    requires Check(limits, id, now, windowMs, maxRequests).0
    ensures Remaining(Check(limits, id, now, windowMs, maxRequests).1, id, now, maxRequests)
            == (if InWindow(limits, id, now) then Remaining(limits, id, now, maxRequests) else maxRequests) - 1
  {
  }

  /** `getSize()` grows by one exactly when an untracked identifier is checked. */
  lemma CheckSize(limits: Limits, id: string, now: int, windowMs: int, maxRequests: int)
    ensures |Check(limits, id, now, windowMs, maxRequests).1| == |limits| + (if id in limits then 0 else 1)
  {
    var next := Check(limits, id, now, windowMs, maxRequests).1;
    if id in limits {
      assert next.Keys == limits.Keys;
    } else {
      assert next.Keys == limits.Keys + {id};
      assert |next.Keys| == |limits.Keys| + 1;
    }
  }

  /** After `resetLimit(id)` the next `checkLimit(id)` opens a fresh window, whatever the old record was. */
  lemma ResetStartsFreshWindow(limits: Limits, id: string, now: int, windowMs: int, maxRequests: int)
    ensures Check(limits - {id}, id, now, windowMs, maxRequests)
            == (true, (limits - {id})[id := RateLimitRecord(1, now + windowMs)])
  {
  }

  /** Successive `checkLimit(id)` calls at the times `nows`: the answers and the final table. */
  function CheckAll(limits: Limits, id: string, nows: seq<int>, windowMs: int, maxRequests: int): (r: (seq<bool>, Limits))
    ensures |r.0| == |nows|
    ensures r.1.Keys == limits.Keys + (if nows == [] then {} else {id})
    ensures forall other :: other in limits && other != id ==> r.1[other] == limits[other]
    decreases |nows|
  {
    if nows == [] then ([], limits)
    else
      var (allowed, next) := Check(limits, id, nows[0], windowMs, maxRequests);
      var (rest, final) := CheckAll(next, id, nows[1..], windowMs, maxRequests);
      ([allowed] + rest, final)
  }

  /**
   * Within an active window whose record has already counted `count` requests,
   * the k-th further request is allowed exactly when `count + k` is below the cap.
   */
  lemma {:induction false} ActiveWindowRun(limits: Limits, id: string, nows: seq<int>, windowMs: int, maxRequests: int, count: int)
    requires id in limits && limits[id].count == count
    requires forall k :: 0 <= k < |nows| ==> nows[k] <= limits[id].resetTime
    ensures forall k :: 0 <= k < |nows| ==> CheckAll(limits, id, nows, windowMs, maxRequests).0[k] == (count + k < maxRequests)
    decreases |nows|
  {
    if nows != [] {
      var (allowed, next) := Check(limits, id, nows[0], windowMs, maxRequests);
      assert InWindow(limits, id, nows[0]);
      var count' := if allowed then count + 1 else count;
      assert next[id].resetTime == limits[id].resetTime && next[id].count == count';
      ActiveWindowRun(next, id, nows[1..], windowMs, maxRequests, count');
      var answers := CheckAll(limits, id, nows, windowMs, maxRequests).0;
      var rest := CheckAll(next, id, nows[1..], windowMs, maxRequests).0;
      assert answers == [allowed] + rest;
      forall k | 1 <= k < |nows|
        ensures answers[k] == (count + k < maxRequests)
      {
        assert answers[k] == rest[k - 1];
        assert rest[k - 1] == (count' + (k - 1) < maxRequests);
        if !allowed {
          assert count >= maxRequests;
        }
      }
    }
  }

  /**
   * Starting a fresh window (no record, or an expired one) at `nows[0]`, and
   * staying inside it, the first `maxRequests` calls are allowed and every
   * later one is denied.
   */
  lemma {:induction false} FirstMaxRequestsAllowed(limits: Limits, id: string, nows: seq<int>, windowMs: int, maxRequests: int)
    requires maxRequests >= 1 && nows != []
    requires !InWindow(limits, id, nows[0])
    requires forall k :: 0 <= k < |nows| ==> nows[k] <= nows[0] + windowMs
    ensures forall k :: 0 <= k < |nows| ==> CheckAll(limits, id, nows, windowMs, maxRequests).0[k] == (k < maxRequests)
  {
    var (allowed, next) := Check(limits, id, nows[0], windowMs, maxRequests);
    assert next[id] == RateLimitRecord(1, nows[0] + windowMs);
    forall k | 0 <= k < |nows[1..]| ensures nows[1..][k] <= next[id].resetTime {
      assert nows[1..][k] == nows[k + 1];
    }
    ActiveWindowRun(next, id, nows[1..], windowMs, maxRequests, 1);
    var answers := CheckAll(limits, id, nows, windowMs, maxRequests).0;
    var rest := CheckAll(next, id, nows[1..], windowMs, maxRequests).0;
    assert answers == [allowed] + rest;
    forall k | 1 <= k < |nows| ensures answers[k] == (k < maxRequests) {
      assert answers[k] == rest[k - 1];
    }
  }

  class RateLimiter {
    /** The private `limits` map. */
    var limits: Limits
    /** `WINDOW_MS` and `MAX_REQUESTS`, fixed by the constructor. */
    const windowMs: int
    const maxRequests: int

    ghost predicate Valid()
      reads this
    {
      Bounded(limits, maxRequests)
    }

    /** The constructor with explicit configuration. */
    constructor (windowMs: int, maxRequests: int)
      ensures Valid() && limits == map[]
      ensures this.windowMs == windowMs && this.maxRequests == maxRequests
    {
      this.limits := map[];
      this.windowMs := windowMs;
      this.maxRequests := maxRequests;
    }

    /** The constructor with its default arguments, as `getInstance()` first builds it. */
    constructor WithDefaults()
      ensures Valid() && limits == map[]
      ensures windowMs == DefaultWindowMs && maxRequests == DefaultMaxRequests
    {
      limits := map[];
      windowMs := DefaultWindowMs;
      maxRequests := DefaultMaxRequests;
    }

    method CheckLimit(id: string, now: int) returns (allowed: bool)
      requires Valid()
      modifies this
      ensures Valid()
      ensures (allowed, limits) == Check(old(limits), id, now, windowMs, maxRequests)
    {
      CheckKeepsBounded(limits, id, now, windowMs, maxRequests);
      if id !in limits || now > limits[id].resetTime {
        limits := limits[id := RateLimitRecord(1, now + windowMs)];
        return true;
      }
      var record := limits[id];
      if record.count >= maxRequests {
        return false;
      }
      limits := limits[id := record.(count := record.count + 1)];
      return true;
    }

    method GetRemainingRequests(id: string, now: int) returns (n: int)
      ensures n == Remaining(limits, id, now, maxRequests)
      ensures Valid() && maxRequests >= 0 ==> 0 <= n <= maxRequests
    {
      if id !in limits || now > limits[id].resetTime {
        return maxRequests;
      }
      var left := maxRequests - limits[id].count;
      n := if left > 0 then left else 0;
    }

    method ResetLimit(id: string)
      requires Valid()
      modifies this
      ensures Valid()
      ensures limits == old(limits) - {id}
    {
      limits := limits - {id};
    }

    method ClearAll()
      modifies this
      ensures Valid() && limits == map[]
    {
      limits := map[];
    }

    method GetSize() returns (n: nat)
      ensures n == |limits.Keys|
    {
      n := |limits|;
    }
  }
}
