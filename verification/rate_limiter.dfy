/** Request rate limiting by token bucket: one bucket per client address,
    refilled continuously at a fixed rate up to its capacity, one token per
    request; buckets idle for ten minutes are dropped every five minutes, and
    the root and health paths are never limited. The clock is passed in as
    `now` (seconds). */
module RateLimiter {
  import opened Wrappers
  import opened PyText
  import Series

  // ---------------------------------------------------------- one bucket

  /** The two fields of a bucket that change. */
  datatype BucketState = BucketState(tokens: real, lastRefill: real)

  function Min(a: real, b: real): (m: real)
    ensures m <= a && m <= b && (m == a || m == b)
  {
    if a <= b then a else b
  }

  /** The tokens accrued at `rate` per second over `elapsed` seconds. */
  function Accrued(rate: real, elapsed: real): (t: real)
    ensures rate >= 0.0 && elapsed >= 0.0 ==> t >= 0.0
  {
    if rate >= 0.0 && elapsed >= 0.0 then
      Series.MulNonneg(elapsed, rate);
      elapsed * rate
    else elapsed * rate
  }

  /** Accrual over an interval is the sum over its two parts. */
  lemma AccruedSplits(rate: real, t0: real, t1: real, t2: real)
    ensures Accrued(rate, t2 - t0) == Accrued(rate, t2 - t1) + Accrued(rate, t1 - t0)
  {
    assert (t2 - t0) * rate == (t2 - t1) * rate + (t1 - t0) * rate;
  }

  /** `_refill`: add `elapsed * refill_rate` tokens, but never more than the
      capacity, and remember the time. */
  function Refilled(s: BucketState, capacity: int, rate: real, now: real): (r: BucketState)
    ensures r.tokens <= capacity as real
    ensures r.tokens <= s.tokens + Accrued(rate, now - s.lastRefill)
    ensures r.lastRefill == now
  {
    BucketState(Min(capacity as real, s.tokens + Accrued(rate, now - s.lastRefill)), now)
  }

  /** `consume(n)`: refill, then take `n` tokens if there are that many;
      otherwise take nothing and refuse. */
  function TryConsume(s: BucketState, capacity: int, rate: real, n: int, now: real): (BucketState, bool) {
    var r := Refilled(s, capacity, rate, now);
    if r.tokens >= n as real then (BucketState(r.tokens - n as real, now), true)
    else (r, false)
  }

  /** With a clock that does not run backwards and a non-negative rate, a
      bucket holding between 0 and its capacity keeps doing so. */
  lemma ConsumeKeepsBounds(s: BucketState, capacity: int, rate: real, n: int, now: real)
    requires 0.0 <= s.tokens <= capacity as real
    requires rate >= 0.0 && now >= s.lastRefill && n >= 0
    ensures 0.0 <= TryConsume(s, capacity, rate, n, now).0.tokens <= capacity as real
    ensures TryConsume(s, capacity, rate, n, now).0.lastRefill == now
  {
    var gained := Accrued(rate, now - s.lastRefill);
    var r := Refilled(s, capacity, rate, now);
    assert r.tokens == Min(capacity as real, s.tokens + gained);
    assert r.tokens >= 0.0;
  }

  /** Requests for one token each at the given times, in order: how many were
      granted, and the bucket afterwards. */
  function Run(s: BucketState, capacity: int, rate: real, times: seq<real>): (r: (nat, BucketState))
    ensures r.0 <= |times|
    ensures times == [] ==> r.1 == s
    ensures times != [] ==> r.1.lastRefill == times[|times| - 1]
    decreases |times|
  {
    if times == [] then (0, s)
    else
      var (s1, ok) := TryConsume(s, capacity, rate, 1, times[0]);
      var (granted, last) := Run(s1, capacity, rate, times[1..]);
      (granted + (if ok then 1 else 0), last)
  }

  predicate NonDecreasing(times: seq<real>) {
    forall i, j :: 0 <= i <= j < |times| ==> times[i] <= times[j]
  }

  /** Over any run, the tokens granted plus those left never exceed the
      tokens at the start plus what the rate allows for the time elapsed. */
  lemma {:induction false} RunGrantsAtMostRefill(s: BucketState, capacity: int, rate: real, times: seq<real>)
    ensures var (granted, last) := Run(s, capacity, rate, times);
            granted as real + last.tokens <= s.tokens + Accrued(rate, last.lastRefill - s.lastRefill)
    decreases |times|
  {
    if times != [] {
      var (s1, ok) := TryConsume(s, capacity, rate, 1, times[0]);
      RunGrantsAtMostRefill(s1, capacity, rate, times[1..]);
      var (granted, last) := Run(s1, capacity, rate, times[1..]);
      var r := Refilled(s, capacity, rate, times[0]);
      assert s1.tokens + (if ok then 1.0 else 0.0) <= r.tokens;
      assert r.tokens <= s.tokens + Accrued(rate, times[0] - s.lastRefill);
      AccruedSplits(rate, s.lastRefill, times[0], last.lastRefill);
    }
  }

  /** Along a run with a clock that does not run backwards, the bucket stays
      between 0 and its capacity. */
  lemma {:induction false} RunKeepsBounds(s: BucketState, capacity: int, rate: real, times: seq<real>)
    requires 0.0 <= s.tokens <= capacity as real && rate >= 0.0
    requires NonDecreasing(times) && (times != [] ==> s.lastRefill <= times[0])
    ensures 0.0 <= Run(s, capacity, rate, times).1.tokens <= capacity as real
    decreases |times|
  {
    if times != [] {
      ConsumeKeepsBounds(s, capacity, rate, 1, times[0]);
      var s1 := TryConsume(s, capacity, rate, 1, times[0]).0;
      assert NonDecreasing(times[1..]);
      if |times| > 1 {
        assert s1.lastRefill == times[0] <= times[1];
      }
      RunKeepsBounds(s1, capacity, rate, times[1..]);
    }
  }

  /** The long-run limit: from a bucket within its bounds, a run of requests
      gets at most the bucket's contents plus `rate` tokens per second
      elapsed. */
  lemma RateLimit(s: BucketState, capacity: int, rate: real, times: seq<real>)
    requires 0.0 <= s.tokens <= capacity as real && rate >= 0.0
    requires times != [] && NonDecreasing(times) && s.lastRefill <= times[0]
    ensures Run(s, capacity, rate, times).0 as real
              <= s.tokens + Accrued(rate, times[|times| - 1] - s.lastRefill)
  {
    RunGrantsAtMostRefill(s, capacity, rate, times);
    RunKeepsBounds(s, capacity, rate, times);
  }

  /** The burst: `k` requests at the very instant of the last refill get
      exactly as many tokens as the bucket holds whole, up to `k`. */
  lemma {:induction false} Burst(tokens: nat, capacity: int, rate: real, now: real, k: nat)
    requires tokens as real <= capacity as real
    ensures Run(BucketState(tokens as real, now), capacity, rate, seq(k, _ => now)).0
              == if k <= tokens then k else tokens
  {
    var times := seq(k, _ => now);
    if k > 0 {
      var s := BucketState(tokens as real, now);
      assert Refilled(s, capacity, rate, now) == s;
      assert times[1..] == seq(k - 1, _ => now);
      if tokens >= 1 {
        Burst(tokens - 1, capacity, rate, now, k - 1);
      } else {
        Burst(tokens, capacity, rate, now, k - 1);
      }
    }
  }

  /** `TokenBucket`. */
  class TokenBucket {
    const capacity: int
    const refillRate: real
    var tokens: real
    var lastRefill: real

    function State(): BucketState
      reads this
    {
      BucketState(tokens, lastRefill)
    }

    /** A new bucket starts full. */
    constructor(capacity: int, refillRate: real, now: real)
      ensures this.capacity == capacity && this.refillRate == refillRate
      ensures tokens == capacity as real && lastRefill == now
    {
      this.capacity := capacity;
      this.refillRate := refillRate;
      tokens := capacity as real;
      lastRefill := now;
    }

    method Refill(now: real)
      modifies this
      ensures State() == Refilled(old(State()), capacity, refillRate, now)
    {
      var elapsed := now - lastRefill;
      var toAdd := Accrued(refillRate, elapsed);
      tokens := Min(capacity as real, tokens + toAdd);
      lastRefill := now;
    }

    method Consume(n: int, now: real) returns (ok: bool)
      modifies this
      ensures (State(), ok) == TryConsume(old(State()), capacity, refillRate, n, now)
      ensures ok ==> old(State()).tokens + Accrued(refillRate, now - old(lastRefill)) >= n as real
      ensures !ok ==> tokens < n as real && tokens == Refilled(old(State()), capacity, refillRate, now).tokens
    {
      Refill(now);
      if tokens >= n as real {
        tokens := tokens - n as real;
        ok := true;
      } else {
        ok := false;
      }
    }
  }

  // ---------------------------------------------------------- middleware

  const CleanupInterval: real := 300.0
  const InactiveAfter: real := 600.0
  const BypassPaths: set<string> := {"/", "/health"}

  /** Request headers by lower-case name, as Starlette looks them up. */
  type Headers = map<string, string>

  /** What the middleware does with a request: pass it on unlimited, refuse
      it with 429 (reporting the per-minute limit), or serve it (reporting the
      limit and the whole tokens left). */
  datatype Outcome = Bypassed | Limited(limit: int) | Served(limit: int, remaining: int)

  /** A header that is present and not empty. */
  predicate HasHeader(headers: Headers, name: string) {
    name in headers && headers[name] != ""
  }

  /** `_get_client_ip`: the first entry of `X-Forwarded-For`, stripped;
      else `X-Real-IP`; else the connection's host; else "unknown". */
  function ClientIp(headers: Headers, client: Option<string>): (ip: string)
    ensures HasHeader(headers, "x-forwarded-for") ==>
              && ip == Strip(BeforeFirst(headers["x-forwarded-for"], ','))
              && ',' !in ip && (ip != "" ==> !IsSpace(ip[0]) && !IsSpace(ip[|ip| - 1]))
    ensures !HasHeader(headers, "x-forwarded-for") && HasHeader(headers, "x-real-ip") ==>
              ip == headers["x-real-ip"]
    ensures !HasHeader(headers, "x-forwarded-for") && !HasHeader(headers, "x-real-ip") ==>
              ip == (if client.Some? then client.value else "unknown")
  {
    if HasHeader(headers, "x-forwarded-for") then
      var first := Split(headers["x-forwarded-for"], ',')[0];
      var ip := Strip(first);
      StripKeepsAbsent(first, ',');
      ip
    else if HasHeader(headers, "x-real-ip") then headers["x-real-ip"]
    else if client.Some? then client.value
    else "unknown"
  }

  /** Behind a chain of proxies the first hop, stripped, is the client
      address, whatever the other headers and the connection say. */
  lemma ForwardedFirstHop(hops: seq<string>, headers: Headers, client: Option<string>)
    requires |hops| >= 1 && (|hops| > 1 || hops[0] != "")
    requires forall i :: 0 <= i < |hops| ==> ',' !in hops[i]
    ensures ClientIp(headers["x-forwarded-for" := Join(',', hops)], client) == Strip(hops[0])
  {
    var h := headers["x-forwarded-for" := Join(',', hops)];
    SplitJoinRoundTrip(',', hops);
    if |hops| > 1 {
      assert |Join(',', hops)| > 0;
    }
    assert HasHeader(h, "x-forwarded-for");
    assert Split(h["x-forwarded-for"], ',')[0] == hops[0];
  }

  /** The buckets `_cleanup_old_buckets` keeps: those refilled at or after
      the threshold. */
  function Recent(buckets: map<string, TokenBucket>, threshold: real): map<string, TokenBucket>
    reads buckets.Values
  {
    map ip | ip in buckets && buckets[ip].lastRefill >= threshold :: buckets[ip]
  }

  /** `RateLimiterMiddleware`. */
  class Middleware {
    const requestsPerMinute: int
    const burstSize: int
    const refillRate: real
    var buckets: map<string, TokenBucket>
    var lastCleanup: real

    /** Every bucket was made by this middleware, and no two addresses
        share one. */
    ghost predicate Valid()
      reads this
    {
      && (forall ip :: ip in buckets ==>
            buckets[ip].capacity == burstSize && buckets[ip].refillRate == refillRate)
      && (forall ip, ip' :: ip in buckets && ip' in buckets && ip != ip' ==> buckets[ip] != buckets[ip'])
    }

    constructor(requestsPerMinute: int, burstSize: int, now: real)
      ensures this.requestsPerMinute == requestsPerMinute && this.burstSize == burstSize
      ensures refillRate == requestsPerMinute as real / 60.0
      ensures buckets == map[] && lastCleanup == now
      ensures Valid()
    {
      this.requestsPerMinute := requestsPerMinute;
      this.burstSize := burstSize;
      refillRate := requestsPerMinute as real / 60.0;
      buckets := map[];
      lastCleanup := now;
    }

    /** The bucket state a request from `ip` at `now` starts from. */
    function StateFor(ip: string, now: real): BucketState
      reads this, buckets.Values
    {
      if ip in buckets then buckets[ip].State() else BucketState(burstSize as real, now)
    }

    /** `_get_bucket`: the address's bucket, made full on first sight; later
        calls get the same bucket back. */
    method GetBucket(ip: string, now: real) returns (b: TokenBucket)
      requires Valid()
      modifies this
      ensures Valid() && lastCleanup == old(lastCleanup)
      ensures ip in old(buckets) ==> b == old(buckets)[ip] && buckets == old(buckets)
      ensures ip !in old(buckets) ==>
                && fresh(b) && buckets == old(buckets)[ip := b]
                && b.tokens == burstSize as real && b.lastRefill == now
      ensures b.capacity == burstSize && b.refillRate == refillRate
    {
      if ip !in buckets {
        var created := new TokenBucket(burstSize, refillRate, now);
        buckets := buckets[ip := created];
      }
      b := buckets[ip];
    }

    /** `_cleanup_old_buckets`: at most once per interval, drop the buckets
        idle for longer than `InactiveAfter`. */
    method CleanupOldBuckets(now: real)
      requires Valid()
      modifies this
      ensures Valid()
      ensures now - old(lastCleanup) < CleanupInterval ==>
                buckets == old(buckets) && lastCleanup == old(lastCleanup)
      ensures now - old(lastCleanup) >= CleanupInterval ==>
                buckets == Recent(old(buckets), now - InactiveAfter) && lastCleanup == now
    {
      if now - lastCleanup < CleanupInterval {
        return;
      }
      var threshold := now - InactiveAfter;
      var toRemove := set ip | ip in buckets && buckets[ip].lastRefill < threshold;
      ghost var before := buckets;
      var remaining := toRemove;
      while remaining != {}
        invariant remaining <= toRemove
        invariant buckets == map ip | ip in before && ip !in toRemove - remaining :: before[ip]
        decreases |remaining|
      {
        var ip :| ip in remaining;
        buckets := buckets - {ip};
        remaining := remaining - {ip};
      }
      forall ip
        ensures ip in buckets <==> ip in Recent(before, threshold)
      {
        if ip in before {
          assert ip in toRemove <==> before[ip].lastRefill < threshold;
        }
      }
      assert buckets.Keys == Recent(before, threshold).Keys;
      lastCleanup := now;
    }

    /** `dispatch`: the root and health paths pass unlimited; any other
        request takes one token from its client's bucket or is refused, and
        only served requests trigger the periodic cleanup. The client's
        bucket is the only one whose contents change, and it always
        survives the cleanup, since it has just been refilled. */
    method Dispatch(path: string, headers: Headers, client: Option<string>, now: real)
      returns (out: Outcome)
      requires Valid()
      modifies this, buckets.Values
      ensures Valid()
      ensures path in BypassPaths ==>
                && out == Bypassed && buckets == old(buckets) && lastCleanup == old(lastCleanup)
                && unchanged(buckets.Values)
      ensures path !in BypassPaths ==>
                var ip := ClientIp(headers, client);
                var (after, ok) := TryConsume(old(StateFor(ip, now)), burstSize, refillRate, 1, now);
                && out == (if ok then Served(requestsPerMinute, Truncate(after.tokens)) else Limited(requestsPerMinute))
                && ip in buckets && buckets[ip].State() == after
                && (ip in old(buckets) ==> buckets[ip] == old(buckets)[ip])
                && (ip !in old(buckets) ==> fresh(buckets[ip]))
                && (forall j :: j in buckets && j != ip ==>
                      j in old(buckets) && buckets[j] == old(buckets)[j] && buckets[j].State() == old(buckets[j].State()))
      ensures path !in BypassPaths && (out.Limited? || now - old(lastCleanup) < CleanupInterval) ==>
                && lastCleanup == old(lastCleanup)
                && buckets.Keys == old(buckets).Keys + {ClientIp(headers, client)}
      ensures path !in BypassPaths && out.Served? && now - old(lastCleanup) >= CleanupInterval ==>
                && lastCleanup == now
                && forall j :: j in buckets <==>
                     j == ClientIp(headers, client)
                     || (j in old(buckets) && old(buckets[j].lastRefill) >= now - InactiveAfter)
    {
      if path in BypassPaths {
        return Bypassed;
      }
      var ip := ClientIp(headers, client);
      var bucket := GetBucket(ip, now);
      var ok := bucket.Consume(1, now);
      if !ok {
        return Limited(requestsPerMinute);
      }
      CleanupOldBuckets(now);
      out := Served(requestsPerMinute, Truncate(bucket.tokens));
    }
  }
}
