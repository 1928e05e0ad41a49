/** The limiter that keeps its buckets in memory (ratelimit/ratelimiter.go, ratelimit/middleware.go). */
module RateLimiter {
  import opened TokenBuckets

  datatype RateLimitResult = RateLimitResult(allowed: bool, remaining: int, currentTokens: real, retryAfter: int)

  class BucketCell {
    var tokens: real
    var lastRefill: real
    const limits: Limits

    constructor (limits: Limits, now: real)
      ensures tokens == limits.Max() && lastRefill == now && this.limits == limits
    {
      this.tokens, this.lastRefill, this.limits := limits.Max(), now, limits;
    }

    function Value(): Bucket
      reads this
    {
      Bucket(tokens, lastRefill)
    }

    /** Adds what was earned since the last refill, up to the capacity. */
    method Refill(now: real)
      modifies this
      ensures Value() == Bucket(Refilled(limits, old(Value()), now), now)
    {
      var elapsed := now - lastRefill;
      var tokensToAdd := elapsed * limits.rate;
      tokens := Min(limits.Max(), tokens + tokensToAdd);
      lastRefill := now;
    }

    /** Takes a token if there is one, or says how long to wait for it. */
    method Take() returns (result: RateLimitResult)
      requires limits.Valid()
      modifies this
      ensures Value() == Bucket(Charged(old(tokens)), old(lastRefill))
      ensures result.allowed == (old(tokens) >= 1.0) && result.currentTokens == old(tokens)
      ensures result.remaining == tokens.Floor
      ensures !result.allowed ==> result.retryAfter == RetryAfterNanos(limits, result.currentTokens)
    {
      var allowed, found, wait := tokens >= 1.0, tokens, 0;
      if allowed {
        tokens := tokens - 1.0;
      } else {
        var tokensNeeded := 1.0 - tokens;
        var secondsToWait := tokensNeeded / limits.rate;
        wait := (secondsToWait * NANOS).Floor;
      }
      result := RateLimitResult(allowed, tokens.Floor, found, wait);
    }
  }

  class TokenBucketLimiter {
    const limits: Limits
    var buckets: map<Key, BucketCell>

    /** No two keys share a bucket. */
    ghost predicate Valid()
      reads this, buckets.Values
    {
      && limits.Valid() && limits.idle == HOUR
      && (forall k :: k in buckets ==> buckets[k].limits == limits)
      && forall k, k' :: k in buckets && k' in buckets && k != k' ==> buckets[k] != buckets[k']
    }

    ghost function Store(): Buckets
      reads this, buckets.Values
    {
      map k | k in buckets :: buckets[k].Value()
    }

    /** A limiter for `maxTokens` at `refillRate` tokens per interval; what is zero gets its default. */
    constructor (maxTokens: nat, refillRate: nat, refillInterval: real)
      requires refillInterval >= 0.0
      ensures Valid() && Store() == map[] && limits.maxTokens >= 1
      ensures limits.maxTokens == (if maxTokens > 0 then maxTokens else 100) && limits.idle == 3600.0
      ensures limits.rate * (if refillInterval > 0.0 then refillInterval else 1.0)
           == (if refillRate > 0 then refillRate as real else 10.0)
    {
      var most := if maxTokens == 0 then 100 else maxTokens;
      var tokens := if refillRate == 0 then 10 else refillRate;
      var interval := if refillInterval == 0.0 then 1.0 else refillInterval;
      Quotient(tokens as real, interval);
      this.limits, this.buckets := Limits(most, tokens as real / interval, HOUR), map[];
    }

    /** The bucket of `key`; a new one is full, and the level of no key changes. */
    method GetOrCreate(key: Key, now: real) returns (bucket: BucketCell)
      requires Valid()
      modifies this
      ensures Valid() && key in buckets && buckets[key] == bucket
      ensures buckets.Keys == old(buckets.Keys) + {key}
      ensures key !in old(buckets) ==> fresh(bucket)
      ensures forall k :: k in old(buckets) ==> buckets[k] == old(buckets[k])
      ensures Store() == if key in old(Store()) then old(Store()) else old(Store())[key := Bucket(limits.Max(), now)]
    {
      if key in buckets {
        bucket := buckets[key];
      } else {
        bucket := new BucketCell(limits, now);
        buckets := buckets[key := bucket];
      }
    }

    /** Refills the bucket of `key` and takes a token from it; no other bucket changes. */
    method Charge(key: Key, now: real) returns (result: RateLimitResult)
      requires Valid() && key in buckets
      modifies buckets[key]
      ensures Valid()
      ensures Store() == old(Store())[key := Bucket(Charged(Refilled(limits, old(buckets[key].Value()), now)), now)]
      ensures result.currentTokens == Refilled(limits, old(buckets[key].Value()), now)
      ensures result.allowed == (result.currentTokens >= 1.0)
      ensures result.remaining == Charged(result.currentTokens).Floor
      ensures !result.allowed ==> result.retryAfter == RetryAfterNanos(limits, result.currentTokens)
    {
      hide Refilled, Charged, RetryAfterNanos;
      var bucket := buckets[key];
      bucket.Refill(now);
      result := bucket.Take();
      assert forall k :: k in buckets && k != key ==> buckets[k].Value() == old(buckets[k].Value());
    }

    /** Serves one request: the store takes the request's step, and the result says whether the
        request found a token, what is left, and how long to wait if it did not. */
    method AllowInMemory(key: Key, now: real) returns (result: RateLimitResult)
      requires Valid()
      modifies this, buckets.Values
      ensures Valid()
      ensures Store() == Step(limits, old(Store()), Request(key, now))
      ensures result.allowed == Allowed(limits, old(Store()), key, now)
      ensures result.currentTokens == Level(limits, old(Store()), key, now)
      ensures result.remaining == Store()[key].tokens.Floor
      ensures !result.allowed ==> result.retryAfter == RetryAfterNanos(limits, result.currentTokens)
      ensures !result.allowed ==>
                var wait := (1.0 - result.currentTokens) / limits.rate;
                result.retryAfter as real <= wait * 1000000000.0 < result.retryAfter as real + 1.0
    {
      hide Refilled, Charged, RetryAfterNanos, Valid;
      ghost var before := Store();
      var bucket := GetOrCreate(key, now);
      NewIsFull(limits, before, key, now);
      assert bucket.Value() == Store()[key];
      result := Charge(key, now);
      NanosExact(limits, result.currentTokens);
    }

    /** Drops the buckets that have been idle for longer than an hour. */
    method CleanUp(now: real)
      requires Valid()
      modifies this
      ensures Valid()
      ensures Store() == Cleaned(limits, old(Store()), now)
      ensures forall k :: k in old(Store()) ==> (k in Store() <==> now - old(Store())[k].lastRefill <= 3600.0)
    {
      var keys := buckets.Keys;
      ghost var before := Store();
      while keys != {}
        invariant keys <= before.Keys == old(buckets.Keys)
        invariant forall k :: k in buckets ==> k in old(buckets) && buckets[k] == old(buckets[k])
        invariant forall k :: k in keys ==> k in buckets
        invariant forall k :: k in before && k !in keys ==>
                    (k in buckets <==> now - before[k].lastRefill <= limits.idle)
        decreases |keys|
      {
        var key :| key in keys;
        if now - buckets[key].lastRefill > limits.idle {
          buckets := buckets - {key};
        }
        keys := keys - {key};
      }
    }
  }

  lemma Quotient(a: real, b: real)
    requires a > 0.0 && b > 0.0
    ensures a / b > 0.0 && a / b * b == a
  {
  }

  /** Refilling a bucket that was just created changes nothing. */
  lemma NewIsFull(l: Limits, s: Buckets, key: Key, now: real)
    ensures Refilled(l, if key in s then s[key] else Bucket(l.Max(), now), now) == Level(l, s, key, now)
  {
  }

  /** The value of the Retry-After header of a refused request. */
  method RetryAfterHeader(result: RateLimitResult, ghost l: Limits, ghost s: Buckets, ghost key: Key, ghost now: real)
    returns (seconds: int)
    requires l.Valid() && l.maxTokens >= 1 && Sound(l, s, now) && !Allowed(l, s, key, now)
    requires result.retryAfter == RetryAfterNanos(l, Level(l, s, key, now))
    ensures forall hs, later :: Without(hs, key) && now + seconds as real <= later
              ==> Allowed(l, Run(l, Step(l, s, Request(key, now)), hs), key, later)
    ensures seconds as real <= (1.0 - Level(l, s, key, now)) / l.rate + 1.0
    ensures forall hs, later :: Without(hs, key) && NoCleanup(hs) && now <= later < now + seconds as real - 1.0
              ==> !Allowed(l, Run(l, Step(l, s, Request(key, now)), hs), key, later)
  {
    hide Allowed, Run, Step, Sound, Level, RetryAfterNanos;
    RetryAfterSuffices(l, s, key, now, [], now);
    RetryAfterTight(l, s, key, now, [], now);
    seconds := result.retryAfter / 1000000000 + 1;
    forall hs, later | Without(hs, key) && now + seconds as real <= later
      ensures Allowed(l, Run(l, Step(l, s, Request(key, now)), hs), key, later)
    {
      RetryAfterSuffices(l, s, key, now, hs, later);
    }
    forall hs, later | Without(hs, key) && NoCleanup(hs) && now <= later < now + seconds as real - 1.0
      ensures !Allowed(l, Run(l, Step(l, s, Request(key, now)), hs), key, later)
    {
      RetryAfterTight(l, s, key, now, hs, later);
    }
  }
}
