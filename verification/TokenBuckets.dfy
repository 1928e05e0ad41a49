/** Token-bucket rate limiting over whole request histories (ratelimit/ratelimiter.go).

    Times and tokens are reals; the limiter in memory counts seconds, the Redis script milliseconds.
    Requests are served one at a time by a clock that
    never goes back.
 */
module TokenBuckets {
  import opened Orders

  type Key = string

  /** Capacity of every bucket, tokens earned per unit of time, and the time after which an unused
      bucket is dropped. */
  datatype Limits = Limits(maxTokens: nat, rate: real, idle: real) {
    predicate Valid() { rate > 0.0 && idle >= 0.0 }

    function Max(): real { maxTokens as real }
  }

  datatype Bucket = Bucket(tokens: real, lastRefill: real)

  type Buckets = map<Key, Bucket>

  datatype Happening = Request(key: Key, at: real) | Cleanup(at: real)

  datatype Answer = Answer(key: Key, at: real, allowed: bool)

  /** An hour, in seconds and in milliseconds. */
  const HOUR: real := 3600.0
  const HOUR_MS: real := 3600000.0

  function Min(a: real, b: real): real { if a < b then a else b }

  function Earned(l: Limits, since: real, now: real): real { (now - since) * l.rate }

  /** Tokens after refilling at `now`, capped at the capacity. */
  function Refilled(l: Limits, b: Bucket, now: real): real {
    Min(l.Max(), b.tokens + Earned(l, b.lastRefill, now))
  }

  /** The tokens a request of `key` at `now` finds; a missing bucket is created full. */
  function Level(l: Limits, s: Buckets, key: Key, now: real): real {
    if key in s then Refilled(l, s[key], now) else l.Max()
  }

  predicate Allowed(l: Limits, s: Buckets, key: Key, now: real) {
    Level(l, s, key, now) >= 1.0
  }

  function Charged(tokens: real): real { if tokens >= 1.0 then tokens - 1.0 else tokens }

  function Cleaned(l: Limits, s: Buckets, now: real): Buckets {
    map k | k in s && now - s[k].lastRefill <= l.idle :: s[k]
  }

  function Step(l: Limits, s: Buckets, h: Happening): Buckets {
    match h
    case Request(key, now) => s[key := Bucket(Charged(Level(l, s, key, now)), now)]
    case Cleanup(now) => Cleaned(l, s, now)
  }

  function Reply(l: Limits, s: Buckets, h: Happening): seq<Answer> {
    if h.Request? then [Answer(h.key, h.at, Allowed(l, s, h.key, h.at))] else []
  }

  function Run(l: Limits, s: Buckets, hs: seq<Happening>): Buckets
    decreases |hs|
  {
    if hs == [] then s else Run(l, Step(l, s, hs[0]), hs[1..])
  }

  function Answers(l: Limits, s: Buckets, hs: seq<Happening>): seq<Answer>
    decreases |hs|
  {
    if hs == [] then [] else Reply(l, s, hs[0]) + Answers(l, Step(l, s, hs[0]), hs[1..])
  }

  /** The clock never goes back. */
  predicate Monotone(start: real, hs: seq<Happening>)
    decreases |hs|
  {
    hs == [] || (start <= hs[0].at && Monotone(hs[0].at, hs[1..]))
  }

  function EndOf(start: real, hs: seq<Happening>): real
    decreases |hs|
  {
    if hs == [] then start else EndOf(hs[0].at, hs[1..])
  }

  /** How many requests of `key` are allowed from `t` to `end`. */
  function Passed(answers: seq<Answer>, key: Key, t: real, end: real): nat {
    if answers == [] then 0
    else (if answers[0].key == key && answers[0].allowed && t <= answers[0].at <= end then 1 else 0)
         + Passed(answers[1..], key, t, end)
  }

  /** Every bucket holds between 0 and its capacity, and was last used at `now` or before. */
  ghost predicate Sound(l: Limits, s: Buckets, now: real) {
    forall k :: k in s ==> 0.0 <= s[k].tokens <= l.Max() && s[k].lastRefill <= now
  }

  // Earning over time.

  lemma EarnedPositive(l: Limits, a: real, b: real)
    requires l.Valid() && a <= b
    ensures Earned(l, a, b) >= 0.0
  {
  }

  lemma EarnedAdds(l: Limits, a: real, b: real, c: real)
    ensures Earned(l, a, c) == Earned(l, a, b) + Earned(l, b, c)
  {
    assert c - a == (b - a) + (c - b);
    assert ((b - a) + (c - b)) * l.rate == (b - a) * l.rate + (c - b) * l.rate;
  }

  lemma EarnedNothing(l: Limits, a: real)
    ensures Earned(l, a, a) == 0.0
  {
  }

  // Tokens stay between 0 and the capacity.

  lemma LevelBounds(l: Limits, s: Buckets, key: Key, now: real)
    requires l.Valid() && Sound(l, s, now)
    ensures 0.0 <= Level(l, s, key, now) <= l.Max()
  {
    if key in s {
      EarnedPositive(l, s[key].lastRefill, now);
    }
  }

  lemma StepSound(l: Limits, s: Buckets, h: Happening, now: real)
    requires l.Valid() && Sound(l, s, now) && now <= h.at
    ensures Sound(l, Step(l, s, h), h.at)
  {
    hide Earned, Level;
    if h.Request? {
      assert Sound(l, s, h.at);
      LevelBounds(l, s, h.key, h.at);
    }
  }

  /** Tokens stay between 0 and the capacity over every history. */
  lemma {:induction false} RunSound(l: Limits, s: Buckets, hs: seq<Happening>, now: real)
    requires l.Valid() && Sound(l, s, now) && Monotone(now, hs)
    ensures Sound(l, Run(l, s, hs), EndOf(now, hs))
    decreases |hs|
  {
    hide Step, Sound;
    if hs != [] {
      StepSound(l, s, hs[0], now);
      RunSound(l, Step(l, s, hs[0]), hs[1..], hs[0].at);
    }
  }

  // A key's level pays for its requests.

  /** Waiting earns at most the rate. */
  lemma LevelGrows(l: Limits, s: Buckets, key: Key, t: real, t': real)
    requires l.Valid() && t <= t'
    ensures Level(l, s, key, t') <= Level(l, s, key, t) + Earned(l, t, t')
  {
    hide Earned;
    EarnedPositive(l, t, t');
    if key in s {
      EarnedAdds(l, s[key].lastRefill, t, t');
    }
  }

  /** A bucket is full again by the time it is dropped. */
  predicate IdleRefills(l: Limits) { l.idle * l.rate >= l.Max() }

  lemma IdleIsFull(l: Limits, b: Bucket, now: real)
    requires l.Valid() && IdleRefills(l) && b.tokens >= 0.0 && now - b.lastRefill > l.idle
    ensures Refilled(l, b, now) == l.Max()
  {
    EarnedAdds(l, b.lastRefill, b.lastRefill + l.idle, now);
    EarnedPositive(l, b.lastRefill + l.idle, now);
    assert Earned(l, b.lastRefill, b.lastRefill + l.idle) == l.idle * l.rate;
  }

  /** Dropping an idle bucket changes no level from then on. */
  lemma CleanupKeepsLevel(l: Limits, s: Buckets, key: Key, t: real, now: real)
    requires l.Valid() && Sound(l, s, t) && t <= now && IdleRefills(l)
    ensures Level(l, Cleaned(l, s, t), key, now) == Level(l, s, key, now)
  {
    hide Refilled, IdleRefills;
    if key in s && t - s[key].lastRefill > l.idle {
      IdleIsFull(l, s[key], now);
    }
  }

  /** What a history charges to `key` at this step. */
  function Price(l: Limits, s: Buckets, h: Happening, key: Key): real {
    if h.Request? && h.key == key && Allowed(l, s, key, h.at) then 1.0 else 0.0
  }

  /** A request costs one token if allowed and nothing otherwise; other keys do not notice. */
  lemma RequestCosts(l: Limits, s: Buckets, k: Key, t: real, key: Key)
    requires l.Valid() && Sound(l, s, t)
    ensures Level(l, Step(l, s, Request(k, t)), key, t) == Level(l, s, key, t) - Price(l, s, Request(k, t), key)
  {
    hide Earned;
    LevelBounds(l, s, k, t);
    EarnedNothing(l, t);
  }

  /** What a cleanup gives to `key` for nothing: a dropped bucket counts as full. */
  function Given(l: Limits, s: Buckets, h: Happening, key: Key): real {
    if h.Cleanup? then Level(l, Cleaned(l, s, h.at), key, h.at) - Level(l, s, key, h.at) else 0.0
  }

  /** What the cleanups from `t` to `end` give to `key`. */
  function GivenWithin(l: Limits, s: Buckets, hs: seq<Happening>, key: Key, t: real, end: real): real
    decreases |hs|
  {
    if hs == [] then 0.0
    else (if t <= hs[0].at <= end then Given(l, s, hs[0], key) else 0.0)
         + GivenWithin(l, Step(l, s, hs[0]), hs[1..], key, t, end)
  }

  /** A cleanup gives at most a full bucket, and nothing if a bucket is full again by then. */
  lemma GivenBounds(l: Limits, s: Buckets, h: Happening, now: real, key: Key)
    requires l.Valid() && Sound(l, s, now) && now <= h.at
    ensures 0.0 <= Given(l, s, h, key) <= l.Max()
    ensures IdleRefills(l) ==> Given(l, s, h, key) == 0.0
  {
    hide Earned, Refilled, IdleRefills;
    if h.Cleanup? {
      SoundLater(l, s, now, h.at);
      LevelBounds(l, s, key, h.at);
      StepSound(l, s, h, now);
      LevelBounds(l, Cleaned(l, s, h.at), key, h.at);
      if IdleRefills(l) {
        CleanupKeepsLevel(l, s, key, h.at, h.at);
      }
    }
  }

  lemma {:induction false} GivenWithinBounds(
    l: Limits, s: Buckets, hs: seq<Happening>, now: real, key: Key, t: real, end: real)
    requires l.Valid() && Sound(l, s, now) && Monotone(now, hs)
    ensures 0.0 <= GivenWithin(l, s, hs, key, t, end)
    ensures IdleRefills(l) || NoCleanup(hs) ==> GivenWithin(l, s, hs, key, t, end) == 0.0
    decreases |hs|
  {
    hide Step, Given, Sound, IdleRefills;
    if hs != [] {
      GivenBounds(l, s, hs[0], now, key);
      StepSound(l, s, hs[0], now);
      GivenWithinBounds(l, Step(l, s, hs[0]), hs[1..], hs[0].at, key, t, end);
      if NoCleanup(hs) {
        assert hs[0].Request?;
        RequestGivesNothing(l, s, hs[0], key);
        assert NoCleanup(hs[1..]);
      }
    }
  }

  lemma RequestGivesNothing(l: Limits, s: Buckets, h: Happening, key: Key)
    requires h.Request?
    ensures Given(l, s, h, key) == 0.0
  {
  }

  lemma StepPays(l: Limits, s: Buckets, h: Happening, now: real, key: Key)
    requires l.Valid() && Sound(l, s, now) && now <= h.at
    ensures Level(l, Step(l, s, h), key, h.at) + Price(l, s, h, key)
         <= Level(l, s, key, now) + Earned(l, now, h.at) + Given(l, s, h, key)
  {
    hide Earned, Level, Cleaned;
    LevelGrows(l, s, key, now, h.at);
    SoundLater(l, s, now, h.at);
    if h.Request? {
      RequestCosts(l, s, h.key, h.at, key);
    }
  }

  lemma {:induction false} NonePassLater(
    l: Limits, s: Buckets, hs: seq<Happening>, now: real, key: Key, t: real, end: real)
    requires Monotone(now, hs) && end < now
    ensures Passed(Answers(l, s, hs), key, t, end) == 0
    decreases |hs|
  {
    hide Step, Allowed;
    if hs != [] {
      NonePassLater(l, Step(l, s, hs[0]), hs[1..], hs[0].at, key, t, end);
      PassedStep(l, s, hs, key, t, end);
    }
  }

  lemma PassedStep(l: Limits, s: Buckets, hs: seq<Happening>, key: Key, t: real, end: real)
    requires hs != []
    ensures Passed(Answers(l, s, hs), key, t, end)
         == (if hs[0].Request? && hs[0].key == key && Allowed(l, s, key, hs[0].at) && t <= hs[0].at <= end then 1
             else 0)
            + Passed(Answers(l, Step(l, s, hs[0]), hs[1..]), key, t, end)
  {
    hide Step, Allowed;
    var rest := Answers(l, Step(l, s, hs[0]), hs[1..]);
    if hs[0].Request? {
      assert (Reply(l, s, hs[0]) + rest)[1..] == rest;
    } else {
      assert [] + rest == rest;
    }
  }

  ghost predicate NoCleanup(hs: seq<Happening>) {
    forall i :: 0 <= i < |hs| ==> hs[i].Request?
  }

  /** Up to `end`, a key passes at most its level now, what it earns until then, and what cleanups
      give to it. */
  lemma {:induction false} PassedUpTo(
    l: Limits, s: Buckets, hs: seq<Happening>, now: real, key: Key, t: real, end: real, start: real)
    requires l.Valid() && Sound(l, s, now) && Monotone(now, hs) && start <= now <= end
    ensures Passed(Answers(l, s, hs), key, t, end) as real
         <= Level(l, s, key, now) + Earned(l, now, end) + GivenWithin(l, s, hs, key, start, end)
    decreases |hs|
  {
    hide Step, Level, Earned, Sound, Given, Answers, Passed;
    LevelBounds(l, s, key, now);
    EarnedPositive(l, now, end);
    GivenWithinBounds(l, s, hs, now, key, start, end);
    if hs == [] {
      NonePass(l, s, key, t, end);
    } else if hs[0].at <= end {
      var h := hs[0];
      StepPays(l, s, h, now, key);
      StepSound(l, s, h, now);
      PassedUpTo(l, Step(l, s, h), hs[1..], h.at, key, t, end, start);
      EarnedAdds(l, now, h.at, end);
      PassedStep(l, s, hs, key, t, end);
    } else {
      PassedStep(l, s, hs, key, t, end);
      NonePassLater(l, Step(l, s, hs[0]), hs[1..], hs[0].at, key, t, end);
    }
  }

  lemma NonePass(l: Limits, s: Buckets, key: Key, t: real, end: real)
    ensures Passed(Answers(l, s, []), key, t, end) == 0
  {
  }

  /** In every history and every window, whatever the other keys do, a key passes at most its
      capacity, what the window refills, and what cleanups inside the window give to it. */
  lemma {:induction false} RateBound(l: Limits, s: Buckets, hs: seq<Happening>, now: real, key: Key, t: real, end: real)
    requires l.Valid() && Sound(l, s, now) && Monotone(now, hs) && t <= end
    ensures Passed(Answers(l, s, hs), key, t, end) as real
         <= l.Max() + Earned(l, t, end) + GivenWithin(l, s, hs, key, t, end)
    decreases |hs|
  {
    hide Step, Level, Earned, Sound, Given, Answers, Passed, Limits.Max;
    LevelBounds(l, s, key, now);
    EarnedPositive(l, t, end);
    GivenWithinBounds(l, s, hs, now, key, t, end);
    if end < now {
      NonePassLater(l, s, hs, now, key, t, end);
    } else if t <= now {
      PassedUpTo(l, s, hs, now, key, t, end, t);
      EarnedAdds(l, t, now, end);
      EarnedPositive(l, t, now);
    } else if hs == [] {
      NonePass(l, s, key, t, end);
    } else {
      StepSound(l, s, hs[0], now);
      if hs[0].at < t {
        RateBound(l, Step(l, s, hs[0]), hs[1..], hs[0].at, key, t, end);
        PassedStep(l, s, hs, key, t, end);
      } else {
        MonotoneFrom(now, t, hs);
        SoundLater(l, s, now, t);
        PassedUpTo(l, s, hs, t, key, t, end, t);
        LevelBounds(l, s, key, t);
      }
    }
  }

  lemma MonotoneFrom(now: real, t: real, hs: seq<Happening>)
    requires Monotone(now, hs) && hs != [] && t <= hs[0].at
    ensures Monotone(t, hs)
  {
  }

  lemma SoundLater(l: Limits, s: Buckets, now: real, t: real)
    requires Sound(l, s, now) && now <= t
    ensures Sound(l, s, t)
  {
  }

  // Dropping idle buckets is unnoticeable exactly when buckets are full again by then.

  function Requests(hs: seq<Happening>): seq<Happening> {
    if hs == [] then [] else (if hs[0].Request? then [hs[0]] else []) + Requests(hs[1..])
  }

  /** From `now` on, no request can tell the two stores apart. */
  ghost predicate Alike(l: Limits, s: Buckets, s': Buckets, now: real) {
    forall key, t :: now <= t ==> Level(l, s, key, t) == Level(l, s', key, t)
  }

  lemma AlikeAfterRequest(l: Limits, s: Buckets, s': Buckets, key: Key, now: real)
    requires Alike(l, s, s', now)
    ensures Alike(l, Step(l, s, Request(key, now)), Step(l, s', Request(key, now)), now)
  {
    hide Refilled;
    forall k, t | now <= t
      ensures Level(l, Step(l, s, Request(key, now)), k, t) == Level(l, Step(l, s', Request(key, now)), k, t)
    {
      assert Level(l, s, k, t) == Level(l, s', k, t);
      assert Level(l, s, key, now) == Level(l, s', key, now);
    }
  }

  lemma AlikeAfterCleanup(l: Limits, s: Buckets, s': Buckets, now: real)
    requires l.Valid() && IdleRefills(l) && Sound(l, s, now) && Alike(l, s, s', now)
    ensures Alike(l, Cleaned(l, s, now), s', now)
  {
    hide Level, Cleaned, Sound, IdleRefills;
    forall k, t | now <= t
      ensures Level(l, Cleaned(l, s, now), k, t) == Level(l, s', k, t)
    {
      CleanupKeepsLevel(l, s, k, now, t);
    }
  }

  lemma {:induction false} CleanupUnnoticed(l: Limits, s: Buckets, s': Buckets, hs: seq<Happening>, now: real)
    requires l.Valid() && IdleRefills(l)
    requires Sound(l, s, now) && Alike(l, s, s', now) && Monotone(now, hs)
    ensures Answers(l, s, hs) == Answers(l, s', Requests(hs))
    decreases |hs|
  {
    hide Level, Cleaned, Sound, IdleRefills;
    if hs != [] {
      var h, rest := hs[0], Requests(hs[1..]);
      StepSound(l, s, h, now);
      SoundLater(l, s, now, h.at);
      assert Alike(l, s, s', h.at);
      if h.Request? {
        assert Level(l, s, h.key, h.at) == Level(l, s', h.key, h.at);
        AlikeAfterRequest(l, s, s', h.key, h.at);
        CleanupUnnoticed(l, Step(l, s, h), Step(l, s', h), hs[1..], h.at);
        assert Requests(hs)[1..] == rest;
      } else {
        AlikeAfterCleanup(l, s, s', h.at);
        CleanupUnnoticed(l, Step(l, s, h), s', hs[1..], h.at);
        assert Requests(hs) == rest;
      }
    }
  }

  // The history that notices: a drained bucket, dropped before it has refilled.

  function Burst(key: Key, t: real, n: nat): (hs: seq<Happening>)
    ensures |hs| == n && forall i :: 0 <= i < |hs| ==> hs[i] == Request(key, t)
  {
    if n == 0 then [] else [Request(key, t)] + Burst(key, t, n - 1)
  }

  lemma {:induction false} AnswersSplit(l: Limits, s: Buckets, a: seq<Happening>, b: seq<Happening>)
    ensures Answers(l, s, a + b) == Answers(l, s, a) + Answers(l, Run(l, s, a), b)
    decreases |a|
  {
    hide Step, Reply;
    if a == [] {
      assert a + b == b;
    } else {
      assert (a + b)[1..] == a[1..] + b;
      AnswersSplit(l, Step(l, s, a[0]), a[1..], b);
    }
  }

  lemma {:induction false} RequestsSplit(a: seq<Happening>, b: seq<Happening>)
    ensures Requests(a + b) == Requests(a) + Requests(b)
    decreases |a|
  {
    if a == [] {
      assert a + b == b;
    } else {
      assert (a + b)[1..] == a[1..] + b;
      RequestsSplit(a[1..], b);
    }
  }

  lemma {:induction false} RequestsOfRequests(hs: seq<Happening>)
    requires NoCleanup(hs)
    ensures Requests(hs) == hs
    decreases |hs|
  {
    if hs != [] {
      RequestsOfRequests(hs[1..]);
    }
  }

  /** A burst within the level passes and is taken off it. */
  lemma {:induction false} BurstPasses(l: Limits, s: Buckets, key: Key, t: real, n: nat)
    requires l.Valid() && Sound(l, s, t) && n as real <= Level(l, s, key, t)
    ensures Passed(Answers(l, s, Burst(key, t, n)), key, t, t) == n
    ensures var s' := Run(l, s, Burst(key, t, n));
            && Level(l, s', key, t) == Level(l, s, key, t) - n as real
            && Sound(l, s', t)
            && (n > 0 ==> key in s' && s'[key].lastRefill == t)
    decreases n
  {
    hide Level, Sound, Earned;
    if n > 0 {
      var h := Request(key, t);
      var s' := Step(l, s, h);
      assert Burst(key, t, n)[1..] == Burst(key, t, n - 1);
      StepSound(l, s, h, t);
      RequestCosts(l, s, key, t, key);
      BurstPasses(l, s', key, t, n - 1);
      PassedStep(l, s, Burst(key, t, n), key, t, t);
      assert s'[key].lastRefill == t;
      assert n == 1 ==> Run(l, s, Burst(key, t, n)) == s';
    }
  }

  lemma {:induction false} BurstMonotone(key: Key, t: real, n: nat, start: real, rest: seq<Happening>)
    requires start <= t && Monotone(t, rest)
    ensures Monotone(start, Burst(key, t, n) + rest)
    decreases n
  {
    if n == 0 {
      assert Burst(key, t, n) + rest == rest;
      assert rest != [] ==> start <= rest[0].at;
    } else {
      assert (Burst(key, t, n) + rest)[1..] == Burst(key, t, n - 1) + rest;
      BurstMonotone(key, t, n - 1, t, rest);
    }
  }

  lemma Longer(a: real, b: real, rate: real)
    requires a * rate < b * rate && rate > 0.0
    ensures a < b
  {
  }

  lemma SamePrefix<T>(p: seq<T>, a: seq<T>, b: seq<T>)
    ensures p + a == p + b ==> a == b
  {
    assert (p + a)[|p|..] == a && (p + b)[|p|..] == b;
  }

  /** Long enough to be dropped, and still too short to refill a bucket. */
  lemma ShortIdle(l: Limits) returns (idle: real)
    requires l.Valid() && !IdleRefills(l)
    ensures l.idle < idle && Earned(l, 0.0, idle) < l.Max()
  {
    var full := l.Max() / l.rate;
    assert full * l.rate == l.Max();
    Longer(l.idle, full, l.rate);
    idle := (l.idle + full) / 2.0;
    assert idle < full;
    assert idle * l.rate < full * l.rate;
  }

  /** Drained at 0, then dropped at `idle`, a bucket passes a full burst; kept, it does not. */
  lemma EarlyDropNoticed(l: Limits, idle: real, key: Key) returns (hs: seq<Happening>)
    requires l.Valid() && l.idle < idle && Earned(l, 0.0, idle) < l.Max()
    ensures Monotone(0.0, hs) && Answers(l, map[], hs) != Answers(l, map[], Requests(hs))
  {
    hide Level, Earned, Sound, Answers, Passed, Refilled, Cleaned;
    var n := l.maxTokens;
    var drain, again := Burst(key, 0.0, n), Burst(key, idle, n);
    hs := drain + ([Cleanup(idle)] + again);
    History(l, idle, key, n);
    BurstRequests(key, idle, n);

    var s := Run(l, map[], drain);
    Drained(l, idle, key);
    Kept(l, s, idle, key);
    AnswersSplit(l, map[], drain, [Cleanup(idle)] + again);
    AnswersSplit(l, map[], drain, again);
    AnswersSplit(l, s, [Cleanup(idle)], again);
    CleanupReply(l, s, idle);
    assert Answers(l, s, [Cleanup(idle)] + again) == Answers(l, Cleaned(l, s, idle), again);
    Dropped(l, s, idle, key);
    SamePrefix(Answers(l, map[], drain), Answers(l, s, again), Answers(l, Cleaned(l, s, idle), again));
  }

  lemma History(l: Limits, idle: real, key: Key, n: nat)
    requires 0.0 <= idle
    ensures Monotone(0.0, Burst(key, 0.0, n) + ([Cleanup(idle)] + Burst(key, idle, n)))
  {
    var again := Burst(key, idle, n);
    BurstMonotone(key, idle, n, idle, []);
    assert again + [] == again;
    assert ([Cleanup(idle)] + again)[1..] == again;
    BurstMonotone(key, 0.0, n, 0.0, [Cleanup(idle)] + again);
  }

  lemma BurstRequests(key: Key, idle: real, n: nat)
    ensures var a, b := Burst(key, 0.0, n), Burst(key, idle, n);
            Requests(a + ([Cleanup(idle)] + b)) == a + b
  {
    var a, b := Burst(key, 0.0, n), Burst(key, idle, n);
    RequestsSplit(a, [Cleanup(idle)] + b);
    RequestsSplit([Cleanup(idle)], b);
    RequestsOfRequests(a);
    RequestsOfRequests(b);
    assert [Cleanup(idle)][1..] == [];
  }

  lemma CleanupReply(l: Limits, s: Buckets, t: real)
    ensures Answers(l, s, [Cleanup(t)]) == [] && Run(l, s, [Cleanup(t)]) == Cleaned(l, s, t)
  {
    hide Cleaned;
    assert [Cleanup(t)][1..] == [];
  }

  lemma Drained(l: Limits, idle: real, key: Key)
    requires l.Valid() && 0.0 < idle && Earned(l, 0.0, idle) < l.Max()
    ensures var s := Run(l, map[], Burst(key, 0.0, l.maxTokens));
            && Sound(l, s, 0.0) && Level(l, s, key, 0.0) == 0.0 && key in s && s[key].lastRefill == 0.0
            && Passed(Answers(l, map[], Burst(key, 0.0, l.maxTokens)), key, 0.0, 0.0) == l.maxTokens
  {
    hide Earned, Passed, Answers;
    EarnedPositive(l, 0.0, idle);
    BurstPasses(l, map[], key, 0.0, l.maxTokens);
  }

  lemma Kept(l: Limits, s: Buckets, idle: real, key: Key)
    requires l.Valid() && 0.0 <= idle && Sound(l, s, 0.0) && Level(l, s, key, 0.0) == 0.0
    ensures Passed(Answers(l, s, Burst(key, idle, l.maxTokens)), key, idle, idle) as real <= Earned(l, 0.0, idle)
  {
    hide Earned, Level, Sound, Answers, Passed;
    var again := Burst(key, idle, l.maxTokens);
    BurstMonotone(key, idle, l.maxTokens, 0.0, []);
    assert again + [] == again;
    PassedUpTo(l, s, again, 0.0, key, idle, idle, 0.0);
    GivenWithinBounds(l, s, again, 0.0, key, 0.0, idle);
  }

  lemma Dropped(l: Limits, s: Buckets, idle: real, key: Key)
    requires l.Valid() && l.idle < idle && Sound(l, s, 0.0) && key in s && s[key].lastRefill == 0.0
    ensures Passed(Answers(l, Cleaned(l, s, idle), Burst(key, idle, l.maxTokens)), key, idle, idle) == l.maxTokens
  {
    hide Refilled, Answers, Passed;
    BurstPasses(l, Cleaned(l, s, idle), key, idle, l.maxTokens);
  }

  /** No history from an empty store gets other answers when its cleanups are left out. */
  ghost predicate CleanupInvisible(l: Limits) {
    forall now, hs :: Monotone(now, hs) ==> Answers(l, map[], hs) == Answers(l, map[], Requests(hs))
  }

  lemma CleanupInvisibleExactly(l: Limits)
    requires l.Valid()
    ensures CleanupInvisible(l) <==> IdleRefills(l)
  {
    hide Answers, Monotone, Requests, IdleRefills;
    if IdleRefills(l) {
      forall now, hs | Monotone(now, hs)
        ensures Answers(l, map[], hs) == Answers(l, map[], Requests(hs))
      {
        CleanupUnnoticed(l, map[], map[], hs, now);
      }
    } else {
      var idle := ShortIdle(l);
      var hs := EarlyDropNoticed(l, idle, "");
    }
  }

  // The plain bound holds exactly when buckets are full again by then.

  /** From an empty store, every key passes at most its capacity plus what the window refills. */
  ghost predicate RateBounded(l: Limits) {
    forall now, hs, key, t, end :: Monotone(now, hs) && t <= end ==>
      Passed(Answers(l, map[], hs), key, t, end) as real <= l.Max() + Earned(l, t, end)
  }

  lemma {:induction false} PassedSplit(a: seq<Answer>, b: seq<Answer>, key: Key, t: real, end: real)
    ensures Passed(a + b, key, t, end) == Passed(a, key, t, end) + Passed(b, key, t, end)
  {
    if a == [] {
      assert a + b == b;
    } else {
      assert (a + b)[1..] == a[1..] + b;
      PassedSplit(a[1..], b, key, t, end);
    }
  }

  lemma {:induction false} WiderWindow(answers: seq<Answer>, key: Key, t: real, end: real, t': real, end': real)
    requires t' <= t && end <= end'
    ensures Passed(answers, key, t, end) <= Passed(answers, key, t', end')
  {
    if answers != [] {
      WiderWindow(answers[1..], key, t, end, t', end');
    }
  }

  /** Drained at 0, dropped at `idle` and drained again, a bucket passes twice its capacity. */
  lemma EarlyDropExceeds(l: Limits, idle: real, key: Key) returns (hs: seq<Happening>)
    requires l.Valid() && l.idle < idle && Earned(l, 0.0, idle) < l.Max()
    ensures Monotone(0.0, hs) && Passed(Answers(l, map[], hs), key, 0.0, idle) >= 2 * l.maxTokens
    ensures Passed(Answers(l, map[], hs), key, 0.0, idle) as real > l.Max() + Earned(l, 0.0, idle)
  {
    hide Level, Earned, Sound, Answers, Passed, Refilled, Cleaned;
    var n := l.maxTokens;
    var drain, again := Burst(key, 0.0, n), Burst(key, idle, n);
    hs := drain + ([Cleanup(idle)] + again);
    History(l, idle, key, n);
    var s := Run(l, map[], drain);
    Drained(l, idle, key);
    Dropped(l, s, idle, key);
    AnswersSplit(l, map[], drain, [Cleanup(idle)] + again);
    AnswersSplit(l, s, [Cleanup(idle)], again);
    CleanupReply(l, s, idle);
    var first, second := Answers(l, map[], drain), Answers(l, Cleaned(l, s, idle), again);
    assert Answers(l, map[], hs) == first + second;
    PassedSplit(first, second, key, 0.0, idle);
    WiderWindow(first, key, 0.0, 0.0, 0.0, idle);
    WiderWindow(second, key, idle, idle, 0.0, idle);
  }

  lemma RateBoundExactly(l: Limits)
    requires l.Valid()
    ensures RateBounded(l) <==> IdleRefills(l)
  {
    hide Answers, Monotone, Passed, IdleRefills, Earned, GivenWithin;
    if IdleRefills(l) {
      forall now, hs, key, t, end | Monotone(now, hs) && t <= end
        ensures Passed(Answers(l, map[], hs), key, t, end) as real <= l.Max() + Earned(l, t, end)
      {
        RateBound(l, map[], hs, now, key, t, end);
        GivenWithinBounds(l, map[], hs, now, key, t, end);
      }
    } else {
      var idle := ShortIdle(l);
      var hs := EarlyDropExceeds(l, idle, "");
    }
  }

  // A refused client that waits as long as it is told is allowed.

  const NANOS: real := 1000000000.0

  /** The wait until one token is there, cut to nanoseconds. */
  function RetryAfterNanos(l: Limits, tokens: real): int
    requires l.Valid()
  {
    ((1.0 - tokens) / l.rate * NANOS).Floor
  }

  /** The whole seconds announced to the client. */
  function RetryAfterSeconds(nanos: nat): nat {
    nanos / 1000000000 + 1
  }

  lemma SecondsCoverWait(wait: real)
    requires wait >= 0.0
    ensures var nanos := (wait * NANOS).Floor;
            nanos >= 0 && wait < RetryAfterSeconds(nanos) as real
  {
    var nanos := (wait * NANOS).Floor;
    assert wait * NANOS < nanos as real + 1.0;
    var q, r := nanos / 1000000000, nanos % 1000000000;
    assert nanos + 1 <= (q + 1) * 1000000000;
    assert wait * NANOS < (q + 1) as real * NANOS;
  }

  /** Happenings that are not requests of `key`. */
  ghost predicate Without(hs: seq<Happening>, key: Key) {
    forall i :: 0 <= i < |hs| && hs[i].Request? ==> hs[i].key != key
  }

  /** Others leave a bucket alone, except that it may be dropped and so be full again. */
  lemma {:induction false} OthersLeaveLevel(l: Limits, s: Buckets, hs: seq<Happening>, key: Key, now: real)
    requires Without(hs, key)
    ensures Level(l, Run(l, s, hs), key, now) in {Level(l, s, key, now), l.Max()}
    decreases |hs|
  {
    if hs != [] {
      hide Refilled;
      assert Level(l, Step(l, s, hs[0]), key, now) in {Level(l, s, key, now), l.Max()};
      OthersLeaveLevel(l, Step(l, s, hs[0]), hs[1..], key, now);
    }
  }

  /** The announced wait is enough, whatever other keys do meanwhile and whenever buckets are dropped. */
  lemma RetryAfterSuffices(l: Limits, s: Buckets, key: Key, now: real, hs: seq<Happening>, later: real)
    requires l.Valid() && l.maxTokens >= 1 && Sound(l, s, now) && !Allowed(l, s, key, now)
    requires Without(hs, key)
    ensures RetryAfterNanos(l, Level(l, s, key, now)) >= 0
    ensures var seconds := RetryAfterSeconds(RetryAfterNanos(l, Level(l, s, key, now)));
            now + seconds as real <= later ==> Allowed(l, Run(l, Step(l, s, Request(key, now)), hs), key, later)
  {
    hide Step, Run, Sound, Without;
    var tokens := Level(l, s, key, now);
    LevelBounds(l, s, key, now);
    var wait := (1.0 - tokens) / l.rate;
    assert wait * l.rate == 1.0 - tokens;
    NotNegative(wait, l.rate);
    SecondsCoverWait(wait);
    var s' := Step(l, s, Request(key, now));
    OthersLeaveLevel(l, s', hs, key, later);
    if now + wait <= later {
      Waited(l, s, key, now, wait, later);
    }
  }

  /** The computed wait is what is missing at the rate, cut to nanoseconds. */
  lemma NanosExact(l: Limits, tokens: real)
    requires l.Valid()
    ensures var wait, nanos := (1.0 - tokens) / l.rate, RetryAfterNanos(l, tokens) as real;
            nanos <= wait * 1000000000.0 < nanos + 1.0
  {
  }

  lemma SecondsWithinWait(wait: real)
    requires wait >= 0.0
    ensures RetryAfterSeconds((wait * NANOS).Floor) as real <= wait + 1.0
  {
    var nanos := (wait * NANOS).Floor;
    var q := nanos / 1000000000;
    assert q * 1000000000 <= nanos;
    assert q as real * NANOS <= wait * NANOS;
  }

  lemma {:induction false} OthersKeepLevel(l: Limits, s: Buckets, hs: seq<Happening>, key: Key, now: real)
    requires Without(hs, key) && NoCleanup(hs)
    ensures Level(l, Run(l, s, hs), key, now) == Level(l, s, key, now)
    decreases |hs|
  {
    if hs != [] {
      hide Refilled;
      assert hs[0].Request? && hs[0].key != key;
      assert Level(l, Step(l, s, hs[0]), key, now) == Level(l, s, key, now);
      OthersKeepLevel(l, Step(l, s, hs[0]), hs[1..], key, now);
    }
  }

  /** The announced wait is less than a second longer than needed: it is at most one second more than
      what is missing at the rate, and as long as more than one second of it is left, the client is
      still refused. */
  lemma RetryAfterTight(l: Limits, s: Buckets, key: Key, now: real, hs: seq<Happening>, later: real)
    requires l.Valid() && Sound(l, s, now) && !Allowed(l, s, key, now)
    requires Without(hs, key) && NoCleanup(hs)
    ensures RetryAfterNanos(l, Level(l, s, key, now)) >= 0
    ensures var seconds := RetryAfterSeconds(RetryAfterNanos(l, Level(l, s, key, now)));
            && seconds as real <= (1.0 - Level(l, s, key, now)) / l.rate + 1.0
            && (now <= later < now + seconds as real - 1.0 ==>
                  !Allowed(l, Run(l, Step(l, s, Request(key, now)), hs), key, later))
  {
    hide Step, Run, Sound, Without, NoCleanup, Level;
    var tokens := Level(l, s, key, now);
    LevelBounds(l, s, key, now);
    var wait := (1.0 - tokens) / l.rate;
    assert wait * l.rate == 1.0 - tokens;
    NotNegative(wait, l.rate);
    SecondsCoverWait(wait);
    SecondsWithinWait(wait);
    if now <= later < now + wait {
      OthersKeepLevel(l, Step(l, s, Request(key, now)), hs, key, later);
      Refused(l, s, key, now, later);
      Shorter(later - now, wait, l.rate);
    }
  }

  lemma Shorter(a: real, b: real, rate: real)
    requires a < b && rate > 0.0
    ensures a * rate < b * rate
  {
  }

  lemma NotNegative(a: real, b: real)
    requires b > 0.0 && a * b >= 0.0
    ensures a >= 0.0
  {
  }

  lemma Waited(l: Limits, s: Buckets, key: Key, now: real, wait: real, later: real)
    requires l.Valid() && l.maxTokens >= 1 && !Allowed(l, s, key, now)
    requires wait * l.rate == 1.0 - Level(l, s, key, now) && now + wait <= later
    ensures Allowed(l, Step(l, s, Request(key, now)), key, later)
  {
    hide Level;
    var tokens := Level(l, s, key, now);
    EarnedAdds(l, now, now + wait, later);
    EarnedPositive(l, now + wait, later);
    Refused(l, s, key, now, later);
  }

  lemma Refused(l: Limits, s: Buckets, key: Key, now: real, later: real)
    requires !Allowed(l, s, key, now)
    ensures Level(l, Step(l, s, Request(key, now)), key, later)
         == Min(l.Max(), Level(l, s, key, now) + Earned(l, now, later))
  {
    hide Earned;
  }

  // The script that keeps buckets in Redis takes the same steps.

  /** The stored bucket after one call, and whether it is allowed. */
  function RedisScript(
    maxTokens: nat, refillRate: nat, refillInterval: nat, stored: Option<Bucket>, now: real, cost: real): (Bucket, bool)
    requires refillInterval > 0
  {
    var bucket := if stored.None? then Bucket(maxTokens as real, now) else stored.value;
    var intervals := (now - bucket.lastRefill) / refillInterval as real;
    var tokens := Min(maxTokens as real, bucket.tokens + intervals * refillRate as real);
    var allowed := tokens >= cost;
    (Bucket(if allowed then tokens - cost else tokens, now), allowed)
  }

  /** What the script finds: a key that was not used for longer than an hour has expired. */
  function Stored(s: Buckets, key: Key, now: real): Option<Bucket> {
    if key in s && now - s[key].lastRefill <= HOUR_MS then Some(s[key]) else None
  }

  /** A call of the script is a cleanup and a request, with the rate per millisecond. */
  lemma RedisScriptIsStep(maxTokens: nat, refillRate: nat, refillInterval: nat, s: Buckets, key: Key, now: real)
    requires refillInterval > 0
    ensures var l := Limits(maxTokens, refillRate as real / refillInterval as real, HOUR_MS);
            var (bucket, allowed) := RedisScript(maxTokens, refillRate, refillInterval, Stored(s, key, now), now, 1.0);
            && Run(l, s, [Cleanup(now), Request(key, now)]) == Cleaned(l, s, now)[key := bucket]
            && [Answer(key, now, allowed)] == Answers(l, s, [Cleanup(now), Request(key, now)])
  {
    var l := Limits(maxTokens, refillRate as real / refillInterval as real, HOUR_MS);
    var s' := Cleaned(l, s, now);
    assert [Cleanup(now), Request(key, now)][1..] == [Request(key, now)] && [Request(key, now)][1..] == [];
    assert Run(l, s, [Cleanup(now), Request(key, now)]) == Run(l, s', [Request(key, now)]);
    assert Run(l, s', [Request(key, now)]) == Step(l, s', Request(key, now));
    assert Answers(l, s', [Request(key, now)]) == Reply(l, s', Request(key, now)) + [];
    assert Stored(s, key, now) == if key in s' then Some(s'[key]) else None;
    if key in s' {
      var elapsed := now - s'[key].lastRefill;
      Regroup(elapsed, refillInterval as real, refillRate as real);
      assert Earned(l, s'[key].lastRefill, now) == elapsed * l.rate;
    }
  }

  datatype ScriptCall = ScriptCall(key: Key, at: real)

  datatype Settings = Settings(maxTokens: nat, refillRate: nat, refillInterval: nat) {
    predicate Valid() { refillInterval > 0 }

    function PerMilli(): Limits
      requires Valid()
    {
      Limits(maxTokens, refillRate as real / refillInterval as real, HOUR_MS)
    }

    /** The store after one call, and the answer; keys that have expired may still lie about. */
    function Call(s: Buckets, c: ScriptCall): (Buckets, Answer)
      requires Valid()
    {
      var (bucket, allowed) := RedisScript(maxTokens, refillRate, refillInterval, Stored(s, c.key, c.at), c.at, 1.0);
      (s[c.key := bucket], Answer(c.key, c.at, allowed))
    }

    function Replies(s: Buckets, cs: seq<ScriptCall>): seq<Answer>
      requires Valid()
      decreases |cs|
    {
      if cs == [] then [] else [Call(s, cs[0]).1] + Replies(Call(s, cs[0]).0, cs[1..])
    }
  }

  /** The calls as a history: before each request everything that has expired goes. */
  function AsHistory(cs: seq<ScriptCall>): seq<Happening> {
    if cs == [] then [] else [Cleanup(cs[0].at), Request(cs[0].key, cs[0].at)] + AsHistory(cs[1..])
  }

  /** From `now` on the stores hold the same buckets that have not expired. */
  ghost predicate SameLive(l: Limits, s: Buckets, s': Buckets, now: real) {
    forall t :: now <= t ==> Cleaned(l, s, t) == Cleaned(l, s', t)
  }

  lemma StoredLive(l: Limits, s: Buckets, s': Buckets, key: Key, now: real)
    requires l.idle == HOUR_MS && Cleaned(l, s, now) == Cleaned(l, s', now)
    ensures Stored(s, key, now) == Stored(s', key, now)
  {
    assert key in Cleaned(l, s, now) <==> key in Cleaned(l, s', now);
  }

  lemma LiveAfter(l: Limits, s: Buckets, s': Buckets, key: Key, b: Bucket, now: real)
    requires SameLive(l, s, s', now)
    ensures SameLive(l, s[key := b], Cleaned(l, s', now)[key := b], now)
  {
    var m := Cleaned(l, s', now);
    var r, r' := s[key := b], m[key := b];
    forall t | now <= t ensures Cleaned(l, r, t) == Cleaned(l, r', t) {
      var live, live' := Cleaned(l, s, t), Cleaned(l, s', t);
      assert live == live';
      forall k ensures k in Cleaned(l, r, t) <==> k in Cleaned(l, r', t) {
        assert k in live <==> k in live';
      }
      forall k | k in Cleaned(l, r, t) ensures Cleaned(l, r, t)[k] == Cleaned(l, r', t)[k] {
        assert k != key ==> k in live && live[k] == live'[k];
      }
    }
  }

  lemma PairSteps(l: Limits, s: Buckets, key: Key, t: real, rest: seq<Happening>)
    ensures var pair := [Cleanup(t), Request(key, t)];
            Answers(l, s, pair + rest) == Answers(l, s, pair) + Answers(l, Run(l, s, pair), rest)
  {
    AnswersSplit(l, s, [Cleanup(t), Request(key, t)], rest);
  }

  /** Any sequence of script calls, over any keys, gets the answers of a history, so that what holds
      of every history holds of the script. */
  lemma {:induction false} RedisCallsAreHistory(p: Settings, s: Buckets, s': Buckets, cs: seq<ScriptCall>, now: real)
    requires p.Valid() && SameLive(p.PerMilli(), s, s', now) && Monotone(now, AsHistory(cs))
    ensures p.Replies(s, cs) == Answers(p.PerMilli(), s', AsHistory(cs))
    decreases |cs|
  {
    hide Cleaned, RedisScript, Answers, Run, SameLive, Stored;
    if cs == [] {
      NoAnswers(p.PerMilli(), s');
    } else {
      var l, c, rest := p.PerMilli(), cs[0], AsHistory(cs[1..]);
      var pair := [Cleanup(c.at), Request(c.key, c.at)];
      LaterHistory(now, c, rest);
      LiveNow(l, s, s', now, c.at);
      StoredLive(l, s, s', c.key, c.at);
      RedisScriptIsStep(p.maxTokens, p.refillRate, p.refillInterval, s', c.key, c.at);
      PairSteps(l, s', c.key, c.at, rest);
      LiveAfter(l, s, s', c.key, p.Call(s, c).0[c.key], c.at);
      RedisCallsAreHistory(p, p.Call(s, c).0, Run(l, s', pair), cs[1..], c.at);
    }
  }

  lemma NoAnswers(l: Limits, s: Buckets)
    ensures Answers(l, s, []) == []
  {
  }

  lemma LaterHistory(now: real, c: ScriptCall, rest: seq<Happening>)
    requires Monotone(now, [Cleanup(c.at), Request(c.key, c.at)] + rest)
    ensures now <= c.at && Monotone(c.at, rest)
  {
    var hs := [Cleanup(c.at), Request(c.key, c.at)] + rest;
    assert hs[1..][1..] == rest;
  }

  lemma LiveNow(l: Limits, s: Buckets, s': Buckets, now: real, t: real)
    requires SameLive(l, s, s', now) && now <= t
    ensures SameLive(l, s, s', t) && Cleaned(l, s, t) == Cleaned(l, s', t)
  {
  }

  /** In particular, keys of an empty Redis pass at most their capacity plus what the window refills. */
  lemma RedisRateBound(p: Settings, cs: seq<ScriptCall>, now: real, key: Key, t: real, end: real)
    requires p.Valid() && p.refillRate > 0 && Monotone(now, AsHistory(cs)) && t <= end
    requires 3600000.0 * (p.refillRate as real / p.refillInterval as real) >= p.maxTokens as real
    ensures Passed(p.Replies(map[], cs), key, t, end) as real
         <= p.maxTokens as real + (end - t) * (p.refillRate as real / p.refillInterval as real)
  {
    hide Answers, Passed, Monotone;
    var l := p.PerMilli();
    assert IdleRefills(l);
    RedisCallsAreHistory(p, map[], map[], cs, now);
    RateBoundExactly(l);
  }

  lemma Regroup(a: real, b: real, c: real)
    requires b != 0.0
    ensures a / b * c == a * (c / b)
  {
    var x, y := a / b, c / b;
    assert a == x * b && c == y * b;
    assert x * (y * b) == (x * b) * y;
  }
}
