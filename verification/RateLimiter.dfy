/**
 * Fixed-window rate limiting: the in-process limiter that public routes degrade to, and the Redis
 * script it stands in for.
 */
module RateLimiter {
  import opened Common

  datatype Decision = Decision(allowed: bool, remaining: int, retryAfterMs: int)

  datatype Bucket = Bucket(count: int, resetAt: int)

  type Buckets = map<string, Bucket>

  const SWEEP_THRESHOLD: nat := 10_000

  predicate Open(b: Buckets, key: string, now: int) {
    key in b && now < b[key].resetAt
  }

  function After(b: Buckets, key: string, window: int, now: int): Buckets {
    if Open(b, key, now) then b[key := b[key].(count := b[key].count + 1)]
    else b[key := Bucket(1, now + window)]
  }

  function Answer(b: Buckets, key: string, limit: int, now: int): Decision {
    if !Open(b, key, now) then Decision(true, if limit - 1 > 0 then limit - 1 else 0, 0)
    else if b[key].count + 1 > limit then Decision(false, 0, b[key].resetAt - now)
    else Decision(true, limit - (b[key].count + 1), 0)
  }

  /** What a sweep leaves: the buckets whose window is still open. */
  function Swept(b: Buckets, now: int): Buckets {
    map key | key in b && now < b[key].resetAt :: b[key]
  }

  function SweptIfLarge(b: Buckets, now: int): Buckets {
    if |b| < SWEEP_THRESHOLD then b else Swept(b, now)
  }

  class InProcessRateLimiter {
    var buckets: Buckets

    constructor ()
      ensures buckets == map[]
    {
      buckets := map[];
    }

    method Consume(key: string, limit: int, windowMs: int, now: int) returns (d: Decision)
      modifies this
      ensures buckets == After(SweptIfLarge(old(buckets), now), key, windowMs, now)
      ensures d == Answer(old(buckets), key, limit, now)
    {
      SweepIfLarge(now);
      if key !in buckets || buckets[key].resetAt <= now {
        buckets := buckets[key := Bucket(1, now + windowMs)];
        return Decision(true, if limit - 1 > 0 then limit - 1 else 0, 0);
      }
      var bucket := buckets[key].(count := buckets[key].count + 1);
      buckets := buckets[key := bucket];
      if bucket.count > limit {
        return Decision(false, 0, bucket.resetAt - now);
      }
      return Decision(true, limit - bucket.count, 0);
    }

    method SweepIfLarge(now: int)
      modifies this
      ensures buckets == SweptIfLarge(old(buckets), now)
      ensures |old(buckets)| < 10_000 ==> buckets == old(buckets)
      ensures |old(buckets)| >= 10_000 ==>
                forall k :: k in buckets <==> k in old(buckets) && old(buckets)[k].resetAt > now
    {
      if |buckets| < SWEEP_THRESHOLD {
        return;
      }
      var todo := buckets.Keys;
      while todo != {}
        invariant todo <= buckets.Keys <= old(buckets).Keys
        invariant forall k | k in buckets :: buckets[k] == old(buckets)[k]
        invariant forall k | k in old(buckets) && k !in todo :: k in buckets <==> now < old(buckets)[k].resetAt
        decreases |todo|
      {
        var key :| key in todo;
        todo := todo - {key};
        if buckets[key].resetAt <= now {
          buckets := buckets - {key};
        }
      }
      assert buckets == Swept(old(buckets), now);
    }
  }

  // ---------------------------------------------------------------------------
  // Sweeping, and the Redis script
  // ---------------------------------------------------------------------------

  datatype Call = Call(key: string, limit: int, window: int, now: int)

  ghost predicate Monotone(calls: seq<Call>, from: int) {
    && (forall i | 0 <= i < |calls| :: from <= calls[i].now)
    && (forall i, j | 0 <= i < j < |calls| :: calls[i].now <= calls[j].now)
  }

  /** The decisions of a limiter that never sweeps. */
  function Plain(b: Buckets, calls: seq<Call>): seq<Decision>
    decreases |calls|
  {
    if calls == [] then []
    else var c := calls[0];
         [Answer(b, c.key, c.limit, c.now)] + Plain(After(b, c.key, c.window, c.now), calls[1..])
  }

  /** The decisions of the limiter as written, sweeping whenever its map is large. */
  function Sweeping(b: Buckets, calls: seq<Call>): seq<Decision>
    decreases |calls|
  {
    if calls == [] then []
    else var c := calls[0];
         [Answer(b, c.key, c.limit, c.now)]
           + Sweeping(After(SweptIfLarge(b, c.now), c.key, c.window, c.now), calls[1..])
  }

  /** Two maps that agree on every bucket still open at `now`. */
  ghost predicate Alike(a: Buckets, b: Buckets, now: int) {
    forall k :: (Open(a, k, now) <==> Open(b, k, now)) && (Open(a, k, now) ==> a[k] == b[k])
  }

  /** Sweeping changes no decision, over any run whose clock does not go back. */
  lemma {:induction false} SweepChangesNoDecision(a: Buckets, b: Buckets, calls: seq<Call>, from: int)
    requires Alike(a, b, from) && Monotone(calls, from)
    ensures Sweeping(a, calls) == Plain(b, calls)
    decreases |calls|
  {
    if calls != [] {
      var c := calls[0];
      AlikeStep(a, b, c, from);
      assert forall i | 0 <= i < |calls| - 1 :: calls[1..][i] == calls[i + 1];
      SweepChangesNoDecision(After(SweptIfLarge(a, c.now), c.key, c.window, c.now), After(b, c.key, c.window, c.now),
                             calls[1..], c.now);
    }
  }

  lemma AlikeStep(a: Buckets, b: Buckets, c: Call, from: int)
    requires Alike(a, b, from) && from <= c.now
    ensures Answer(a, c.key, c.limit, c.now) == Answer(b, c.key, c.limit, c.now)
    ensures Alike(After(SweptIfLarge(a, c.now), c.key, c.window, c.now), After(b, c.key, c.window, c.now), c.now)
  {
    var a', b' := After(SweptIfLarge(a, c.now), c.key, c.window, c.now), After(b, c.key, c.window, c.now);
    forall k ensures (Open(a', k, c.now) <==> Open(b', k, c.now)) && (Open(a', k, c.now) ==> a'[k] == b'[k]) {
      assert Open(a, k, from) <==> Open(b, k, from);
    }
  }

  /** A Redis counter: INCR creates it without expiry, PEXPIRE arms one, and it is gone when it runs out. */
  datatype Counter = Counter(value: int, expiry: Option<int>)

  type Redis = map<string, Counter>

  predicate Exists(r: Redis, key: string, now: int) {
    key in r && (r[key].expiry.Some? ==> now < r[key].expiry.value)
  }

  /** The script: INCR; PEXPIRE when the count is 1; PTTL. Returns the counter and the time left. */
  function Script(r: Redis, key: string, window: int, now: int): (Redis, int, int) {
    var c := if Exists(r, key, now) then r[key].(value := r[key].value + 1) else Counter(1, None);
    var armed := if c.value == 1 then Counter(1, Some(now + window)) else c;
    (r[key := armed], armed.value, if armed.expiry.None? then -1 else armed.expiry.value - now)
  }

  /** `RedisRateLimiter.consume`: it refuses limits and windows that are not positive. */
  function RedisConsume(r: Redis, c: Call): (Redis, Option<Decision>) {
    if c.limit < 1 || c.window < 1 then (r, None)
    else
      var (r', count, ttl) := Script(r, c.key, c.window, c.now);
      (r', Some(if count <= c.limit then Decision(true, c.limit - count, 0)
                else Decision(false, 0, if ttl > 0 then ttl else c.window)))
  }

  class RedisRateLimiter {
    var keys: Redis

    constructor ()
      ensures keys == map[]
    {
      keys := map[];
    }

    /** Nothing is returned where the source throws. */
    method Consume(key: string, limit: int, windowMs: int, now: int) returns (d: Option<Decision>)
      modifies this
      ensures (keys, d) == RedisConsume(old(keys), Call(key, limit, windowMs, now))
      ensures d.None? <==> limit < 1 || windowMs < 1
      ensures d.None? ==> keys == old(keys)
    {
      if limit < 1 || windowMs < 1 {
        return None;
      }
      var count, ttl := RunScript(key, windowMs, now);
      if count <= limit {
        return Some(Decision(true, limit - count, 0));
      }
      return Some(Decision(false, 0, if ttl > 0 then ttl else windowMs));
    }

    /** The three commands of the script, one after the other. */
    method RunScript(key: string, windowMs: int, now: int) returns (count: int, ttl: int)
      modifies this
      ensures (keys, count, ttl) == Script(old(keys), key, windowMs, now)
    {
      keys := keys[key := if Exists(keys, key, now) then keys[key].(value := keys[key].value + 1)
        else Counter(1, None)];
      count := keys[key].value;
      if count == 1 {
        keys := keys[key := Counter(1, Some(now + windowMs))];
      }
      assert keys == old(keys)[key := keys[key]];
      ttl := if keys[key].expiry.None? then -1 else keys[key].expiry.value - now;
    }
  }

  function RedisRun(r: Redis, calls: seq<Call>): seq<Option<Decision>>
    decreases |calls|
  {
    if calls == [] then [] else var (r', d) := RedisConsume(r, calls[0]); [d] + RedisRun(r', calls[1..])
  }

  ghost predicate Mirrors(b: Buckets, r: Redis, now: int) {
    forall k :: (Open(b, k, now) <==> Exists(r, k, now))
                && (Open(b, k, now) ==> b[k].count >= 1 && r[k] == Counter(b[k].count, Some(b[k].resetAt)))
  }

  /** The in-process limiter gives the Redis limiter's answers, call by call. */
  lemma {:induction false} InProcessAgreesWithRedis(b: Buckets, r: Redis, calls: seq<Call>, from: int)
    requires Mirrors(b, r, from) && Monotone(calls, from)
    requires forall i | 0 <= i < |calls| :: calls[i].limit >= 1 && calls[i].window >= 1
    ensures |RedisRun(r, calls)| == |Plain(b, calls)|
    ensures forall i | 0 <= i < |Plain(b, calls)| :: RedisRun(r, calls)[i] == Some(Plain(b, calls)[i])
    decreases |calls|
  {
    if calls != [] {
      var c := calls[0];
      MirrorsStep(b, r, c, from);
      assert forall i | 0 <= i < |calls| - 1 :: calls[1..][i] == calls[i + 1];
      InProcessAgreesWithRedis(After(b, c.key, c.window, c.now), RedisConsume(r, c).0, calls[1..], c.now);
    }
  }

  lemma MirrorsStep(b: Buckets, r: Redis, c: Call, from: int)
    requires Mirrors(b, r, from) && from <= c.now && c.limit >= 1 && c.window >= 1
    ensures RedisConsume(r, c).1 == Some(Answer(b, c.key, c.limit, c.now))
    ensures Mirrors(After(b, c.key, c.window, c.now), RedisConsume(r, c).0, c.now)
  {
    assert Open(b, c.key, from) <==> Exists(r, c.key, from);
    var b', r' := After(b, c.key, c.window, c.now), RedisConsume(r, c).0;
    forall k
      ensures (Open(b', k, c.now) <==> Exists(r', k, c.now))
              && (Open(b', k, c.now) ==> b'[k].count >= 1 && r'[k] == Counter(b'[k].count, Some(b'[k].resetAt)))
    {
      if k != c.key { assert Open(b, k, from) <==> Exists(r, k, from); }
    }
  }

  // ---------------------------------------------------------------------------
  // How many calls any window-length interval admits
  // ---------------------------------------------------------------------------

  /** How many calls for `key` are allowed at times in the half-open interval from `lo` to `hi`. */
  function AllowedIn(b: Buckets, calls: seq<Call>, key: string, lo: int, hi: int): nat
    decreases |calls|
  {
    if calls == [] then 0
    else
      var c := calls[0];
      (if c.key == key && lo <= c.now < hi && Answer(b, c.key, c.limit, c.now).allowed then 1 else 0)
      + AllowedIn(After(b, c.key, c.window, c.now), calls[1..], key, lo, hi)
  }

  ghost predicate Fixed(calls: seq<Call>, key: string, limit: int, window: int) {
    forall i | 0 <= i < |calls| && calls[i].key == key :: calls[i].limit == limit && calls[i].window == window
  }

  /** What an open bucket still admits. */
  function Left(b: Buckets, key: string, limit: int): nat
    requires key in b
  {
    if b[key].count < limit then limit - b[key].count else 0
  }

  /** Within one window the bucket admits no more than it has left. */
  lemma {:induction false} WithinOneWindow(b: Buckets, calls: seq<Call>, key: string, limit: int, window: int,
      lo: int, hi: int, from: int)
    requires Monotone(calls, from) && Fixed(calls, key, limit, window)
    requires key in b && hi <= b[key].resetAt
    ensures AllowedIn(b, calls, key, lo, hi) <= Left(b, key, limit)
    decreases |calls|
  {
    if calls != [] {
      var c := calls[0];
      Tail(calls, key, limit, window, from);
      if c.now < hi {
        WithinOneWindow(After(b, c.key, c.window, c.now), calls[1..], key, limit, window, lo, hi, c.now);
      } else {
        NoneAfter(After(b, c.key, c.window, c.now), calls[1..], key, lo, hi, c.now);
      }
    }
  }

  lemma {:induction false} NoneAfter(b: Buckets, calls: seq<Call>, key: string, lo: int, hi: int, from: int)
    requires Monotone(calls, from) && hi <= from
    ensures AllowedIn(b, calls, key, lo, hi) == 0
    decreases |calls|
  {
    if calls != [] {
      assert forall i | 0 <= i < |calls| - 1 :: calls[1..][i] == calls[i + 1];
      NoneAfter(After(b, calls[0].key, calls[0].window, calls[0].now), calls[1..], key, lo, hi, calls[0].now);
    }
  }

  lemma Tail(calls: seq<Call>, key: string, limit: int, window: int, from: int)
    requires calls != [] && Monotone(calls, from) && Fixed(calls, key, limit, window)
    ensures Monotone(calls[1..], calls[0].now) && Fixed(calls[1..], key, limit, window)
  {
    assert forall i | 0 <= i < |calls| - 1 :: calls[1..][i] == calls[i + 1];
  }

  /** From any reachable bucket, an interval of one window admits at most twice the limit, less one. */
  lemma {:induction false} IntervalBoundFrom(b: Buckets, calls: seq<Call>, key: string, limit: int, window: int,
      lo: int, from: int)
    requires limit >= 1 && Monotone(calls, from) && Fixed(calls, key, limit, window)
    requires key in b ==> b[key].count >= 1
    ensures AllowedIn(b, calls, key, lo, lo + window) <=
            (if from < lo then 2 * limit - 1 else limit + if key in b then Left(b, key, limit) else 0)
    decreases |calls|
  {
    if calls != [] {
      var c := calls[0];
      var b' := After(b, c.key, c.window, c.now);
      Tail(calls, key, limit, window, from);
      if c.key == key && lo <= c.now && !Open(b, key, c.now) {
        WithinOneWindow(b', calls[1..], key, limit, window, lo, lo + window, c.now);
      } else {
        IntervalBoundFrom(b', calls[1..], key, limit, window, lo, c.now);
      }
    }
  }

  /**
   * Over any run from an empty limiter with a monotone clock, a fixed limit and a fixed window, every
   * half-open interval one window long admits at most 2 * limit - 1 calls for a key. Calls for other
   * keys, and their limits, play no part.
   */
  lemma IntervalBound(calls: seq<Call>, key: string, limit: int, window: int, lo: int, from: int)
    requires limit >= 1 && Monotone(calls, from) && Fixed(calls, key, limit, window)
    ensures AllowedIn(map[], calls, key, lo, lo + window) <= 2 * limit - 1
  {
    IntervalBoundFrom(map[], calls, key, limit, window, lo, from);
  }

  /** How many of these decisions allow a call for `key` at a time in the interval. */
  function Admitted(ds: seq<Option<Decision>>, calls: seq<Call>, key: string, lo: int, hi: int): nat
    requires |ds| == |calls|
    decreases |calls|
  {
    if calls == [] then 0
    else
      (if calls[0].key == key && lo <= calls[0].now < hi && ds[0].Some? && ds[0].value.allowed then 1 else 0)
      + Admitted(ds[1..], calls[1..], key, lo, hi)
  }

  function Somes(ds: seq<Decision>): seq<Option<Decision>> { seq(|ds|, i requires 0 <= i < |ds| => Some(ds[i])) }

  lemma {:induction false} PlainAdmits(b: Buckets, calls: seq<Call>, key: string, lo: int, hi: int)
    ensures |Plain(b, calls)| == |calls| && Admitted(Somes(Plain(b, calls)), calls, key, lo, hi)
            == AllowedIn(b, calls, key, lo, hi)
    decreases |calls|
  {
    if calls != [] {
      var b' := After(b, calls[0].key, calls[0].window, calls[0].now);
      PlainAdmits(b', calls[1..], key, lo, hi);
      assert Somes(Plain(b, calls))[1..] == Somes(Plain(b', calls[1..]));
    }
  }

  /** The bound for the in-process limiter as written, sweeps included. */
  lemma SweepingIntervalBound(calls: seq<Call>, key: string, limit: int, window: int, lo: int, from: int)
    requires limit >= 1 && Monotone(calls, from) && Fixed(calls, key, limit, window)
    ensures |Sweeping(map[], calls)| == |calls|
            && Admitted(Somes(Sweeping(map[], calls)), calls, key, lo, lo + window) <= 2 * limit - 1
  {
    SweepChangesNoDecision(map[], map[], calls, from);
    PlainAdmits(map[], calls, key, lo, lo + window);
    IntervalBound(calls, key, limit, window, lo, from);
  }

  /** The calls Redis is reached with; the others are refused before. */
  function Accepted(calls: seq<Call>): seq<Call>
    decreases |calls|
  {
    if calls == [] then [] else
        (if calls[0].limit < 1 || calls[0].window < 1 then [] else [calls[0]])
        + Accepted(calls[1..])
  }

  lemma {:induction false} AcceptedKeeps(calls: seq<Call>, key: string, limit: int, window: int, from: int)
    requires Monotone(calls, from) && Fixed(calls, key, limit, window)
    ensures Monotone(Accepted(calls), from) && Fixed(Accepted(calls), key, limit, window)
    decreases |calls|
  {
    if calls != [] {
      Tail(calls, key, limit, window, from);
      AcceptedKeeps(calls[1..], key, limit, window, calls[0].now);
      var rest := Accepted(calls[1..]);
      if calls[0].limit < 1 || calls[0].window < 1 {
        assert Accepted(calls) == rest;
      } else {
        assert Accepted(calls) == [calls[0]] + rest;
        Prepended(calls[0], rest, key, limit, window, from);
      }
    }
  }

  lemma Prepended(c: Call, rest: seq<Call>, key: string, limit: int, window: int, from: int)
    requires from <= c.now && Monotone(rest, c.now) && Fixed(rest, key, limit, window)
             && (c.key == key ==> c.limit == limit && c.window == window)
    ensures Monotone([c] + rest, from) && Fixed([c] + rest, key, limit, window)
  {
    var all := [c] + rest;
    assert forall i | 0 < i < |all| :: all[i] == rest[i - 1];
  }

  lemma {:induction false} RedisAdmits(b: Buckets, r: Redis, calls: seq<Call>, key: string, lo: int, hi: int, from: int)
    requires Mirrors(b, r, from) && Monotone(calls, from)
    ensures |RedisRun(r, calls)| == |calls| && Admitted(RedisRun(r, calls), calls, key, lo, hi)
            == AllowedIn(b, Accepted(calls), key, lo, hi)
    decreases |calls|
  {
    if calls != [] {
      var c := calls[0];
      var r' := RedisConsume(r, c).0;
      assert forall i | 0 <= i < |calls| - 1 :: calls[1..][i] == calls[i + 1];
      assert RedisRun(r, calls)[1..] == RedisRun(r', calls[1..]);
      if c.limit < 1 || c.window < 1 {
        RedisAdmits(b, r, calls[1..], key, lo, hi, from);
        assert Accepted(calls) == Accepted(calls[1..]);
      } else {
        MirrorsStep(b, r, c, from);
        RedisAdmits(After(b, c.key, c.window, c.now), r', calls[1..], key, lo, hi, c.now);
        assert Accepted(calls)[0] == c && Accepted(calls)[1..] == Accepted(calls[1..]);
      }
    }
  }

  /** The bound for the Redis limiter, whatever else the same Redis is asked, refused calls included. */
  lemma RedisIntervalBound(calls: seq<Call>, key: string, limit: int, window: int, lo: int, from: int)
    requires limit >= 1 && Monotone(calls, from) && Fixed(calls, key, limit, window)
    ensures |RedisRun(map[], calls)| == |calls|
            && Admitted(RedisRun(map[], calls), calls, key, lo, lo + window) <= 2 * limit - 1
  {
    RedisAdmits(map[], map[], calls, key, lo, lo + window, from);
    AcceptedKeeps(calls, key, limit, window, from);
    IntervalBound(Accepted(calls), key, limit, window, lo, from);
  }

  /** `n` calls at one moment. */
  function Burst(key: string, limit: int, window: int, now: int, n: nat): seq<Call> {
    if n == 0 then [] else [Call(key, limit, window, now)] + Burst(key, limit, window, now, n - 1)
  }

  function Filled(b: Buckets, key: string, n: nat): Buckets
    requires key in b
  {
    b[key := Bucket(b[key].count + n, b[key].resetAt)]
  }

  lemma FilledOnce(b: Buckets, key: string, window: int, now: int, n: nat)
    requires Open(b, key, now)
    ensures Filled(After(b, key, window, now), key, n) == Filled(b, key, n + 1)
    ensures Filled(b, key, 0) == b
  {
  }

  lemma {:induction false} BurstFill(b: Buckets, key: string, limit: int, window: int, now: int, n: nat, lo: int,
      hi: int, rest: seq<Call>)
    requires Open(b, key, now) && b[key].count + n <= limit && lo <= now < hi
    ensures AllowedIn(b, Burst(key, limit, window, now, n) + rest, key, lo, hi)
            == n + AllowedIn(Filled(b, key, n), rest, key, lo, hi)
    decreases n
  {
    if n == 0 {
      FilledOnce(b, key, window, now, 0);
      assert Burst(key, limit, window, now, n) + rest == rest;
    } else {
      var all := Burst(key, limit, window, now, n) + rest;
      assert all[0] == Call(key, limit, window, now) && all[1..] == Burst(key, limit, window, now, n - 1) + rest;
      BurstFill(After(b, key, window, now), key, limit, window, now, n - 1, lo, hi, rest);
      FilledOnce(b, key, window, now, n - 1);
    }
  }

  /**
   * The bound is attained for every limit and every window of at least two milliseconds: one call
   * opens the window at 0, the rest of the limit is spent in its last millisecond, and a new window
   * opens right after.
   */
  lemma IntervalBoundIsTight(key: string, limit: nat, window: nat)
    requires limit >= 1 && window >= 2
    ensures var calls := [Call(key, limit, window, 0)] + Burst(key, limit, window, window - 1, limit - 1)
                         + [Call(key, limit, window, window)] + Burst(key, limit, window, window, limit - 1);
            AllowedIn(map[], calls, key, 1, 1 + window) == 2 * limit - 1
  {
    var late, burst := Burst(key, limit, window, window - 1, limit - 1), Burst(key, limit, window, window, limit - 1);
    var reopen := [Call(key, limit, window, window)] + burst;
    var calls := [Call(key, limit, window, 0)] + late + [Call(key, limit, window, window)] + burst;
    assert calls[1..] == late + reopen;
    var b1: Buckets := map[key := Bucket(1, window)];
    assert After(map[], key, window, 0) == b1;
    BurstFill(b1, key, limit, window, window - 1, limit - 1, 1, 1 + window, reopen);
    var b2: Buckets := Filled(b1, key, limit - 1);
    assert reopen[1..] == burst == burst + [];
    var b3 := After(b2, key, window, window);
    assert b3[key] == Bucket(1, 2 * window);
    BurstFill(b3, key, limit, window, window, limit - 1, 1, 1 + window, []);
  }

  // ---------------------------------------------------------------------------
  // The pipeline's rate-limit step when the primary limiter is unreachable
  // ---------------------------------------------------------------------------

  datatype Verdict = Passed | Limited(retryAfterMs: int) | Unavailable

  /** Half of the configured limit, rounded down, but never below one. */
  function DegradedLimit(limit: int): int {
    if limit / 2 < 1 then 1 else limit / 2
  }

  function ToVerdict(d: Decision): Verdict {
    if d.allowed then Passed else Limited(d.retryAfterMs)
  }

  /** `primary` is the primary limiter's decision, or nothing when it throws. */
  method RateLimitStep(isPublic: bool, primary: Option<Decision>, degraded: InProcessRateLimiter,
                       key: string, limit: int, windowMs: int, now: int)
    returns (v: Verdict)
    modifies degraded
    ensures primary.Some? ==> v == ToVerdict(primary.value) && degraded.buckets == old(degraded.buckets)
    ensures primary.Some? && primary.value.allowed ==> v == Passed
    ensures primary.Some? && !primary.value.allowed ==> v == Limited(primary.value.retryAfterMs)
    ensures primary.None? && isPublic ==> v.Passed? || v.Limited?
    ensures primary.None? && isPublic ==>
              (v == Passed <==> Answer(old(degraded.buckets), key, DegradedLimit(limit), now).allowed)
    ensures primary.None? && !isPublic ==> v == Unavailable && degraded.buckets == old(degraded.buckets)
    ensures primary.None? && isPublic ==>
              && v == ToVerdict(Answer(old(degraded.buckets), key, DegradedLimit(limit), now))
              && degraded.buckets == After(SweptIfLarge(old(degraded.buckets), now), key, windowMs, now)
  {
    var d: Decision;
    if primary.Some? {
      d := primary.value;
    } else if !isPublic {
      return Unavailable;
    } else {
      d := degraded.Consume(key, DegradedLimit(limit), windowMs, now);
    }
    return ToVerdict(d);
  }

  /**
   * Through a whole outage one instance admits, in any interval one window long, no more calls of a
   * public caller than the configured limit itself: halving the limit pays for the window edge.
   */
  lemma OutageStaysUnderTheLimit(calls: seq<Call>, key: string, limit: int, window: int, lo: int, from: int)
    requires limit >= 1 && Monotone(calls, from) && Fixed(calls, key, DegradedLimit(limit), window)
    ensures |Sweeping(map[], calls)| == |calls|
            && Admitted(Somes(Sweeping(map[], calls)), calls, key, lo, lo + window) <= limit
  {
    SweepingIntervalBound(calls, key, DegradedLimit(limit), window, lo, from);
  }

  // ---------------------------------------------------------------------------
  // What the numbers of a decision mean
  // ---------------------------------------------------------------------------

  /** The degraded limit is half the configured one, rounded down, and at least one. */
  lemma DegradedIsHalf(limit: int)
    ensures limit >= 2 ==> 2 * DegradedLimit(limit) <= limit < 2 * DegradedLimit(limit) + 2
    ensures limit < 2 ==> DegradedLimit(limit) == 1
  {
  }

  /** A refused caller is told exactly how long: any call before is refused too, and one at that moment is allowed. */
  lemma RetryAfterIsExact(b: Buckets, key: string, limit: int, window: int, now: int, later: int)
    requires limit >= 1 && !Answer(b, key, limit, now).allowed && now <= later
    ensures var d, b' := Answer(b, key, limit, now), After(b, key, window, now);
            d.retryAfterMs > 0 && d.remaining == 0
              && (Answer(b', key, limit, later).allowed <==> later >= now + d.retryAfterMs)
  {
  }

  /** An admitted caller is told exactly how many more calls it has at that moment. */
  lemma {:induction false} RemainingIsExact(b: Buckets, key: string, limit: int, window: int, now: int, n: nat, k: nat)
    requires limit >= 1 && window >= 1 && Answer(b, key, limit, now).allowed && k < n
    ensures var d, b' := Answer(b, key, limit, now), After(b, key, window, now);
            && d.retryAfterMs == 0 && d.remaining >= 0 && |Plain(b', Burst(key, limit, window, now, n))| == n
            && (Plain(b', Burst(key, limit, window, now, n))[k].allowed <==> k < d.remaining)
    decreases n
  {
    var b' := After(b, key, window, now);
    var calls := Burst(key, limit, window, now, n);
    assert calls[0] == Call(key, limit, window, now) && calls[1..] == Burst(key, limit, window, now, n - 1);
    PlainLength(After(b', key, window, now), Burst(key, limit, window, now, n - 1));
    BurstLength(key, limit, window, now, n - 1);
    if k > 0 {
      if Answer(b', key, limit, now).allowed {
        RemainingIsExact(b', key, limit, window, now, n - 1, k - 1);
      } else {
        StaysFull(After(b', key, window, now), key, limit, window, now, n - 1, k - 1);
      }
    }
  }

  lemma {:induction false} PlainLength(b: Buckets, calls: seq<Call>)
    ensures |Plain(b, calls)| == |calls|
    decreases |calls|
  {
    if calls != [] { PlainLength(After(b, calls[0].key, calls[0].window, calls[0].now), calls[1..]); }
  }

  lemma {:induction false} BurstLength(key: string, limit: int, window: int, now: int, n: nat)
    ensures |Burst(key, limit, window, now, n)| == n
  {
    if n > 0 { BurstLength(key, limit, window, now, n - 1); }
  }

  lemma {:induction false} StaysFull(b: Buckets, key: string, limit: int, window: int, now: int, n: nat, k: nat)
    requires Open(b, key, now) && b[key].count >= limit && k < n
    ensures |Plain(b, Burst(key, limit, window, now, n))| == n
            && !Plain(b, Burst(key, limit, window, now, n))[k].allowed
    decreases n
  {
    var calls := Burst(key, limit, window, now, n);
    assert calls[0] == Call(key, limit, window, now) && calls[1..] == Burst(key, limit, window, now, n - 1);
    PlainLength(After(b, key, window, now), calls[1..]);
    BurstLength(key, limit, window, now, n - 1);
    if k > 0 { StaysFull(After(b, key, window, now), key, limit, window, now, n - 1, k - 1); }
  }
}
