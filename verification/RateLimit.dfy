/** Per-key token buckets with eviction of idle keys; tokens are reals, times are nanoseconds. */
module RateLimit {

  const SECOND: nat := 1_000_000_000

  /** limiterIdleTTL: ten minutes. */
  const IDLE_TTL: nat := 600 * SECOND

  /** rate.Limiter, with limit in tokens per second; a new one is full. */
  datatype Bucket = Bucket(limit: real, burst: int, tokens: real, last: nat)

  datatype Entry = Entry(limiter: Bucket, lastSeen: nat)

  type Cache = map<string, Entry>

  function NewBucket(limit: real, burst: int): Bucket {
    Bucket(limit, burst, burst as real, 0)
  }

  /** tokensFromDuration, summed up nanosecond by nanosecond. */
  function Earned(limit: real, elapsed: nat): (tokens: real)
    ensures tokens >= 0.0
  {
    if limit <= 0.0 || elapsed == 0 then 0.0 else limit / 1_000_000_000.0 + Earned(limit, elapsed - 1)
  }

  /** The tokens a bucket holds at time t: rate.Limiter's advance, which never lets time run back. */
  function Level(b: Bucket, t: nat): real {
    var elapsed := if t < b.last then 0 else t - b.last;
    var tokens := b.tokens + Earned(b.limit, elapsed);
    if tokens > b.burst as real then b.burst as real else tokens
  }

  /** Limiter.Allow: takes one token if there is one, else leaves the bucket as it is. */
  function Allow(b: Bucket, t: nat): (Bucket, bool) {
    var left := Level(b, t) - 1.0;
    if 1 <= b.burst && left >= 0.0 then (b.(tokens := left, last := t), true) else (b, false)
  }

  function SetLimit(b: Bucket, t: nat, limit: real): Bucket {
    b.(tokens := Level(b, t), last := t, limit := limit)
  }

  function SetBurst(b: Bucket, t: nat, burst: int): Bucket {
    b.(tokens := Level(b, t), last := t, burst := burst)
  }

  // ----- the limiter map as a value -----

  /** getLimiter: a new bucket for a new key, changed limits set in place. */
  function Touch(c: Cache, key: string, limit: real, burst: int, now: nat): Cache {
    if key !in c then c[key := Entry(NewBucket(limit, burst), now)]
    else
      var b := c[key].limiter;
      var b1 := if b.limit != limit then SetLimit(b, now, limit) else b;
      var b2 := if b1.burst != burst then SetBurst(b1, now, burst) else b1;
      c[key := Entry(b2, now)]
  }

  function Serve(c: Cache, key: string, limit: real, burst: int, now: nat): (Cache, bool) {
    var c1 := Touch(c, key, limit, burst, now);
    var (b, ok) := Allow(c1[key].limiter, now);
    (c1[key := c1[key].(limiter := b)], ok)
  }

  predicate Idle(e: Entry, now: nat) {
    e.lastSeen < now - IDLE_TTL
  }

  function Sweep(c: Cache, now: nat): Cache {
    map k | k in c && !Idle(c[k], now) :: c[k]
  }

  class RateLimiter {
    var limiters: Cache
    const rps: real
    const burst: int

    constructor (rps: real, burst: int)
      ensures limiters == map[] && this.rps == rps && this.burst == burst
    {
      limiters := map[];
      this.rps, this.burst := rps, burst;
    }

    method GetLimiter(key: string, limit: real, burst: int, now: nat)
      modifies this
      ensures limiters == Touch(old(limiters), key, limit, burst, now)
    {
      if key !in limiters {
        limiters := limiters[key := Entry(NewBucket(limit, burst), now)];
      } else {
        var b := limiters[key].limiter;
        if b.limit != limit {
          b := SetLimit(b, now, limit);
        }
        if b.burst != burst {
          b := SetBurst(b, now, burst);
        }
        limiters := limiters[key := Entry(b, now)];
      }
    }

    /** Deletes idle keys while going through the map in arbitrary order. */
    method EvictIdle(now: nat) returns (evicted: nat)
      modifies this
      ensures limiters == Sweep(old(limiters), now)
      ensures evicted == |old(limiters)| - |limiters|
    {
      evicted := 0;
      var todo := limiters.Keys;
      while todo != {}
        invariant todo <= limiters.Keys
        invariant forall k :: k in limiters <==> k in old(limiters) && (k in todo || !Idle(old(limiters)[k], now))
        invariant forall k :: k in limiters ==> limiters[k] == old(limiters)[k]
        invariant evicted == |old(limiters)| - |limiters|
        decreases todo
      {
        var k :| k in todo;
        todo := todo - {k};
        if limiters[k].lastSeen < now - IDLE_TTL {
          OneLess(limiters, k);
          limiters := limiters - {k};
          evicted := evicted + 1;
        }
      }
    }

    /** The middleware: non-positive overrides mean the limiter's own defaults. */
    method Handle(key: string, rps: real, burst: int, now: nat) returns (admitted: bool)
      modifies this
      ensures (limiters, admitted) == Serve(old(limiters), key,
        if rps > 0.0 then rps else this.rps, if burst > 0 then burst else this.burst, now)
    {
      var limit := this.rps;
      if rps > 0.0 {
        limit := rps;
      }
      var b := burst;
      if b <= 0 {
        b := this.burst;
      }
      GetLimiter(key, limit, b, now);
      var (bucket, ok) := Allow(limiters[key].limiter, now);
      limiters := limiters[key := limiters[key].(limiter := bucket)];
      admitted := ok;
    }
  }

  lemma OneLess(c: Cache, k: string)
    requires k in c
    ensures |c - {k}| == |c| - 1
  {
    assert (c - {k}).Keys == c.Keys - {k};
  }

  // ----- runs -----

  datatype Event = Request(key: string, now: nat) | SweepAt(now: nat)

  /** The limits of each key, which stay the same over a run. */
  datatype Limits = Limits(limit: real, burst: int)

  type LimitsOf = string -> Limits

  function After(lim: LimitsOf, c: Cache, e: Event): Cache {
    match e
    case Request(key, now) => Serve(c, key, lim(key).limit, lim(key).burst, now).0
    case SweepAt(now) => Sweep(c, now)
  }

  function Decision(lim: LimitsOf, c: Cache, e: Event): seq<bool> {
    match e
    case Request(key, now) => [Serve(c, key, lim(key).limit, lim(key).burst, now).1]
    case SweepAt(_) => []
  }

  function Decisions(lim: LimitsOf, c: Cache, events: seq<Event>): seq<bool>
    decreases |events|
  {
    if events == [] then []
    else Decision(lim, c, events[0]) + Decisions(lim, After(lim, c, events[0]), events[1..])
  }

  /** The answers to the requests of one key. */
  function KeyDecisions(lim: LimitsOf, c: Cache, events: seq<Event>, key: string): seq<bool>
    decreases |events|
  {
    if events == [] then []
    else
      var mine := events[0].Request? && events[0].key == key;
      (if mine then Decision(lim, c, events[0]) else []) + KeyDecisions(lim, After(lim, c, events[0]), events[1..], key)
  }

  /** The same requests with no sweep in between. */
  function WithoutSweeps(events: seq<Event>): seq<Event> {
    if events == [] then []
    else (if events[0].Request? then [events[0]] else []) + WithoutSweeps(events[1..])
  }

  ghost predicate Timely(from: nat, events: seq<Event>)
    decreases |events|
  {
    events == [] || (from <= events[0].now && Timely(events[0].now, events[1..]))
  }

  // ----- buckets of one key over time -----

  ghost predicate Sound(l: Limits, e: Entry, now: nat) {
    && e.limiter.limit == l.limit && e.limiter.burst == l.burst
    && e.limiter.last <= e.lastSeen <= now
    && e.limiter.tokens <= l.burst as real
    && (l.burst >= 0 ==> e.limiter.tokens >= 0.0)
  }

  ghost predicate AllSound(lim: LimitsOf, c: Cache, now: nat) {
    forall k :: k in c ==> Sound(lim(k), c[k], now)
  }

  lemma {:induction false} EarnedAdds(limit: real, a: nat, b: nat)
    ensures Earned(limit, a + b) == Earned(limit, a) + Earned(limit, b)
    decreases b
  {
    if b > 0 {
      EarnedAdds(limit, a, b - 1);
    }
  }

  lemma LevelGrows(b: Bucket, t: nat, t': nat)
    requires b.last <= t <= t'
    ensures Level(b, t) <= Level(b, t') <= Level(b, t) + Earned(b.limit, t' - t)
  {
    EarnedAdds(b.limit, t - b.last, t' - t);
  }

  /** In closed form: rate times seconds. */
  function InTime(limit: real, elapsed: nat): real {
    if limit <= 0.0 then 0.0 else limit * elapsed as real / 1_000_000_000.0
  }

  lemma {:induction false} EarnedInTime(limit: real, elapsed: nat)
    ensures Earned(limit, elapsed) == InTime(limit, elapsed)
  {
    if limit > 0.0 && elapsed > 0 {
      EarnedInTime(limit, elapsed - 1);
      assert limit * elapsed as real == limit * (elapsed - 1) as real + limit;
    }
  }

  ghost predicate Full(b: Bucket, t: nat) {
    Level(b, t) == b.burst as real
  }

  /** Refilled completely by the time a sweep can evict the key, or unable to admit anything anyway. */
  predicate Harmless(l: Limits) {
    l.burst <= 0 || l.burst as real <= InTime(l.limit, IDLE_TTL + 1)
  }

  lemma IdleIsFull(l: Limits, e: Entry, now: nat)
    requires Sound(l, e, now) && Idle(e, now) && l.burst > 0 && Harmless(l)
    ensures Full(e.limiter, now)
  {
    var idle, more := IDLE_TTL + 1, now - e.limiter.last - (IDLE_TTL + 1);
    EarnedInTime(l.limit, idle);
    EarnedAdds(l.limit, idle, more);
  }

  /** Two buckets no request from now on can tell apart. */
  ghost predicate Alike(a: Bucket, b: Bucket, now: nat) {
    && a.limit == b.limit && a.burst == b.burst
    && (a == b || a.burst <= 0 || (Full(a, now) && Full(b, now)))
  }

  /** c may have forgotten a key of the full cache d, but only if its bucket is as good as new. */
  ghost predicate Forgets(lim: LimitsOf, c: Cache, d: Cache, key: string, now: nat) {
    && (key in c ==> key in d && Alike(c[key].limiter, d[key].limiter, now) && c[key].lastSeen == d[key].lastSeen)
    && (key in d && key !in c ==> lim(key).burst <= 0 || Full(d[key].limiter, now))
  }

  lemma FullStays(b: Bucket, t: nat, t': nat)
    requires Full(b, t) && b.last <= t <= t'
    ensures Full(b, t')
  {
    LevelGrows(b, t, t');
  }

  lemma ForgetsLater(lim: LimitsOf, c: Cache, d: Cache, key: string, t: nat, t': nat)
    requires AllSound(lim, c, t) && AllSound(lim, d, t) && Forgets(lim, c, d, key, t) && t <= t'
    ensures Forgets(lim, c, d, key, t')
  {
    if key in c && Full(c[key].limiter, t) {
      assert Sound(lim(key), c[key], t);
      FullStays(c[key].limiter, t, t');
    }
    if key in d && Full(d[key].limiter, t) {
      assert Sound(lim(key), d[key], t);
      FullStays(d[key].limiter, t, t');
    }
  }

  lemma ServeSound(lim: LimitsOf, c: Cache, key: string, now: nat)
    requires AllSound(lim, c, now)
    ensures AllSound(lim, Serve(c, key, lim(key).limit, lim(key).burst, now).0, now)
  {
    var c1 := Touch(c, key, lim(key).limit, lim(key).burst, now);
    assert key in c ==> Sound(lim(key), c[key], now);
    assert Sound(lim(key), c1[key], now);
    var c2 := Serve(c, key, lim(key).limit, lim(key).burst, now).0;
    assert Sound(lim(key), c2[key], now);
    forall k | k in c2 && k != key
      ensures Sound(lim(k), c2[k], now)
    {
      assert k in c && c2[k] == c[k];
    }
  }

  lemma AllowAlike(a: Bucket, b: Bucket, now: nat)
    requires Alike(a, b, now)
    ensures Allow(a, now).1 == Allow(b, now).1
    ensures Alike(Allow(a, now).0, Allow(b, now).0, now)
  {
  }

  /** The bucket a request meets. */
  function Met(lim: LimitsOf, c: Cache, key: string): Bucket {
    if key in c then c[key].limiter else NewBucket(lim(key).limit, lim(key).burst)
  }

  lemma ServeAt(lim: LimitsOf, c: Cache, key: string, now: nat)
    requires AllSound(lim, c, now)
    ensures var (b, ok) := Allow(Met(lim, c, key), now);
      Serve(c, key, lim(key).limit, lim(key).burst, now) == (c[key := Entry(b, now)], ok)
  {
    assert key in c ==> Sound(lim(key), c[key], now);
    var (b, ok) := Allow(Met(lim, c, key), now);
    assert Serve(c, key, lim(key).limit, lim(key).burst, now).0 == c[key := Entry(b, now)];
  }

  lemma MetAlike(lim: LimitsOf, c: Cache, d: Cache, key: string, now: nat)
    requires Forgets(lim, c, d, key, now) && AllSound(lim, d, now)
    ensures Alike(Met(lim, c, key), Met(lim, d, key), now)
  {
    if key in d && key !in c {
      assert Sound(lim(key), d[key], now);
    }
  }

  /** A request of the key gets the same answer from both caches; one of another key leaves them as they are. */
  lemma ServeForgets(lim: LimitsOf, c: Cache, d: Cache, key: string, k: string, now: nat)
    requires AllSound(lim, c, now) && AllSound(lim, d, now) && Forgets(lim, c, d, key, now)
    ensures k == key ==>
      Serve(c, k, lim(k).limit, lim(k).burst, now).1 == Serve(d, k, lim(k).limit, lim(k).burst, now).1
    ensures Forgets(lim, Serve(c, k, lim(k).limit, lim(k).burst, now).0, Serve(d, k, lim(k).limit, lim(k).burst, now).0,
                    key, now)
  {
    ServeAt(lim, c, k, now);
    ServeAt(lim, d, k, now);
    if k == key {
      MetAlike(lim, c, d, key, now);
      AllowAlike(Met(lim, c, key), Met(lim, d, key), now);
    }
  }

  lemma SweepForgets(lim: LimitsOf, c: Cache, d: Cache, key: string, now: nat)
    requires AllSound(lim, d, now) && Forgets(lim, c, d, key, now) && Harmless(lim(key))
    ensures Forgets(lim, Sweep(c, now), d, key, now)
  {
    if key in c && Idle(c[key], now) && lim(key).burst > 0 {
      assert Sound(lim(key), d[key], now);
      IdleIsFull(lim(key), d[key], now);
    }
  }

  lemma {:induction false} RunForgets(lim: LimitsOf, c: Cache, d: Cache, key: string, from: nat, events: seq<Event>)
    requires Timely(from, events) && Harmless(lim(key))
    requires AllSound(lim, c, from) && AllSound(lim, d, from) && Forgets(lim, c, d, key, from)
    ensures KeyDecisions(lim, c, events, key) == KeyDecisions(lim, d, WithoutSweeps(events), key)
    decreases |events|
  {
    if events != [] {
      var e := events[0];
      SoundLater(lim, c, from, e.now);
      SoundLater(lim, d, from, e.now);
      ForgetsLater(lim, c, d, key, from, e.now);
      AfterSound(lim, c, e);
      match e
      case Request(k, now) =>
        ServeForgets(lim, c, d, key, k, now);
        ServeSound(lim, d, k, now);
        RunForgets(lim, After(lim, c, e), After(lim, d, e), key, now, events[1..]);
        assert WithoutSweeps(events)[1..] == WithoutSweeps(events[1..]);
      case SweepAt(now) =>
        SweepForgets(lim, c, d, key, now);
        RunForgets(lim, After(lim, c, e), d, key, now, events[1..]);
        assert WithoutSweeps(events) == WithoutSweeps(events[1..]);
    }
  }

  /**
    From an empty map, no sequence of sweeps changes the answer to any request of a key whose burst
    is refilled within the idle time, whatever limits the other keys have.
   */
  lemma {:induction false} EvictionUnobservable(lim: LimitsOf, events: seq<Event>, key: string)
    requires Timely(0, events) && Harmless(lim(key))
    ensures KeyDecisions(lim, map[], events, key) == KeyDecisions(lim, map[], WithoutSweeps(events), key)
  {
    RunForgets(lim, map[], map[], key, 0, events);
  }

  // ----- changed limits -----

  function Least(a: real, b: real): real {
    if a < b then a else b
  }

  /**
    Touching a key sets its limits and its access time and costs it nothing: from now on it holds what
    it held, no more than the new burst allows, and what the new rate adds. A new key starts full.
    Other keys are left alone.
   */
  lemma TouchKeepsTokens(c: Cache, key: string, limit: real, burst: int, now: nat, t: nat)
    requires now <= t && (key in c ==> c[key].limiter.last <= now)
    ensures var c' := Touch(c, key, limit, burst, now);
      && c'.Keys == c.Keys + {key} && (forall k :: k in c && k != key ==> c'[k] == c[k])
      && c'[key].lastSeen == now && c'[key].limiter.limit == limit && c'[key].limiter.burst == burst
      && Level(c'[key].limiter, t)
        == if key in c then Least(burst as real, Level(c[key].limiter, now) + Earned(limit, t - now)) else burst as real
  {
    if key in c {
      var b := c[key].limiter;
      EarnedAdds(b.limit, now - b.last, t - now);
    }
  }

  // ----- the condition is exact -----

  function Final(lim: LimitsOf, c: Cache, events: seq<Event>): Cache
    decreases |events|
  {
    if events == [] then c else Final(lim, After(lim, c, events[0]), events[1..])
  }

  lemma {:induction false} DecisionsConcat(lim: LimitsOf, c: Cache, a: seq<Event>, b: seq<Event>)
    ensures Decisions(lim, c, a + b) == Decisions(lim, c, a) + Decisions(lim, Final(lim, c, a), b)
    decreases |a|
  {
    if a == [] {
      assert a + b == b;
    } else {
      assert (a + b)[1..] == a[1..] + b;
      DecisionsConcat(lim, After(lim, c, a[0]), a[1..], b);
    }
  }

  function Repeat(key: string, t: nat, n: nat): seq<Event> {
    if n == 0 then [] else [Request(key, t)] + Repeat(key, t, n - 1)
  }

  function Trues(n: nat): (s: seq<bool>)
    ensures false !in s
  {
    if n == 0 then [] else [true] + Trues(n - 1)
  }

  /** A request that finds a token takes it. */
  lemma OneAdmitted(lim: LimitsOf, c: Cache, key: string, t: nat)
    requires AllSound(lim, c, t) && 1.0 <= Level(Met(lim, c, key), t)
    ensures var c' := After(lim, c, Request(key, t));
      && Decision(lim, c, Request(key, t)) == [true]
      && AllSound(lim, c', t) && key in c' && c'[key].lastSeen == t && c'[key].limiter.last == t
      && Level(Met(lim, c', key), t) == Level(Met(lim, c, key), t) - 1.0
  {
    ServeAt(lim, c, key, t);
    ServeSound(lim, c, key, t);
    assert key in c ==> Sound(lim(key), c[key], t);
  }

  /** As many requests at once as the bucket holds tokens are all admitted. */
  lemma {:induction false} BurstAdmitted(lim: LimitsOf, c: Cache, key: string, t: nat, n: nat)
    requires AllSound(lim, c, t) && n as real <= Level(Met(lim, c, key), t)
    ensures Decisions(lim, c, Repeat(key, t, n)) == Trues(n)
    ensures var d := Final(lim, c, Repeat(key, t, n));
      && AllSound(lim, d, t)
      && Level(Met(lim, d, key), t) == Level(Met(lim, c, key), t) - n as real
      && (n > 0 ==> key in d && d[key].lastSeen == t && d[key].limiter.last == t)
    decreases n
  {
    if n > 0 {
      OneAdmitted(lim, c, key, t);
      BurstAdmitted(lim, After(lim, c, Request(key, t)), key, t, n - 1);
      assert Repeat(key, t, n)[1..] == Repeat(key, t, n - 1);
    }
  }

  /** One request more than that is not. */
  lemma {:induction false} BurstTooBig(lim: LimitsOf, c: Cache, key: string, t: nat, n: nat)
    requires AllSound(lim, c, t) && n as real > Level(Met(lim, c, key), t) && n > 0
    ensures false in Decisions(lim, c, Repeat(key, t, n))
    decreases n
  {
    ServeAt(lim, c, key, t);
    ServeSound(lim, c, key, t);
    assert key in c ==> Sound(lim(key), c[key], t);
    var b := Met(lim, c, key);
    var ds := Decisions(lim, c, Repeat(key, t, n));
    assert Repeat(key, t, n)[1..] == Repeat(key, t, n - 1);
    assert ds[0] == Allow(b, t).1;
    if Allow(b, t).1 {
      var c1 := After(lim, c, Request(key, t));
      assert Met(lim, c1, key) == Allow(b, t).0;
      BurstTooBig(lim, c1, key, t, n - 1);
      assert ds == [true] + Decisions(lim, c1, Repeat(key, t, n - 1));
    }
  }

  /** At the first moment a sweep may evict it, an emptied bucket is not full yet. */
  lemma NotYetFull(l: Limits, b: Bucket)
    requires !Harmless(l) && b == Bucket(l.limit, l.burst, 0.0, 0)
    ensures Level(b, IDLE_TTL + 1) < l.burst as real
  {
    EarnedInTime(l.limit, IDLE_TTL + 1);
  }

  lemma OneInFront(e: Event, a: seq<Event>, b: seq<Event>)
    ensures ([e] + a) + b == [e] + (a + b)
  {
  }

  lemma OneMoreRequest(key: string, t: nat, from: nat, events: seq<Event>)
    requires from <= t && Timely(t, events)
    ensures Timely(from, [Request(key, t)] + events)
    ensures WithoutSweeps([Request(key, t)] + events) == [Request(key, t)] + WithoutSweeps(events)
  {
    assert ([Request(key, t)] + events)[1..] == events;
  }

  lemma {:induction false} RepeatTimely(key: string, t: nat, n: nat, from: nat, rest: seq<Event>)
    requires from <= t && Timely(t, rest)
    ensures Timely(from, Repeat(key, t, n) + rest)
    ensures WithoutSweeps(Repeat(key, t, n) + rest) == Repeat(key, t, n) + WithoutSweeps(rest)
    decreases n
  {
    if n == 0 {
      assert Repeat(key, t, n) + rest == rest;
      assert Repeat(key, t, n) + WithoutSweeps(rest) == WithoutSweeps(rest);
      TimelyEarlier(from, t, rest);
    } else {
      var fewer := Repeat(key, t, n - 1);
      RepeatTimely(key, t, n - 1, t, rest);
      OneMoreRequest(key, t, from, fewer + rest);
      OneInFront(Request(key, t), fewer, rest);
      OneInFront(Request(key, t), fewer, WithoutSweeps(rest));
    }
  }

  lemma TimelyEarlier(from: nat, t: nat, events: seq<Event>)
    requires from <= t && Timely(t, events)
    ensures Timely(from, events)
  {
  }

  /** A burst, a sweep as soon as the key is idle, and a second burst. */
  function Probe(key: string, n: nat, t: nat): seq<Event> {
    Repeat(key, 0, n) + ([SweepAt(t)] + (Repeat(key, t, n) + []))
  }

  lemma AfterSweep(key: string, n: nat, t: nat)
    ensures Timely(0, [SweepAt(t)] + (Repeat(key, t, n) + []))
    ensures WithoutSweeps([SweepAt(t)] + (Repeat(key, t, n) + [])) == Repeat(key, t, n)
  {
    RepeatTimely(key, t, n, t, []);
    var tail := Repeat(key, t, n) + [];
    assert WithoutSweeps(tail) == Repeat(key, t, n);
    assert ([SweepAt(t)] + tail)[1..] == tail;
  }

  lemma {:induction false} ProbeShape(key: string, n: nat, t: nat)
    ensures Timely(0, Probe(key, n, t))
    ensures WithoutSweeps(Probe(key, n, t)) == Repeat(key, 0, n) + Repeat(key, t, n)
  {
    AfterSweep(key, n, t);
    RepeatTimely(key, 0, n, 0, [SweepAt(t)] + (Repeat(key, t, n) + []));
  }

  lemma SoundLater(lim: LimitsOf, c: Cache, t: nat, t': nat)
    requires AllSound(lim, c, t) && t <= t'
    ensures AllSound(lim, c, t')
  {
    forall k | k in c
      ensures Sound(lim(k), c[k], t')
    {
      assert Sound(lim(k), c[k], t);
    }
  }

  /** After the first burst the bucket is empty and the key idle from the start. */
  lemma FirstBurst(lim: LimitsOf, key: string) returns (c: Cache)
    requires lim(key).burst > 0
    ensures c == Final(lim, map[], Repeat(key, 0, lim(key).burst))
    ensures Decisions(lim, map[], Repeat(key, 0, lim(key).burst)) == Trues(lim(key).burst)
    ensures AllSound(lim, c, 0) && key in c && c[key].lastSeen == 0
    ensures c[key].limiter == Bucket(lim(key).limit, lim(key).burst, 0.0, 0)
  {
    var n: nat := lim(key).burst;
    BurstAdmitted(lim, map[], key, 0, n);
    c := Final(lim, map[], Repeat(key, 0, n));
    assert Sound(lim(key), c[key], 0);
  }

  /** With the sweep the key is forgotten and the second burst meets a new bucket. */
  lemma {:induction false} SecondBurstSwept(lim: LimitsOf, c: Cache, key: string, t: nat)
    requires lim(key).burst > 0 && t > IDLE_TTL && AllSound(lim, c, 0) && key in c && c[key].lastSeen == 0
    ensures Decisions(lim, c, [SweepAt(t)] + (Repeat(key, t, lim(key).burst) + [])) == Trues(lim(key).burst)
  {
    var n: nat := lim(key).burst;
    var rest := [SweepAt(t)] + (Repeat(key, t, n) + []);
    assert rest[1..] == Repeat(key, t, n);
    SoundLater(lim, c, 0, t);
    AfterSound(lim, c, SweepAt(t));
    assert key !in Sweep(c, t);
    BurstAdmitted(lim, Sweep(c, t), key, t, n);
  }

  lemma TruesWithFalse(n: nat, ds: seq<bool>)
    requires false in ds
    ensures Trues(n) + ds != Trues(n) + Trues(n)
  {
    var i :| 0 <= i < |ds| && !ds[i];
    assert (Trues(n) + ds)[|Trues(n)| + i] == false;
    assert i < |Trues(n)| ==> Trues(n)[i] in Trues(n);
    assert i < |Trues(n)| ==> (Trues(n) + Trues(n))[|Trues(n)| + i] == Trues(n)[i];
  }

  ghost predicate AllOf(events: seq<Event>, key: string) {
    forall i :: 0 <= i < |events| && events[i].Request? ==> events[i].key == key
  }

  /** With a single key its answers are all answers. */
  lemma {:induction false} OnlyAnswers(lim: LimitsOf, c: Cache, events: seq<Event>, key: string)
    requires AllOf(events, key)
    ensures KeyDecisions(lim, c, events, key) == Decisions(lim, c, events)
    decreases |events|
  {
    if events != [] {
      assert forall i :: 0 <= i < |events[1..]| ==> events[1..][i] == events[i + 1];
      OnlyAnswers(lim, After(lim, c, events[0]), events[1..], key);
    }
  }

  lemma {:induction false} RepeatIsAllOf(key: string, t: nat, n: nat)
    ensures AllOf(Repeat(key, t, n), key)
  {
    if n > 0 {
      RepeatIsAllOf(key, t, n - 1);
    }
  }

  lemma {:induction false} AllOfWithoutSweeps(events: seq<Event>, key: string)
    requires AllOf(events, key)
    ensures AllOf(WithoutSweeps(events), key)
  {
    if events != [] {
      assert forall i :: 0 <= i < |events[1..]| ==> events[1..][i] == events[i + 1];
      AllOfWithoutSweeps(events[1..], key);
    }
  }

  lemma ProbeIsAllOf(key: string, n: nat, t: nat)
    ensures AllOf(Probe(key, n, t), key)
  {
    RepeatIsAllOf(key, 0, n);
    RepeatIsAllOf(key, t, n);
    var tail := [SweepAt(t)] + (Repeat(key, t, n) + []);
    assert AllOf(tail, key);
  }

  /** For a key that is not refilled in time: a run of its own on which a sweep changes an answer. */
  lemma ProbeShows(lim: LimitsOf, key: string) returns (events: seq<Event>)
    requires !Harmless(lim(key))
    ensures Timely(0, events)
    ensures Decisions(lim, map[], events) != Decisions(lim, map[], WithoutSweeps(events))
    ensures KeyDecisions(lim, map[], events, key) != KeyDecisions(lim, map[], WithoutSweeps(events), key)
  {
    var n: nat := lim(key).burst;
    var t := IDLE_TTL + 1;
    events := Probe(key, n, t);
    ProbeShape(key, n, t);
    var first, second := Repeat(key, 0, n), Repeat(key, t, n);
    var c := FirstBurst(lim, key);
    DecisionsConcat(lim, map[], first, [SweepAt(t)] + (second + []));
    SecondBurstSwept(lim, c, key, t);
    // without the sweep the bucket is still short of a whole burst
    DecisionsConcat(lim, map[], first, second);
    SoundLater(lim, c, 0, t);
    NotYetFull(lim(key), c[key].limiter);
    BurstTooBig(lim, c, key, t, n);
    TruesWithFalse(n, Decisions(lim, c, second));
    ProbeIsAllOf(key, n, t);
    AllOfWithoutSweeps(events, key);
    OnlyAnswers(lim, map[], events, key);
    OnlyAnswers(lim, map[], WithoutSweeps(events), key);
  }

  /**
    Key by key: sweeps are unobservable for its requests, on every run, exactly when its burst is
    refilled within the idle time (or it is admitted nothing at all).
   */
  lemma KeyEvictionUnobservableIff(lim: LimitsOf, key: string)
    ensures (forall events :: Timely(0, events) ==>
        KeyDecisions(lim, map[], events, key) == KeyDecisions(lim, map[], WithoutSweeps(events), key))
      <==> Harmless(lim(key))
  {
    if Harmless(lim(key)) {
      forall events | Timely(0, events)
        ensures KeyDecisions(lim, map[], events, key) == KeyDecisions(lim, map[], WithoutSweeps(events), key)
      {
        EvictionUnobservable(lim, events, key);
      }
    } else {
      var events := ProbeShows(lim, key);
    }
  }

  ghost predicate SameForAll(lim: LimitsOf, c: Cache, a: seq<Event>, d: Cache, b: seq<Event>) {
    forall k :: KeyDecisions(lim, c, a, k) == KeyDecisions(lim, d, b, k)
  }

  /** The first event's part of a key's answers. */
  lemma FirstAnswer(lim: LimitsOf, c: Cache, events: seq<Event>, key: string)
    requires events != []
    ensures var e, later := events[0], KeyDecisions(lim, After(lim, c, events[0]), events[1..], key);
      KeyDecisions(lim, c, events, key) == if e.Request? && e.key == key then Decision(lim, c, e) + later else later
  {
  }

  lemma SweepStep(lim: LimitsOf, c: Cache, d: Cache, events: seq<Event>)
    requires events != [] && events[0].SweepAt? && SameForAll(lim, c, events, d, WithoutSweeps(events))
    ensures WithoutSweeps(events) == WithoutSweeps(events[1..])
    ensures SameForAll(lim, After(lim, c, events[0]), events[1..], d, WithoutSweeps(events[1..]))
  {
    assert WithoutSweeps(events) == WithoutSweeps(events[1..]);
    forall k
      ensures KeyDecisions(lim, After(lim, c, events[0]), events[1..], k)
        == KeyDecisions(lim, d, WithoutSweeps(events[1..]), k)
    {
      assert KeyDecisions(lim, c, events, k) == KeyDecisions(lim, d, WithoutSweeps(events), k);
      FirstAnswer(lim, c, events, k);
    }
  }

  lemma SameTail(x: bool, y: bool, a: seq<bool>, b: seq<bool>)
    requires [x] + a == [y] + b
    ensures x == y && a == b
  {
    assert ([x] + a)[0] == x && ([y] + b)[0] == y;
    assert ([x] + a)[1..] == a && ([y] + b)[1..] == b;
  }

  lemma {:induction false} RequestStepAt(lim: LimitsOf, c: Cache, d: Cache, a: seq<Event>, b: seq<Event>, k: string)
    requires a != [] && b != [] && a[0] == b[0] && a[0].Request?
    requires KeyDecisions(lim, c, a, k) == KeyDecisions(lim, d, b, k)
    ensures KeyDecisions(lim, After(lim, c, a[0]), a[1..], k) == KeyDecisions(lim, After(lim, d, a[0]), b[1..], k)
    ensures k == a[0].key ==> Decision(lim, c, a[0]) == Decision(lim, d, a[0])
  {
    var e := a[0];
    FirstAnswer(lim, c, a, k);
    FirstAnswer(lim, d, b, k);
    if k == e.key {
      SameTail(Decision(lim, c, e)[0], Decision(lim, d, e)[0],
               KeyDecisions(lim, After(lim, c, e), a[1..], k), KeyDecisions(lim, After(lim, d, e), b[1..], k));
    }
  }

  lemma RequestStep(lim: LimitsOf, c: Cache, d: Cache, a: seq<Event>, b: seq<Event>)
    requires a != [] && b != [] && a[0] == b[0] && a[0].Request? && SameForAll(lim, c, a, d, b)
    ensures Decision(lim, c, a[0]) == Decision(lim, d, a[0])
    ensures SameForAll(lim, After(lim, c, a[0]), a[1..], After(lim, d, a[0]), b[1..])
  {
    RequestStepAt(lim, c, d, a, b, a[0].key);
    forall k
      ensures KeyDecisions(lim, After(lim, c, a[0]), a[1..], k) == KeyDecisions(lim, After(lim, d, a[0]), b[1..], k)
    {
      assert KeyDecisions(lim, c, a, k) == KeyDecisions(lim, d, b, k);
      RequestStepAt(lim, c, d, a, b, k);
    }
  }

  /** What every key is answered on its own is what is answered altogether. */
  lemma {:induction false} KeysDecideAll(lim: LimitsOf, c: Cache, d: Cache, events: seq<Event>)
    requires SameForAll(lim, c, events, d, WithoutSweeps(events))
    ensures Decisions(lim, c, events) == Decisions(lim, d, WithoutSweeps(events))
    decreases |events|
  {
    if events != [] {
      var e := events[0];
      if e.SweepAt? {
        SweepStep(lim, c, d, events);
        KeysDecideAll(lim, After(lim, c, e), d, events[1..]);
      } else {
        assert WithoutSweeps(events)[0] == e && WithoutSweeps(events)[1..] == WithoutSweeps(events[1..]);
        RequestStep(lim, c, d, events, WithoutSweeps(events));
        KeysDecideAll(lim, After(lim, c, e), After(lim, d, e), events[1..]);
      }
    }
  }

  /** Altogether: eviction is unobservable on every run exactly when every key is refilled in time. */
  lemma EvictionUnobservableIff(lim: LimitsOf)
    ensures (forall events :: Timely(0, events) ==>
        Decisions(lim, map[], events) == Decisions(lim, map[], WithoutSweeps(events)))
      <==> (forall k :: Harmless(lim(k)))
  {
    if forall k :: Harmless(lim(k)) {
      forall events | Timely(0, events)
        ensures Decisions(lim, map[], events) == Decisions(lim, map[], WithoutSweeps(events))
      {
        forall k
          ensures KeyDecisions(lim, map[], events, k) == KeyDecisions(lim, map[], WithoutSweeps(events), k)
        {
          EvictionUnobservable(lim, events, k);
        }
        KeysDecideAll(lim, map[], map[], events);
      }
    } else {
      var k :| !Harmless(lim(k));
      var events := ProbeShows(lim, k);
    }
  }

  // ----- how much is admitted -----

  /** What happens to the bucket of one key: a request, or its replacement by a new bucket. */
  datatype KeyStep = Take(now: nat) | Renew(now: nat)

  function NextBucket(l: Limits, b: Bucket, s: KeyStep): Bucket {
    if s.Take? then Allow(b, s.now).0 else NewBucket(l.limit, l.burst)
  }

  function Taken(l: Limits, b: Bucket, steps: seq<KeyStep>): nat
    decreases |steps|
  {
    if steps == [] then 0
    else
      var ok := steps[0].Take? && Allow(b, steps[0].now).1;
      (if ok then 1 else 0) + Taken(l, NextBucket(l, b, steps[0]), steps[1..])
  }

  ghost predicate BucketOk(l: Limits, b: Bucket, t: nat) {
    b.limit == l.limit && b.burst == l.burst && b.last <= t && 0.0 <= b.tokens <= l.burst as real
  }

  /** Times do not run back, and a bucket is only replaced when it is full. */
  ghost predicate Steady(l: Limits, b: Bucket, from: nat, steps: seq<KeyStep>, until: nat)
    decreases |steps|
  {
    if steps == [] then from <= until
    else
      var s := steps[0];
      from <= s.now && (s.Renew? ==> Full(b, s.now)) && Steady(l, NextBucket(l, b, s), s.now, steps[1..], until)
  }

  lemma LevelBounds(l: Limits, b: Bucket, t: nat)
    requires BucketOk(l, b, t)
    ensures 0.0 <= Level(b, t) <= b.burst as real
  {
  }

  lemma TakeCostsOne(b: Bucket, t: nat)
    ensures Allow(b, t).1 ==> Level(Allow(b, t).0, t) == Level(b, t) - 1.0
    ensures !Allow(b, t).1 ==> Allow(b, t).0 == b
  {
  }

  lemma StepTakes(l: Limits, b: Bucket, s: KeyStep)
    requires BucketOk(l, b, s.now) && (s.Renew? ==> Full(b, s.now))
    ensures BucketOk(l, NextBucket(l, b, s), s.now)
    ensures Level(NextBucket(l, b, s), s.now) + (if s.Take? && Allow(b, s.now).1 then 1.0 else 0.0) == Level(b, s.now)
  {
    LevelBounds(l, b, s.now);
    TakeCostsOne(b, s.now);
  }

  /** The tokens at hand and what the rate adds bound the admissions; replacing a full bucket adds nothing. */
  lemma {:induction false} TokensBoundTaken(l: Limits, b: Bucket, from: nat, steps: seq<KeyStep>, until: nat)
    requires BucketOk(l, b, from) && Steady(l, b, from, steps, until)
    ensures from <= until && Taken(l, b, steps) as real <= Level(b, from) + Earned(l.limit, until - from)
    decreases |steps|
  {
    LevelBounds(l, b, from);
    if steps != [] {
      var s := steps[0];
      LevelGrows(b, from, s.now);
      StepTakes(l, b, s);
      TokensBoundTaken(l, NextBucket(l, b, s), s.now, steps[1..], until);
      EarnedAdds(l.limit, s.now - from, until - s.now);
    }
  }

  predicate AdmitsNow(lim: LimitsOf, c: Cache, e: Event, key: string) {
    e.Request? && e.key == key && Serve(c, key, lim(key).limit, lim(key).burst, e.now).1
  }

  /** Admitted requests of one key in a run. */
  function Admitted(lim: LimitsOf, c: Cache, events: seq<Event>, key: string): nat
    decreases |events|
  {
    if events == [] then 0
    else
      var first := if AdmitsNow(lim, c, events[0], key) then 1 else 0;
      first + Admitted(lim, After(lim, c, events[0]), events[1..], key)
  }

  function StepOf(c: Cache, e: Event, key: string): seq<KeyStep> {
    if e.Request? && e.key == key then [Take(e.now)]
    else if e.SweepAt? && key in c && Idle(c[key], e.now) then [Renew(e.now)]
    else []
  }

  function KeySteps(lim: LimitsOf, c: Cache, events: seq<Event>, key: string): seq<KeyStep>
    decreases |events|
  {
    if events == [] then []
    else StepOf(c, events[0], key) + KeySteps(lim, After(lim, c, events[0]), events[1..], key)
  }

  /** One event acts on a key's bucket as its step does. */
  lemma EventIsStep(lim: LimitsOf, c: Cache, e: Event, key: string)
    requires AllSound(lim, c, e.now)
    ensures var b, b', steps := Met(lim, c, key), Met(lim, After(lim, c, e), key), StepOf(c, e, key);
      && (steps == [] ==> b' == b && !AdmitsNow(lim, c, e, key))
      && (steps != [] ==> b' == NextBucket(lim(key), b, steps[0]))
      && (steps != [] ==> (AdmitsNow(lim, c, e, key) <==> steps[0].Take? && Allow(b, e.now).1))
  {
    if e.Request? {
      ServeAt(lim, c, e.key, e.now);
    }
  }

  /** A harmless key is only ever forgotten with a full bucket. */
  lemma RenewedWhenFull(lim: LimitsOf, c: Cache, e: Event, key: string)
    requires AllSound(lim, c, e.now) && lim(key).burst >= 0 && Harmless(lim(key))
    requires StepOf(c, e, key) != [] && StepOf(c, e, key)[0].Renew?
    ensures Full(Met(lim, c, key), e.now)
  {
    assert Sound(lim(key), c[key], e.now);
    if lim(key).burst > 0 {
      IdleIsFull(lim(key), c[key], e.now);
    } else {
      LevelBounds(lim(key), c[key].limiter, e.now);
    }
  }

  /** The steps of a key in order of time. */
  ghost predicate InOrder(from: nat, steps: seq<KeyStep>, until: nat)
    decreases |steps|
  {
    if steps == [] then from <= until else from <= steps[0].now && InOrder(steps[0].now, steps[1..], until)
  }

  lemma InOrderEarlier(from: nat, now: nat, steps: seq<KeyStep>, until: nat)
    requires from <= now && InOrder(now, steps, until)
    ensures InOrder(from, steps, until)
  {
  }

  lemma {:induction false} KeyStepsInOrder(lim: LimitsOf, c: Cache, events: seq<Event>, key: string, from: nat,
                                           until: nat)
    requires Timely(from, events) && from <= until && Until(events, until) && AllSound(lim, c, from)
    ensures InOrder(from, KeySteps(lim, c, events, key), until)
    ensures Taken(lim(key), Met(lim, c, key), KeySteps(lim, c, events, key)) == Admitted(lim, c, events, key)
    decreases |events|
  {
    if events != [] {
      var e, rest := events[0], events[1..];
      OneEventLess(events, from, until);
      SoundLater(lim, c, from, e.now);
      AfterSound(lim, c, e);
      KeyStepsInOrder(lim, After(lim, c, e), rest, key, e.now, until);
      EventIsStep(lim, c, e, key);
      var first, later := StepOf(c, e, key), KeySteps(lim, After(lim, c, e), rest, key);
      if first == [] {
        assert first + later == later;
        InOrderEarlier(from, e.now, later, until);
      } else {
        assert (first + later)[1..] == later && (first + later)[0] == first[0];
      }
    }
  }

  lemma {:induction false} OneEventLess(events: seq<Event>, from: nat, until: nat)
    requires events != [] && Timely(from, events) && Until(events, until)
    ensures from <= events[0].now <= until && Timely(events[0].now, events[1..]) && Until(events[1..], until)
  {
    LastIsLatest(from, events);
    assert events[1..] != [] ==> events[1..][|events[1..]| - 1] == events[|events| - 1];
  }

  lemma SteadyLater(l: Limits, b: Bucket, from: nat, now: nat, steps: seq<KeyStep>, until: nat)
    requires from <= now && Steady(l, b, now, steps, until)
    ensures Steady(l, b, from, steps, until)
  {
  }

  lemma {:induction false} KeyStepsAreSteady(lim: LimitsOf, c: Cache, events: seq<Event>, key: string, from: nat,
                                             until: nat)
    requires Timely(from, events) && from <= until && Until(events, until)
    requires AllSound(lim, c, from) && lim(key).burst >= 0 && Harmless(lim(key))
    ensures Steady(lim(key), Met(lim, c, key), from, KeySteps(lim, c, events, key), until)
    decreases |events|
  {
    if events != [] {
      var e, rest := events[0], events[1..];
      OneEventLess(events, from, until);
      SoundLater(lim, c, from, e.now);
      AfterSound(lim, c, e);
      KeyStepsAreSteady(lim, After(lim, c, e), rest, key, e.now, until);
      EventIsStep(lim, c, e, key);
      var first, later := StepOf(c, e, key), KeySteps(lim, After(lim, c, e), rest, key);
      if first == [] {
        assert first + later == later;
        SteadyLater(lim(key), Met(lim, c, key), from, e.now, later, until);
      } else {
        if first[0].Renew? {
          RenewedWhenFull(lim, c, e, key);
        }
        assert (first + later)[1..] == later && (first + later)[0] == first[0];
      }
    }
  }

  ghost predicate Until(events: seq<Event>, until: nat) {
    events != [] ==> events[|events| - 1].now <= until
  }

  lemma AfterSound(lim: LimitsOf, c: Cache, e: Event)
    requires AllSound(lim, c, e.now)
    ensures AllSound(lim, After(lim, c, e), e.now)
  {
    match e
    case Request(key, now) => ServeSound(lim, c, key, now);
    case SweepAt(now) =>
      forall k | k in Sweep(c, now) ensures Sound(lim(k), c[k], now) {}
  }

  lemma {:induction false} LastIsLatest(from: nat, events: seq<Event>)
    requires Timely(from, events) && events != []
    ensures from <= events[0].now <= events[|events| - 1].now
    decreases |events|
  {
    if |events| > 1 {
      LastIsLatest(events[0].now, events[1..]);
    }
  }

  lemma {:induction false} FinalSound(lim: LimitsOf, c: Cache, events: seq<Event>, from: nat) returns (until: nat)
    requires Timely(from, events) && AllSound(lim, c, from)
    ensures AllSound(lim, Final(lim, c, events), until)
      && until == if events == [] then from else events[|events| - 1].now
    decreases |events|
  {
    if events == [] {
      until := from;
    } else {
      SoundLater(lim, c, from, events[0].now);
      AfterSound(lim, c, events[0]);
      until := FinalSound(lim, After(lim, c, events[0]), events[1..], events[0].now);
    }
  }

  lemma MetIsOk(lim: LimitsOf, c: Cache, key: string, t: nat)
    requires AllSound(lim, c, t) && lim(key).burst >= 0
    ensures BucketOk(lim(key), Met(lim, c, key), t)
  {
    assert key in c ==> Sound(lim(key), c[key], t);
  }

  lemma {:induction false} BucketWindow(l: Limits, b: Bucket, from: nat, steps: seq<KeyStep>, until: nat)
    requires BucketOk(l, b, from) && Steady(l, b, from, steps, until)
    ensures from <= until && Taken(l, b, steps) as real <= l.burst as real + InTime(l.limit, until - from)
  {
    TokensBoundTaken(l, b, from, steps, until);
    EarnedInTime(l.limit, until - from);
  }

  /** In any window of any run, sweeps included, a key is admitted at most burst + rate * length times. */
  lemma {:induction false} WindowBound(lim: LimitsOf, before: seq<Event>, window: seq<Event>, key: string, from: nat,
    until: nat)
    requires Timely(0, before) && Timely(from, window) && from <= until
    requires Until(before, from) && Until(window, until)
    requires lim(key).burst >= 0 && Harmless(lim(key))
    ensures Admitted(lim, Final(lim, map[], before), window, key) as real
      <= lim(key).burst as real + InTime(lim(key).limit, until - from)
  {
    var c := Final(lim, map[], before);
    var t := FinalSound(lim, map[], before, 0);
    SoundLater(lim, c, t, from);
    MetIsOk(lim, c, key, from);
    KeyStepsAreSteady(lim, c, window, key, from, until);
    KeyStepsInOrder(lim, c, window, key, from, until);
    BucketWindow(lim(key), Met(lim, c, key), from, KeySteps(lim, c, window, key), until);
  }

  // ----- the same for keys whose eviction can be noticed -----

  function Renewals(steps: seq<KeyStep>): nat {
    if steps == [] then 0 else (if steps[0].Renew? then 1 else 0) + Renewals(steps[1..])
  }

  lemma AnyStepTakes(l: Limits, b: Bucket, s: KeyStep)
    requires BucketOk(l, b, s.now)
    ensures BucketOk(l, NextBucket(l, b, s), s.now)
    ensures var b' := NextBucket(l, b, s);
      Level(b', s.now) + (if s.Take? && Allow(b, s.now).1 then 1.0 else 0.0)
      <= Level(b, s.now) + (if s.Renew? then l.burst as real else 0.0)
  {
    LevelBounds(l, b, s.now);
    if s.Take? {
      TakeCostsOne(b, s.now);
    }
  }

  /** n times a burst. */
  function Bursts(n: nat, burst: int): real {
    if n == 0 then 0.0 else burst as real + Bursts(n - 1, burst)
  }

  lemma {:induction false} BurstsIsProduct(n: nat, burst: int)
    ensures Bursts(n, burst) == n as real * burst as real
  {
    if n > 0 {
      BurstsIsProduct(n - 1, burst);
      OneTimesMore(n - 1, burst as real);
    }
  }

  lemma OneTimesMore(k: nat, x: real)
    ensures (1 + k) as real * x == x + k as real * x
  {
    assert (1 + k) as real == 1.0 + k as real;
  }

  /** Every renewal puts in at most a burst. */
  lemma {:induction false} RenewalsBoundTaken(l: Limits, b: Bucket, from: nat, steps: seq<KeyStep>, until: nat)
    requires BucketOk(l, b, from) && InOrder(from, steps, until)
    ensures from <= until
    ensures Taken(l, b, steps) as real
      <= Level(b, from) + Earned(l.limit, until - from) + Bursts(Renewals(steps), l.burst)
    decreases |steps|
  {
    LevelBounds(l, b, from);
    if steps != [] {
      var s := steps[0];
      LevelGrows(b, from, s.now);
      AnyStepTakes(l, b, s);
      RenewalsBoundTaken(l, NextBucket(l, b, s), s.now, steps[1..], until);
      EarnedAdds(l.limit, s.now - from, until - s.now);
    }
  }

  lemma {:induction false} WindowOfSteps(l: Limits, b: Bucket, from: nat, steps: seq<KeyStep>, until: nat)
    requires BucketOk(l, b, from) && InOrder(from, steps, until)
    ensures from <= until
    ensures Taken(l, b, steps) as real <= Bursts(1 + Renewals(steps), l.burst) + InTime(l.limit, until - from)
  {
    RenewalsBoundTaken(l, b, from, steps, until);
    LevelBounds(l, b, from);
    EarnedInTime(l.limit, until - from);
  }

  /** How often a key is evicted in a run. */
  function Evictions(lim: LimitsOf, c: Cache, events: seq<Event>, key: string): nat
    decreases |events|
  {
    if events == [] then 0
    else
      var now := events[0].SweepAt? && key in c && key !in After(lim, c, events[0]);
      (if now then 1 else 0) + Evictions(lim, After(lim, c, events[0]), events[1..], key)
  }

  lemma {:induction false} RenewalsAreEvictions(lim: LimitsOf, c: Cache, events: seq<Event>, key: string)
    ensures Renewals(KeySteps(lim, c, events, key)) == Evictions(lim, c, events, key)
    decreases |events|
  {
    if events != [] {
      var e := events[0];
      RenewalsAreEvictions(lim, After(lim, c, e), events[1..], key);
      var first, later := StepOf(c, e, key), KeySteps(lim, After(lim, c, e), events[1..], key);
      if first == [] {
        assert first + later == later;
      } else {
        assert (first + later)[1..] == later && (first + later)[0] == first[0];
      }
    }
  }

  /** For every key, in any window of any run: one more burst for each time it is evicted in the window. */
  lemma {:induction false} WindowBoundWithEvictions(lim: LimitsOf, before: seq<Event>, window: seq<Event>, key: string,
    from: nat, until: nat)
    requires Timely(0, before) && Timely(from, window) && from <= until
    requires Until(before, from) && Until(window, until) && lim(key).burst >= 0
    ensures var c := Final(lim, map[], before);
      Admitted(lim, c, window, key) as real
      <= Bursts(1 + Evictions(lim, c, window, key), lim(key).burst) + InTime(lim(key).limit, until - from)
  {
    var c := Final(lim, map[], before);
    var t := FinalSound(lim, map[], before, 0);
    SoundLater(lim, c, t, from);
    MetIsOk(lim, c, key, from);
    KeyStepsInOrder(lim, c, window, key, from, until);
    WindowOfSteps(lim(key), Met(lim, c, key), from, KeySteps(lim, c, window, key), until);
    RenewalsAreEvictions(lim, c, window, key);
  }

  // ----- keys do not affect each other -----

  function OnlyKey(events: seq<Event>, key: string): seq<Event> {
    if events == [] then []
    else
      var kept := events[0].SweepAt? || events[0].key == key;
      (if kept then [events[0]] else []) + OnlyKey(events[1..], key)
  }

  /** What one key is answered does not depend on the requests of the others. */
  lemma {:induction false} KeysAreIndependent(lim: LimitsOf, c: Cache, d: Cache, events: seq<Event>, key: string)
    requires (key in c <==> key in d) && (key in c ==> c[key] == d[key])
    ensures KeyDecisions(lim, c, events, key) == KeyDecisions(lim, d, OnlyKey(events, key), key)
    decreases |events|
  {
    if events != [] {
      var e := events[0];
      if e.SweepAt? || e.key == key {
        assert OnlyKey(events, key)[1..] == OnlyKey(events[1..], key);
        KeysAreIndependent(lim, After(lim, c, e), After(lim, d, e), events[1..], key);
      } else {
        assert OnlyKey(events, key) == OnlyKey(events[1..], key);
        KeysAreIndependent(lim, After(lim, c, e), d, events[1..], key);
      }
    }
  }
}
