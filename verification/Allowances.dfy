/**
 What a limiter built from an allowance per minute and a burst grants: never more than the burst and a sixtieth of the
 allowance for every second, and one unit again as soon as the allowance has earned it.
 */
module Allowances {
  import opened TokenBucket
  import opened RateLimiter
  import opened RateLimitRuns

  /** A burst that is not given is the allowance of one minute. */
  function Capacity(perMinute: int, burst: int): int {
    if burst <= 0 then perMinute else burst
  }

  /** What the allowance earns: a sixtieth of it a second. */
  function Earned(perMinute: int, seconds: real): real {
    perMinute as real * seconds / 60.0
  }

  /** The limiter's visitors may be forgotten, if that cannot be noticed, or kept. */
  predicate MayEvict(perMinute: int, burst: int, ttl: real, evict: bool) {
    evict ==> ttl <= 0.0 || 60.0 * Capacity(perMinute, burst) as real <= perMinute as real * ttl
  }

  lemma ConfigIs(perMinute: int, burst: int, ttl: real, evict: bool, seconds: real)
    requires 0 < perMinute && 0.0 <= seconds && MayEvict(perMinute, burst, ttl, evict)
    ensures var c := NewConfig(perMinute, burst, ttl);
            && 0.0 < c.limit && c.burst == Capacity(perMinute, burst) && 0 < c.burst
            && Refill(c.limit, seconds) == Earned(perMinute, seconds)
            && (evict ==> Unnoticeable(c))
  {
  }

  lemma TimePasses(calls: seq<Call>, i: nat, j: nat)
    requires Ordered(calls) && i < j <= |calls|
    ensures calls[i].now <= calls[j - 1].now
  {
  }

  /** In any window of T seconds of any run, a key is admitted at most the burst and perMinute × T / 60 units. */
  lemma WindowIsBounded(perMinute: int, burst: int, ttl: real, evict: bool, calls: seq<Call>, k: string, i: nat, j: nat)
    requires 0 < perMinute && MayEvict(perMinute, burst, ttl, evict) && Ordered(calls) && i < j <= |calls|
    ensures Admitted(NewConfig(perMinute, burst, ttl), evict, calls, k, i, j) as real
         <= Capacity(perMinute, burst) as real + Earned(perMinute, calls[j - 1].now - calls[i].now)
  {
    var seconds := calls[j - 1].now - calls[i].now;
    TimePasses(calls, i, j);
    ConfigIs(perMinute, burst, ttl, evict, seconds);
    AdmittedIsBounded(NewConfig(perMinute, burst, ttl), evict, calls, k, i, j);
  }

  lemma AnswerAfterWait(c: Config, evict: bool, calls: seq<Call>, k: string, t: real, later: real)
    requires (evict ==> Unnoticeable(c)) && t <= later && Ordered(calls) && (calls != [] ==> calls[|calls| - 1].now <= t)
    requires LevelOf(c, After(c, evict, calls), k, t) == 0.0
    ensures Answer(c, evict, calls + [Call(k, 1, later)], |calls|)
         == ChargeBucket(c, Bucket(Min(Refill(c.limit, later - t), c.burst as real), later), 1, later).1
  {
    var all := calls + [Call(k, 1, later)];
    assert all[..|calls|] == calls;
    AfterIsSound(c, evict, calls, t);
    LevelOfLater(c, After(c, evict, calls), k, t, later);
    AnswerByLevel(c, evict, all, |calls|);
  }

  /** A key whose bucket is empty at time t, after any run, is next granted one unit exactly 60 / perMinute seconds later; before that it is told the rest of the wait. */
  lemma EmptyBucketRefills(perMinute: int, burst: int, ttl: real, evict: bool, calls: seq<Call>, k: string, t: real, later: real)
    requires 0 < perMinute && MayEvict(perMinute, burst, ttl, evict) && t <= later
    requires Ordered(calls) && (calls != [] ==> calls[|calls| - 1].now <= t)
    requires LevelOf(NewConfig(perMinute, burst, ttl), After(NewConfig(perMinute, burst, ttl), evict, calls), k, t) == 0.0
    ensures Answer(NewConfig(perMinute, burst, ttl), evict, calls + [Call(k, 1, later)], |calls|)
         == if t + 60.0 / perMinute as real <= later then Admit else Deny(t + 60.0 / perMinute as real - later)
  {
    ConfigIs(perMinute, burst, ttl, evict, later - t);
    AnswerAfterWait(NewConfig(perMinute, burst, ttl), evict, calls, k, t, later);
    UnitAfterWait(perMinute, burst, ttl, t, later);
  }

  lemma UnitAfterWait(perMinute: int, burst: int, ttl: real, t: real, later: real)
    requires 0 < perMinute && t <= later
    ensures var c := NewConfig(perMinute, burst, ttl);
            ChargeBucket(c, Bucket(Min(Refill(c.limit, later - t), c.burst as real), later), 1, later).1 ==
              (if t + 60.0 / perMinute as real <= later then Admit else Deny(t + 60.0 / perMinute as real - later))
  {
    var c := NewConfig(perMinute, burst, ttl);
    ConfigIs(perMinute, burst, ttl, false, later - t);
    OneUnit(perMinute, c.limit, Min(Refill(c.limit, later - t), c.burst as real), c.burst, later - t);
  }

  /** When a sixtieth of the allowance for each second makes one unit. */
  lemma OneUnit(perMinute: int, limit: real, level: real, burst: int, wait: real)
    requires 0 < perMinute && limit == perMinute as real / 60.0 && 0.0 <= wait && 1 <= burst
    requires level == Min(Refill(limit, wait), burst as real)
    ensures 1.0 <= level <==> 60.0 / perMinute as real <= wait
    ensures level < 1.0 ==> DelayFor(limit, 1.0 - level) == 60.0 / perMinute as real - wait
  {
    var p := perMinute as real;
    Sixty(p, wait);
    assert Refill(limit, wait) == p * wait / 60.0;
    if level < 1.0 {
      assert level == p * wait / 60.0;
      DelayIs(p, wait);
    }
  }

  lemma Sixty(p: real, wait: real)
    requires 0.0 < p
    ensures 1.0 <= p * wait / 60.0 <==> 60.0 / p <= wait
  {
    assert 60.0 / p * p == 60.0;
  }

  lemma DelayIs(p: real, wait: real)
    requires 0.0 < p
    ensures (1.0 - p * wait / 60.0) / (p / 60.0) == 60.0 / p - wait
  {
    var d := 60.0 / p;
    assert d * p == 60.0;
    assert (d - wait) * (p / 60.0) == 1.0 - p * wait / 60.0;
  }

  /** A key that has never been seen is granted the whole burst at once, and its bucket is then empty. */
  lemma BurstAtOnce(perMinute: int, burst: int, ttl: real, evict: bool, k: string, t: real)
    requires 0 < perMinute
    ensures var c, calls := NewConfig(perMinute, burst, ttl), [Call(k, Capacity(perMinute, burst), t)];
            Answer(c, evict, calls, 0) == Admit && LevelOf(c, After(c, evict, calls), k, t) == 0.0
  {
    var c, calls := NewConfig(perMinute, burst, ttl), [Call(k, Capacity(perMinute, burst), t)];
    assert calls[..0] == [];
  }

  /** So a fresh key that spends its burst gets its next unit 60 / perMinute seconds later, and not before. */
  lemma NextUnit(perMinute: int, burst: int, ttl: real, evict: bool, k: string, t: real, later: real)
    requires 0 < perMinute && MayEvict(perMinute, burst, ttl, evict) && t <= later
    ensures var c, calls := NewConfig(perMinute, burst, ttl), [Call(k, Capacity(perMinute, burst), t), Call(k, 1, later)];
            Answer(c, evict, calls, 0) == Admit && (Answer(c, evict, calls, 1) == Admit <==> t + 60.0 / perMinute as real <= later)
  {
    var first := [Call(k, Capacity(perMinute, burst), t)];
    BurstAtOnce(perMinute, burst, ttl, evict, k, t);
    EmptyBucketRefills(perMinute, burst, ttl, evict, first, k, t, later);
    assert first + [Call(k, 1, later)] == [Call(k, Capacity(perMinute, burst), t), Call(k, 1, later)];
    assert (first + [Call(k, 1, later)])[..0] == first[..0];
  }

  /** A cost below one is charged as one; one above the burst is refused whatever the bucket holds, and uses nothing up. */
  lemma CostsCharged(c: Config, evict: bool, m: Entries, k: string, n: int, now: real)
    ensures n < 1 ==> AfterCharge(c, evict, m, k, n, now) == AfterCharge(c, evict, m, k, 1, now)
    ensures n >= 1 && n > c.burst ==> AfterCharge(c, evict, m, k, n, now).1 == Deny(60.0)
  {
  }

  // ---------------------------------------------------------------- the limiters of the API

  /** Allowance per minute and burst of login, sign-up, administration, upload begin and completion, and signed URLs. */
  const WIRED: set<(int, int)> := {(10, 10), (5, 5), (30, 30), (100, 100), (300, 300), (600, 300)}

  const WIRED_TTL := 600.0

  lemma WiredMayEvict(l: (int, int))
    requires l in WIRED
    ensures 0 < l.0 && 0 < l.1 && MayEvict(l.0, l.1, WIRED_TTL, true)
  {
  }

  lemma WiredWindows(l: (int, int), calls: seq<Call>, k: string, i: nat, j: nat)
    requires l in WIRED && Ordered(calls) && i < j <= |calls|
    ensures Admitted(NewConfig(l.0, l.1, WIRED_TTL), true, calls, k, i, j) as real <= l.1 as real + Earned(l.0, calls[j - 1].now - calls[i].now)
  {
    WiredMayEvict(l);
    WindowIsBounded(l.0, l.1, WIRED_TTL, true, calls, k, i, j);
  }

  lemma WiredNextUnits(l: (int, int), k: string, t: real, later: real)
    requires l in WIRED && t <= later
    ensures var c, calls := NewConfig(l.0, l.1, WIRED_TTL), [Call(k, l.1, t), Call(k, 1, later)];
            Answer(c, true, calls, 0) == Admit && (Answer(c, true, calls, 1) == Admit <==> t + 60.0 / l.0 as real <= later)
  {
    WiredMayEvict(l);
    NextUnit(l.0, l.1, WIRED_TTL, true, k, t, later);
  }
}
