/** The per-key rate limiter: one token bucket per key, forgotten once the key has been idle for the ttl. */
module RateLimiter {
  import opened TokenBucket

  datatype Decision = Admit | Deny(delay: real)

  datatype Config = Config(limit: real, burst: int, ttl: real)

  /** NewRateLimiter's defaults: a burst that is not positive becomes the per-minute allowance. */
  function NewConfig(perMinute: int, burst: int, ttl: real): Config {
    Config(perMinute as real / 60.0, if burst <= 0 then perMinute else burst, ttl)
  }

  /** What a key's visitor holds. */
  datatype Entry = Entry(bucket: Bucket, lastSeen: real)

  type Entries = map<string, Entry>

  /** Costs below one count as one. */
  function Cost(n: int): int {
    if n < 1 then 1 else n
  }

  /** The bucket after a charge, and the answer. */
  function ChargeBucket(c: Config, b: Bucket, n: int, now: real): (Bucket, Decision) {
    var level := Level(b, c.limit, c.burst, now);
    if n > c.burst then (b, Deny(60.0))
    else if level < n as real then (Bucket(level, now), Deny(DelayFor(c.limit, n as real - level)))
    else (Bucket(level - n as real, now), Admit)
  }

  function Fresh(c: Config, now: real): Entry {
    Entry(Bucket(c.burst as real, now), now)
  }

  function Cleaned(c: Config, m: Entries, now: real): Entries {
    map k | k in m && !(now - m[k].lastSeen > c.ttl) :: m[k]
  }

  /** A charge; `evict` is false for a limiter that keeps every visitor. */
  function AfterCharge(c: Config, evict: bool, m: Entries, key: string, n: int, now: real): (Entries, Decision) {
    var entry := if key in m then m[key] else Fresh(c, now);
    var seen := m[key := entry.(lastSeen := now)];
    var kept := if evict && c.ttl > 0.0 then Cleaned(c, seen, now) else seen;
    var (bucket, decision) := ChargeBucket(c, entry.bucket, Cost(n), now);
    (kept[key := Entry(bucket, now)], decision)
  }

  function Ceil(x: real): int {
    -((-x).Floor)
  }

  function RetryAfter(delay: real): int {
    if Ceil(delay) < 1 then 1 else Ceil(delay)
  }

  class Visitor {
    const limiter: Limiter
    var lastSeen: real

    constructor (limiter: Limiter, now: real)
      ensures this.limiter == limiter && lastSeen == now
    {
      this.limiter := limiter;
      lastSeen := now;
    }
  }

  class RateLimiter {
    const config: Config
    var byKey: map<string, Visitor>
    ghost var repr: set<object>

    /** Every visitor and its limiter belong to one key and carry the configured rate. */
    ghost predicate Valid()
      reads this, repr
    {
      (forall k :: k in byKey ==> byKey[k] in repr && byKey[k].limiter in repr) &&
      (forall k :: k in byKey ==> byKey[k].limiter.limit == config.limit && byKey[k].limiter.burst == config.burst) &&
      (forall j, k :: j in byKey && k in byKey && j != k ==> byKey[j] != byKey[k] && byKey[j].limiter != byKey[k].limiter)
    }

    ghost function Entries(): Entries
      requires Valid()
      reads this, repr
    {
      map k | k in byKey :: Entry(byKey[k].limiter.State(), byKey[k].lastSeen)
    }

    constructor (perMinute: int, burst: int, ttl: real)
      ensures Valid() && fresh(repr) && config == NewConfig(perMinute, burst, ttl) && Entries() == map[]
    {
      config := NewConfig(perMinute, burst, ttl);
      byKey := map[];
      repr := {};
    }

    /** The key's visitor, made on first sight, with its last-seen time set to now. */
    method Visit(key: string, now: real) returns (v: Visitor)
      requires Valid()
      modifies this, repr
      ensures Valid() && fresh(repr - old(repr)) && key in byKey && byKey[key] == v
      ensures Entries() == var before := old(Entries());
              before[key := (if key in before then before[key] else Fresh(config, now)).(lastSeen := now)]
    {
      if key in byKey {
        v := byKey[key];
        v.lastSeen := now;
      } else {
        var limiter := new Limiter(config.limit, config.burst, now);
        v := new Visitor(limiter, now);
        byKey := byKey[key := v];
        repr := repr + {limiter, v};
      }
    }

    /** Takes the cost from a bucket, or leaves it as it stood. */
    method Take(limiter: Limiter, cost: int, now: real) returns (delay: real, ok: bool)
      requires limiter.limit == config.limit && limiter.burst == config.burst && 1 <= cost
      modifies limiter
      ensures var (bucket, decision) := ChargeBucket(config, old(limiter.State()), cost, now);
              limiter.State() == bucket && ok == decision.Admit? && delay == if ok then 0.0 else decision.delay
    {
      var granted, wait := limiter.ReserveN(now, cost);
      if !granted {
        return 60.0, false;
      }
      if wait > 0.0 {
        limiter.CancelAt(now, cost);
        return wait, false;
      }
      return 0.0, true;
    }

    /** Takes the cost from the bucket of a key that is being visited, or leaves the bucket as it stood. */
    method Reserve(key: string, cost: int, now: real) returns (delay: real, ok: bool)
      requires Valid() && key in byKey && 1 <= cost
      modifies byKey[key].limiter
      ensures Valid()
      ensures var entry := old(Entries())[key];
              var (bucket, decision) := ChargeBucket(config, entry.bucket, cost, now);
              Entries() == old(Entries())[key := Entry(bucket, entry.lastSeen)]
              && ok == decision.Admit? && delay == if ok then 0.0 else decision.delay
    {
      delay, ok := Take(byKey[key].limiter, cost, now);
    }

    /** Answers whether n units may proceed for the key; a refusal says how long until they could. */
    method ChargeN(key: string, n: int, now: real) returns (delay: real, ok: bool)
      requires Valid()
      modifies this, repr
      ensures Valid() && fresh(repr - old(repr))
      ensures var (entries, decision) := AfterCharge(config, true, old(Entries()), key, n, now);
              Entries() == entries && ok == decision.Admit? && delay == if ok then 0.0 else decision.delay
    {
      var v := Visit(key, now);
      ghost var seen := Entries();
      if config.ttl > 0.0 {
        Cleanup(now);
      }
      assert key in Entries() && Entries()[key] == seen[key];
      delay, ok := Reserve(key, Cost(n), now);
    }

    /** ChargeN for a handler: a refusal carries the Retry-After value in whole seconds. */
    method Charge(key: string, n: int, now: real) returns (ok: bool, retryAfter: int)
      requires Valid()
      modifies this, repr
      ensures Valid() && fresh(repr - old(repr))
      ensures var (entries, decision) := AfterCharge(config, true, old(Entries()), key, n, now);
              Entries() == entries && ok == decision.Admit? && (!ok ==> retryAfter == RetryAfter(decision.delay))
    {
      var delay;
      delay, ok := ChargeN(key, n, now);
      retryAfter := Ceil(delay);
      if retryAfter < 1 {
        retryAfter := 1;
      }
    }

    /** Forgets every key that has been idle for longer than the ttl. */
    method Cleanup(now: real)
      requires Valid()
      modifies this`byKey
      ensures Valid() && Entries() == Cleaned(config, old(Entries()), now)
      ensures forall k :: k in byKey ==> k in old(byKey) && byKey[k] == old(byKey)[k]
    {
      DropIdle(now);
    }

    /** The loop of Cleanup, which needs nothing of the visitors but their last-seen times. */
    method DropIdle(now: real)
      modifies this`byKey
      ensures byKey.Keys <= old(byKey.Keys) && forall k :: k in byKey ==> byKey[k] == old(byKey)[k]
      ensures forall k :: k in old(byKey) ==> (k in byKey <==> !(now - old(byKey)[k].lastSeen > config.ttl))
    {
      var pending := byKey.Keys;
      while pending != {}
        invariant pending <= byKey.Keys
        invariant forall k :: k in byKey ==> k in old(byKey) && byKey[k] == old(byKey)[k]
        invariant forall k :: k in old(byKey) && k !in pending ==> (k in byKey <==> !(now - old(byKey)[k].lastSeen > config.ttl))
        decreases |pending|
      {
        var k :| k in pending;
        if now - byKey[k].lastSeen > config.ttl {
          byKey := byKey - {k};
        }
        pending := pending - {k};
      }
    }
  }
}
