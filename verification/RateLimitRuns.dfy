/** What the rate limiter guarantees over any sequence of charges whose times never decrease. */
module RateLimitRuns {
  import opened TokenBucket
  import opened RateLimiter
  import Induction

  datatype Call = Call(key: string, n: int, now: real)

  ghost predicate Ordered(calls: seq<Call>) {
    forall i, j :: 0 <= i < j < |calls| ==> calls[i].now <= calls[j].now
  }

  /** The visitors after all calls. */
  function After(c: Config, evict: bool, calls: seq<Call>): Entries
    decreases |calls|
  {
    if calls == [] then map[]
    else
      var last := calls[|calls| - 1];
      AfterCharge(c, evict, After(c, evict, calls[..|calls| - 1]), last.key, last.n, last.now).0
  }

  /** The answer to call i. */
  function Answer(c: Config, evict: bool, calls: seq<Call>, i: nat): Decision
    requires i < |calls|
  {
    AfterCharge(c, evict, After(c, evict, calls[..i]), calls[i].key, calls[i].n, calls[i].now).1
  }

  // ---------------------------------------------------------------- one bucket

  /** Buckets never hold more than the burst, and no debt is kept. */
  predicate Sound(c: Config, b: Bucket, now: real) {
    b.tokens <= c.burst as real && b.last <= now
    && (if 0 <= c.burst then 0.0 <= b.tokens else b.tokens == c.burst as real)
  }

  lemma ChargeKeepsSound(c: Config, b: Bucket, n: int, before: real, now: real)
    requires Sound(c, b, before) && before <= now
    ensures Sound(c, ChargeBucket(c, b, Cost(n), now).0, now) && Sound(c, Fresh(c, now).bucket, now)
  {
    RefillAdds(c.limit, now - b.last, 0.0);
  }

  lemma RefillAdds(limit: real, a: real, b: real)
    requires 0.0 <= a && 0.0 <= b
    ensures Refill(limit, a + b) == Refill(limit, a) + Refill(limit, b) && 0.0 <= Refill(limit, a)
  {
  }

  lemma RefillGrows(limit: real, a: real, b: real)
    requires a <= b
    ensures Refill(limit, a) <= Refill(limit, b)
  {
  }

  /** The level at a later time depends only on the level now. */
  lemma LevelLater(c: Config, b: Bucket, now: real, later: real)
    requires b.last <= now <= later
    ensures Level(b, c.limit, c.burst, later)
         == Min(Level(b, c.limit, c.burst, now) + Refill(c.limit, later - now), c.burst as real)
  {
    RefillAdds(c.limit, now - b.last, later - now);
    assert later - b.last == (now - b.last) + (later - now);
    RefillAdds(c.limit, later - now, 0.0);
  }

  /** A refused charge uses nothing up: at no later moment does the bucket hold less than without it. */
  lemma DeniedCostsNothing(c: Config, b: Bucket, n: int, now: real, later: real)
    requires b.last <= now <= later && ChargeBucket(c, b, Cost(n), now).1.Deny?
    ensures Level(ChargeBucket(c, b, Cost(n), now).0, c.limit, c.burst, later) == Level(b, c.limit, c.burst, later)
  {
    LevelLater(c, b, now, later);
    RefillAdds(c.limit, now - b.last, 0.0);
  }

  /**
   * A refusal within the burst tells the exact wait: left alone, the key is refused the same cost until
   * the delay has passed and granted it from then on; so Retry-After is enough, and a second less is not.
   */
  lemma RetryAfterIsExact(c: Config, b: Bucket, n: int, now: real, later: real)
    requires b.last <= now <= later && 0.0 < c.limit && Cost(n) <= c.burst
    requires ChargeBucket(c, b, Cost(n), now).1.Deny?
    ensures var (denied, answer) := ChargeBucket(c, b, Cost(n), now);
            && (ChargeBucket(c, denied, Cost(n), later).1.Admit? <==> now + answer.delay <= later)
            && answer.delay <= RetryAfter(answer.delay) as real
            && (2 <= RetryAfter(answer.delay) ==> RetryAfter(answer.delay) as real - 1.0 < answer.delay)
  {
    var missing := Cost(n) as real - Level(b, c.limit, c.burst, now);
    DeniedCostsNothing(c, b, n, now, later);
    LevelLater(c, b, now, later);
    WaitCoversMissing(c.limit, missing, later - now);
  }

  lemma WaitCoversMissing(limit: real, missing: real, wait: real)
    requires 0.0 < limit && 0.0 < missing && 0.0 <= wait
    ensures missing <= Refill(limit, wait) <==> missing / limit <= wait
  {
  }

  // ---------------------------------------------------------------- eviction

  /** The limiters for which forgetting idle keys cannot be noticed. */
  predicate Unnoticeable(c: Config) {
    c.ttl <= 0.0 || c.burst <= 0 || c.burst as real <= Refill(c.limit, c.ttl)
  }

  ghost predicate AllSound(c: Config, m: Entries, now: real) {
    forall k :: k in m ==> Sound(c, m[k].bucket, now) && m[k].bucket.last <= m[k].lastSeen <= now
  }

  /** The tokens a key could spend at time `now`; an unknown key has a full bucket. */
  function LevelOf(c: Config, m: Entries, k: string, now: real): real {
    Level(if k in m then m[k].bucket else Fresh(c, now).bucket, c.limit, c.burst, now)
  }

  function Grant(c: Config, level: real, cost: int): bool {
    cost <= c.burst && cost as real <= level
  }

  function Spend(c: Config, level: real, cost: int): real {
    if Grant(c, level, cost) then level - cost as real else level
  }

  /** A bucket that has been left alone for longer than the ttl is full again. */
  lemma IdleIsFull(c: Config, e: Entry, before: real, now: real)
    requires Unnoticeable(c) && 0.0 < c.ttl && c.ttl < now - e.lastSeen && before <= now
    requires Sound(c, e.bucket, before) && e.bucket.last <= e.lastSeen
    ensures Level(e.bucket, c.limit, c.burst, now) == c.burst as real
  {
    RefillGrows(c.limit, c.ttl, now - e.bucket.last);
    RefillAdds(c.limit, now - e.bucket.last, 0.0);
  }

  /** A charge is decided by the key's level alone, lowers only that level, and forgetting keys changes none. */
  lemma ChargeByLevel(c: Config, evict: bool, m: Entries, key: string, n: int, before: real, now: real)
    requires AllSound(c, m, before) && before <= now && (evict ==> Unnoticeable(c))
    ensures var (after, answer) := AfterCharge(c, evict, m, key, n, now);
            && AllSound(c, after, now)
            && answer == ChargeBucket(c, Bucket(LevelOf(c, m, key, now), now), Cost(n), now).1
            && (answer.Admit? <==> Grant(c, LevelOf(c, m, key, now), Cost(n)))
            && LevelOf(c, after, key, now) == Spend(c, LevelOf(c, m, key, now), Cost(n))
            && forall k :: k != key ==> LevelOf(c, after, k, now) == LevelOf(c, m, k, now)
  {
    var (after, answer) := AfterCharge(c, evict, m, key, n, now);
    var entry := if key in m then m[key] else Fresh(c, now);
    ChargeKeepsSound(c, entry.bucket, n, if key in m then before else now, now);
    forall k | k != key ensures LevelOf(c, after, k, now) == LevelOf(c, m, k, now) {
      if k in m && k !in after {
        IdleIsFull(c, m[k], before, now);
      }
    }
  }

  /** Levels that agree now agree later, if no charge comes in between. */
  lemma LevelOfLater(c: Config, m: Entries, k: string, now: real, later: real)
    requires AllSound(c, m, now) && now <= later
    ensures LevelOf(c, m, k, later) == Min(LevelOf(c, m, k, now) + Refill(c.limit, later - now), c.burst as real)
    ensures LevelOf(c, m, k, now) <= LevelOf(c, m, k, later)
  {
    if k in m { LevelLater(c, m[k].bucket, now, later); }
    RefillAdds(c.limit, later - now, 0.0);
  }

  /** After any ordered calls the visitors are sound at the last call's time. */
  lemma {:induction false} AfterIsSound(c: Config, evict: bool, calls: seq<Call>, now: real)
    requires Ordered(calls) && (evict ==> Unnoticeable(c)) && (calls != [] ==> calls[|calls| - 1].now <= now)
    ensures AllSound(c, After(c, evict, calls), now)
    decreases |calls|
  {
    if calls != [] {
      var init, last := calls[..|calls| - 1], calls[|calls| - 1];
      AfterIsSound(c, evict, init, last.now);
      ChargeByLevel(c, evict, After(c, evict, init), last.key, last.n, last.now, last.now);
    }
  }

  /** The limiter that forgets idle keys has, for every key, the level of one that never forgets. */
  lemma {:induction false} SameLevels(c: Config, calls: seq<Call>, k: string, now: real)
    requires Unnoticeable(c) && Ordered(calls) && (calls != [] ==> calls[|calls| - 1].now <= now)
    ensures LevelOf(c, After(c, true, calls), k, now) == LevelOf(c, After(c, false, calls), k, now)
    decreases |calls|
  {
    if calls != [] {
      var init, last := calls[..|calls| - 1], calls[|calls| - 1];
      var m, all := After(c, true, init), After(c, false, init);
      AfterIsSound(c, true, init, last.now);
      AfterIsSound(c, false, init, last.now);
      SameLevels(c, init, k, last.now);
      ChargeByLevel(c, true, m, last.key, last.n, last.now, last.now);
      ChargeByLevel(c, false, all, last.key, last.n, last.now, last.now);
      LevelOfLater(c, After(c, true, calls), k, last.now, now);
      LevelOfLater(c, After(c, false, calls), k, last.now, now);
    }
  }

  lemma AnswerByLevel(c: Config, evict: bool, calls: seq<Call>, j: nat)
    requires (evict ==> Unnoticeable(c)) && Ordered(calls) && j < |calls|
    ensures Answer(c, evict, calls, j)
         == ChargeBucket(c, Bucket(LevelOf(c, After(c, evict, calls[..j]), calls[j].key, calls[j].now), calls[j].now), Cost(calls[j].n), calls[j].now).1
  {
    AfterIsSound(c, evict, calls[..j], calls[j].now);
    ChargeByLevel(c, evict, After(c, evict, calls[..j]), calls[j].key, calls[j].n, calls[j].now, calls[j].now);
  }

  /** The same call meets the same answer where its key's bucket is equally full. */
  lemma AnswersAgree(c: Config, evict: bool, calls: seq<Call>, j: nat, other: seq<Call>, k: nat)
    requires (evict ==> Unnoticeable(c)) && Ordered(calls) && Ordered(other) && j < |calls| && k < |other| && calls[j] == other[k]
    requires LevelOf(c, After(c, evict, calls[..j]), calls[j].key, calls[j].now) == LevelOf(c, After(c, evict, other[..k]), calls[j].key, calls[j].now)
    ensures Answer(c, evict, calls, j) == Answer(c, evict, other, k)
  {
    AnswerByLevel(c, evict, calls, j);
    AnswerByLevel(c, evict, other, k);
  }

  /** Every call is answered, delay included, as if no key had ever been forgotten. */
  lemma EvictionUnnoticed(c: Config, calls: seq<Call>, i: nat)
    requires Unnoticeable(c) && Ordered(calls) && i < |calls|
    ensures Answer(c, true, calls, i) == Answer(c, false, calls, i)
  {
    SameLevels(c, calls[..i], calls[i].key, calls[i].now);
    AnswerByLevel(c, true, calls, i);
    AnswerByLevel(c, false, calls, i);
  }

  // ---------------------------------------------------------------- a refused call leaves no trace

  ghost function Without(calls: seq<Call>, i: nat): seq<Call>
    requires i < |calls|
  {
    calls[..i] + calls[i + 1..]
  }

  lemma WithoutIsOrdered(calls: seq<Call>, i: nat)
    requires Ordered(calls) && i < |calls|
    ensures Ordered(Without(calls, i))
    ensures forall j :: i < j < |calls| ==> Without(calls, i)[j - 1] == calls[j]
    ensures Without(calls, i)[..i] == calls[..i]
  {
  }

  /** A key's level once the last of the calls is made and some time has passed, from the levels before that call. */
  function LevelThen(c: Config, before: real, charged: bool, last: Call, now: real): real {
    Min((if charged then Spend(c, before, Cost(last.n)) else before) + Refill(c.limit, now - last.now), c.burst as real)
  }

  lemma LastCall(c: Config, evict: bool, calls: seq<Call>, k: string, now: real)
    requires (evict ==> Unnoticeable(c)) && Ordered(calls) && calls != [] && calls[|calls| - 1].now <= now
    ensures var init, last := calls[..|calls| - 1], calls[|calls| - 1];
            LevelOf(c, After(c, evict, calls), k, now) == LevelThen(c, LevelOf(c, After(c, evict, init), k, last.now), k == last.key, last, now)
  {
    var init, last := calls[..|calls| - 1], calls[|calls| - 1];
    AfterIsSound(c, evict, init, last.now);
    ChargeByLevel(c, evict, After(c, evict, init), last.key, last.n, last.now, last.now);
    LevelOfLater(c, After(c, evict, calls), k, last.now, now);
  }

  /** A refused call leaves every level as it is. */
  lemma RefusedCall(c: Config, evict: bool, calls: seq<Call>, i: nat, k: string, now: real)
    requires (evict ==> Unnoticeable(c)) && Ordered(calls) && i < |calls| && calls[i].now <= now && Answer(c, evict, calls, i).Deny?
    ensures LevelOf(c, After(c, evict, calls[..i + 1]), k, now) == LevelOf(c, After(c, evict, calls[..i]), k, now)
  {
    var m, last := After(c, evict, calls[..i]), calls[i];
    assert calls[..i + 1][..i] == calls[..i];
    LastCall(c, evict, calls[..i + 1], k, now);
    AfterIsSound(c, evict, calls[..i], last.now);
    ChargeByLevel(c, evict, m, last.key, last.n, last.now, last.now);
    LevelOfLater(c, m, k, last.now, now);
  }

  lemma SameStep(c: Config, evict: bool, a: seq<Call>, b: seq<Call>, last: Call, k: string, now: real)
    requires (evict ==> Unnoticeable(c)) && Ordered(a + [last]) && Ordered(b + [last]) && last.now <= now
    requires LevelOf(c, After(c, evict, a), k, last.now) == LevelOf(c, After(c, evict, b), k, last.now)
    ensures LevelOf(c, After(c, evict, a + [last]), k, now) == LevelOf(c, After(c, evict, b + [last]), k, now)
  {
    assert (a + [last])[..|a|] == a && (b + [last])[..|b|] == b;
    LastCall(c, evict, a + [last], k, now);
    LastCall(c, evict, b + [last], k, now);
  }

  /** After n of the calls, every key has the level it would have without call i. */
  ghost predicate SameWithout(c: Config, evict: bool, calls: seq<Call>, i: nat, n: nat)
    requires i < n <= |calls|
  {
    forall k, now: real :: calls[n - 1].now <= now ==>
      LevelOf(c, After(c, evict, calls[..n]), k, now) == LevelOf(c, After(c, evict, Without(calls, i)[..n - 1]), k, now)
  }

  lemma SameWithoutStep(c: Config, evict: bool, calls: seq<Call>, i: nat, n: nat)
    requires (evict ==> Unnoticeable(c)) && Ordered(calls) && i < n < |calls| && SameWithout(c, evict, calls, i, n)
    ensures SameWithout(c, evict, calls, i, n + 1)
  {
    var less := Without(calls, i);
    WithoutIsOrdered(calls, i);
    var a, b, last := calls[..n], less[..n - 1], calls[n];
    assert calls[..n + 1] == a + [last] && less[..n] == b + [last];
    forall k, now: real | last.now <= now
      ensures LevelOf(c, After(c, evict, calls[..n + 1]), k, now) == LevelOf(c, After(c, evict, less[..n]), k, now)
    {
      SameStep(c, evict, a, b, last, k, now);
    }
  }

  lemma SameWithoutFirst(c: Config, evict: bool, calls: seq<Call>, i: nat)
    requires (evict ==> Unnoticeable(c)) && Ordered(calls) && i < |calls| && Answer(c, evict, calls, i).Deny?
    ensures SameWithout(c, evict, calls, i, i + 1)
  {
    WithoutIsOrdered(calls, i);
    forall k, now: real | calls[i].now <= now
      ensures LevelOf(c, After(c, evict, calls[..i + 1]), k, now) == LevelOf(c, After(c, evict, Without(calls, i)[..i]), k, now)
    {
      RefusedCall(c, evict, calls, i, k, now);
    }
  }

  lemma SameLevelsWithout(c: Config, evict: bool, calls: seq<Call>, i: nat, n: nat)
    requires (evict ==> Unnoticeable(c)) && Ordered(calls) && i < n <= |calls| && Answer(c, evict, calls, i).Deny?
    ensures SameWithout(c, evict, calls, i, n)
  {
    SameWithoutFirst(c, evict, calls, i);
    var holds := (m: nat) => i < m <= |calls| && SameWithout(c, evict, calls, i, m);
    forall m: nat | i + 1 <= m < n && holds(m) ensures holds(m + 1) {
      SameWithoutStep(c, evict, calls, i, m);
    }
    Induction.Persists(holds, i + 1, n);
  }

  lemma LaterAnswerSame(c: Config, evict: bool, calls: seq<Call>, i: nat, j: nat)
    requires (evict ==> Unnoticeable(c)) && Ordered(calls) && i < j < |calls| && Answer(c, evict, calls, i).Deny?
    ensures Answer(c, evict, calls, j) == Answer(c, evict, Without(calls, i), j - 1)
  {
    WithoutIsOrdered(calls, i);
    SameLevelsWithout(c, evict, calls, i, j);
    AnswersAgree(c, evict, calls, j, Without(calls, i), j - 1);
  }

  /** Leaving a refused call out of a run changes no other answer, delay included. */
  lemma DeniedLeavesNoTrace(c: Config, evict: bool, calls: seq<Call>, i: nat, j: nat)
    requires (evict ==> Unnoticeable(c)) && Ordered(calls) && i < |calls| && j < |calls| && j != i && Answer(c, evict, calls, i).Deny?
    ensures Answer(c, evict, calls, j) == Answer(c, evict, Without(calls, i), if j < i then j else j - 1)
  {
    if j < i {
      assert Without(calls, i)[..j] == calls[..j];
    } else {
      LaterAnswerSame(c, evict, calls, i, j);
    }
  }

  // ---------------------------------------------------------------- the admitted cost

  /** The cost admitted for key k by the calls i, ..., j-1. */
  function Admitted(c: Config, evict: bool, calls: seq<Call>, k: string, i: nat, j: nat): int
    requires i <= j <= |calls|
  {
    if i == j then 0
    else Admitted(c, evict, calls, k, i, j - 1) + Taken(c, evict, calls, k, j - 1)
  }

  /** What call j takes from key k's bucket. */
  function Taken(c: Config, evict: bool, calls: seq<Call>, k: string, j: nat): int
    requires j < |calls|
  {
    if calls[j].key == k && Answer(c, evict, calls, j).Admit? then Cost(calls[j].n) else 0
  }

  /** A call takes from its key's level what it is admitted, and nothing from any other. */
  lemma CallTakes(c: Config, evict: bool, calls: seq<Call>, k: string, j: nat)
    requires Ordered(calls) && (evict ==> Unnoticeable(c)) && j < |calls|
    ensures LevelOf(c, After(c, evict, calls[..j + 1]), k, calls[j].now) + Taken(c, evict, calls, k, j) as real
         == LevelOf(c, After(c, evict, calls[..j]), k, calls[j].now)
  {
    assert calls[..j + 1][..j] == calls[..j];
    AfterIsSound(c, evict, calls[..j], calls[j].now);
    ChargeByLevel(c, evict, After(c, evict, calls[..j]), calls[j].key, calls[j].n, calls[j].now, calls[j].now);
  }

  lemma LevelAtMostBurst(c: Config, evict: bool, calls: seq<Call>, k: string, now: real)
    requires Ordered(calls) && (evict ==> Unnoticeable(c)) && (calls != [] ==> calls[|calls| - 1].now <= now)
    ensures LevelOf(c, After(c, evict, calls), k, now) <= c.burst as real
  {
    AfterIsSound(c, evict, calls, now);
  }

  lemma LevelGrows(c: Config, evict: bool, calls: seq<Call>, k: string, prior: real, now: real)
    requires Ordered(calls) && (evict ==> Unnoticeable(c)) && (calls != [] ==> calls[|calls| - 1].now <= prior) && prior <= now
    ensures LevelOf(c, After(c, evict, calls), k, now) <= LevelOf(c, After(c, evict, calls), k, prior) + Refill(c.limit, now - prior)
  {
    AfterIsSound(c, evict, calls, prior);
    LevelOfLater(c, After(c, evict, calls), k, prior, now);
  }

  /** What has been admitted since call i and what is left never exceed the burst and the refill since then. */
  ghost predicate AdmittedWithin(c: Config, evict: bool, calls: seq<Call>, k: string, i: nat, j: nat)
    requires i < j <= |calls|
  {
    Admitted(c, evict, calls, k, i, j) as real + LevelOf(c, After(c, evict, calls[..j]), k, calls[j - 1].now)
      <= c.burst as real + Refill(c.limit, calls[j - 1].now - calls[i].now)
  }

  lemma AdmittedFirst(c: Config, evict: bool, calls: seq<Call>, k: string, i: nat)
    requires Ordered(calls) && (evict ==> Unnoticeable(c)) && i < |calls|
    ensures AdmittedWithin(c, evict, calls, k, i, i + 1)
  {
    CallTakes(c, evict, calls, k, i);
    LevelAtMostBurst(c, evict, calls[..i], k, calls[i].now);
    RefillAdds(c.limit, 0.0, 0.0);
  }

  lemma AdmittedNext(c: Config, evict: bool, calls: seq<Call>, k: string, i: nat, j: nat)
    requires Ordered(calls) && (evict ==> Unnoticeable(c)) && i < j < |calls| && AdmittedWithin(c, evict, calls, k, i, j)
    ensures AdmittedWithin(c, evict, calls, k, i, j + 1)
  {
    var prior, now := calls[j - 1].now, calls[j].now;
    CallTakes(c, evict, calls, k, j);
    LevelGrows(c, evict, calls[..j], k, prior, now);
    RefillAdds(c.limit, prior - calls[i].now, now - prior);
    assert now - calls[i].now == (prior - calls[i].now) + (now - prior);
    Sums(Admitted(c, evict, calls, k, i, j), Taken(c, evict, calls, k, j), LevelOf(c, After(c, evict, calls[..j + 1]), k, now),
         LevelOf(c, After(c, evict, calls[..j]), k, now), LevelOf(c, After(c, evict, calls[..j]), k, prior),
         c.burst as real + Refill(c.limit, prior - calls[i].now), Refill(c.limit, now - prior));
  }

  lemma Sums(admitted: int, taken: int, left: real, ready: real, earlier: real, bound: real, refill: real)
    requires left + taken as real == ready && ready <= earlier + refill && admitted as real + earlier <= bound
    ensures (admitted + taken) as real + left <= bound + refill
  {
  }

  lemma AdmittedAndLeft(c: Config, evict: bool, calls: seq<Call>, k: string, i: nat, j: nat)
    requires Ordered(calls) && (evict ==> Unnoticeable(c)) && i < j <= |calls|
    ensures AdmittedWithin(c, evict, calls, k, i, j)
  {
    AdmittedFirst(c, evict, calls, k, i);
    var holds := (m: nat) => i < m <= |calls| && AdmittedWithin(c, evict, calls, k, i, m);
    forall m: nat | i + 1 <= m < j && holds(m) ensures holds(m + 1) {
      AdmittedNext(c, evict, calls, k, i, m);
    }
    Induction.Persists(holds, i + 1, j);
  }

  /**
   * In any window of any run, a key is admitted at most the burst plus what refills during the window;
   * for a limiter that forgets idle keys, if that cannot be noticed.
   */
  lemma AdmittedIsBounded(c: Config, evict: bool, calls: seq<Call>, k: string, i: nat, j: nat)
    requires Ordered(calls) && (evict ==> Unnoticeable(c)) && i < j <= |calls|
    ensures Admitted(c, evict, calls, k, i, j) as real
         <= (if 0 < c.burst then c.burst as real else 0.0) + Refill(c.limit, calls[j - 1].now - calls[i].now)
  {
    AdmittedAndLeft(c, evict, calls, k, i, j);
    AfterIsSound(c, evict, calls[..j], calls[j - 1].now);
    var m := After(c, evict, calls[..j]);
    RefillAdds(c.limit, calls[j - 1].now - calls[i].now, 0.0);
    if c.burst < 0 {
      NothingAdmitted(c, evict, calls, k, i, j);
    } else if k in m {
      RefillAdds(c.limit, calls[j - 1].now - m[k].bucket.last, 0.0);
    }
  }

  lemma {:induction false} NothingAdmitted(c: Config, evict: bool, calls: seq<Call>, k: string, i: nat, j: nat)
    requires c.burst <= 0 && i <= j <= |calls|
    ensures Admitted(c, evict, calls, k, i, j) == 0
  {
    if i < j { NothingAdmitted(c, evict, calls, k, i, j - 1); }
  }

  // ---------------------------------------------------------------- when forgetting is noticed

  /** A moment after the ttl at which an emptied bucket has not refilled to the burst. */
  function NoticeTime(c: Config): real
    requires 0.0 < c.ttl && Refill(c.limit, c.ttl) < c.burst as real
  {
    if c.limit <= 0.0 then c.ttl + 1.0 else (c.ttl + c.burst as real / c.limit) / 2.0
  }

  /** Empty one key's bucket, let another key's charge clean up, and ask for the full burst again. */
  function NoticeCalls(c: Config): seq<Call>
    requires 0.0 < c.ttl && Refill(c.limit, c.ttl) < c.burst as real
  {
    [Call("a", c.burst, 0.0), Call("b", 1, NoticeTime(c)), Call("a", c.burst, NoticeTime(c))]
  }

  lemma NoticeTimeIsBetween(c: Config)
    requires 0.0 < c.ttl && 0 < c.burst && Refill(c.limit, c.ttl) < c.burst as real
    ensures c.ttl < NoticeTime(c) && Refill(c.limit, NoticeTime(c)) < c.burst as real
  {
    if 0.0 < c.limit {
      var full := c.burst as real / c.limit;
      assert c.ttl * c.limit < full * c.limit;
      assert c.ttl < full;
      assert NoticeTime(c) * c.limit < full * c.limit;
    }
  }

  lemma NoticedAnswers(c: Config)
    requires 0.0 < c.ttl && 0 < c.burst && Refill(c.limit, c.ttl) < c.burst as real
    ensures Answer(c, true, NoticeCalls(c), 2).Admit? && Answer(c, false, NoticeCalls(c), 2).Deny?
  {
    NoticeTimeIsBetween(c);
    var calls, t := NoticeCalls(c), NoticeTime(c);
    assert calls[..2][..1] == calls[..1] && calls[..1][..0] == [];
    var drained := Entry(Bucket(0.0, 0.0), 0.0);
    forall evict: bool ensures After(c, evict, calls[..1]) == map["a" := drained] {}
    assert "a" !in After(c, true, calls[..2]);
    assert "a" in After(c, false, calls[..2]) && After(c, false, calls[..2])["a"] == drained;
  }

  /** Forgetting idle keys goes unnoticed in every run if and only if the ttl refills the burst (or never applies). */
  lemma UnnoticedIff(c: Config)
    ensures Unnoticeable(c) <==>
            forall calls: seq<Call>, i: nat :: Ordered(calls) && i < |calls| ==>
              Answer(c, true, calls, i) == Answer(c, false, calls, i)
  {
    if Unnoticeable(c) {
      forall calls: seq<Call>, i: nat | Ordered(calls) && i < |calls|
        ensures Answer(c, true, calls, i) == Answer(c, false, calls, i)
      {
        EvictionUnnoticed(c, calls, i);
      }
    } else {
      NoticeTimeIsBetween(c);
      NoticedAnswers(c);
      assert Ordered(NoticeCalls(c)) && |NoticeCalls(c)| == 3;
    }
  }

  /** With a ttl of ten minutes, a limiter whose burst is at most ten minutes' allowance forgets unnoticed. */
  lemma WiredLimiters(perMinute: int, burst: int)
    requires 0 < perMinute && burst <= 10 * perMinute
    ensures Unnoticeable(NewConfig(perMinute, burst, 600.0))
  {
  }

  /** So the six limiters of the API, each with its allowance per minute and its burst, forget unnoticed. */
  lemma SixWiredLimiters()
    ensures forall w :: w in {(10, 10), (5, 5), (30, 30), (100, 100), (300, 300), (600, 300)} ==> Unnoticeable(NewConfig(w.0, w.1, 600.0))
  {
    forall w: (int, int) | w in {(10, 10), (5, 5), (30, 30), (100, 100), (300, 300), (600, 300)}
      ensures Unnoticeable(NewConfig(w.0, w.1, 600.0))
    {
      WiredLimiters(w.0, w.1);
    }
  }
}
