/**
 How often a password can be tried when login attempts overlap.

 An attempt first reads the account and the clock; if the account is not locked then, the password is compared, and
 only later is the failure recorded, with a lock counted from the time read. At most `width` attempts that have got
 past the lock are in flight. All passwords are wrong, and every failure is recorded in the end.
 */
module LoginCalls {
  import opened Wrappers
  import opened AuthService
  import Lockout
  import Orders

  datatype Limits = Limits(max: int, duration: int, width: nat)

  /** `checks` are the times of all comparisons, `early` those of the ones recorded while the failures were below the limit. */
  datatype World = World(user: User, now: int, calls: map<int, int>, checks: seq<int>, early: seq<int>)

  datatype Step = Tick(delay: nat) | Read(c: int) | Record(c: int)

  /** The read finds the account open. */
  predicate CanRead(l: Limits, w: World, c: int) {
    c !in w.calls && |w.calls| < l.width && !IsLocked(w.user, w.now)
  }

  function Next(l: Limits, w: World, s: Step): World {
    match s
    case Tick(d) => w.(now := w.now + d)
    case Read(c) => if CanRead(l, w, c) then w.(calls := w.calls[c := w.now], checks := w.checks + [w.now]) else w
    case Record(c) => if c in w.calls then Recorded(l, w, c) else w
  }

  function Recorded(l: Limits, w: World, c: int): World
    requires c in w.calls
  {
    w.(user := FailedOnce(w.user, l.max, w.calls[c] + l.duration), calls := w.calls - {c},
       early := if w.user.failed + 1 < l.max then w.early + [w.calls[c]] else w.early)
  }

  function Run(l: Limits, w: World, steps: seq<Step>): World
    decreases |steps|
  {
    if steps == [] then w else Next(l, Run(l, w, steps[..|steps| - 1]), steps[|steps| - 1])
  }

  // ---------------------------------------------------------------- counting

  /** How many of the times lie from a up to b. */
  function Count(times: seq<int>, a: int, b: int): nat
    decreases |times|
  {
    if times == [] then 0 else Count(times[..|times| - 1], a, b) + if a <= times[|times| - 1] < b then 1 else 0
  }

  lemma CountNext(times: seq<int>, t: int, a: int, b: int)
    ensures Count(times + [t], a, b) == Count(times, a, b) + if a <= t < b then 1 else 0
  {
    assert (times + [t])[..|times|] == times;
  }

  lemma {:induction false} CountNone(times: seq<int>, a: int, b: int)
    requires forall i :: 0 <= i < |times| ==> !(a <= times[i] < b)
    ensures Count(times, a, b) == 0
    decreases |times|
  {
    if times != [] {
      CountNone(times[..|times| - 1], a, b);
    }
  }

  lemma {:induction false} CountAll(times: seq<int>, a: int, b: int)
    requires forall i :: 0 <= i < |times| ==> a <= times[i] < b
    ensures Count(times, a, b) == |times|
    decreases |times|
  {
    if times != [] {
      CountAll(times[..|times| - 1], a, b);
    }
  }

  lemma {:induction false} CountSplit(times: seq<int>, a: int, b: int, c: int)
    requires a <= b <= c
    ensures Count(times, a, c) == Count(times, a, b) + Count(times, b, c)
    decreases |times|
  {
    if times != [] {
      CountSplit(times[..|times| - 1], a, b, c);
    }
  }

  /** The attempts in flight that read from a up to b. */
  function Between(calls: map<int, int>, a: int, b: int): set<int> {
    set c | c in calls && a <= calls[c] < b
  }

  function Before(calls: map<int, int>, a: int): set<int> {
    set c | c in calls && calls[c] < a
  }

  lemma OneMore<T>(s: set<T>, x: T)
    requires x !in s
    ensures |s + {x}| == |s| + 1
  {
  }

  lemma BetweenInsert(calls: map<int, int>, c: int, t: int, a: int, b: int)
    requires c !in calls && a <= t < b
    ensures |Between(calls[c := t], a, b)| == |Between(calls, a, b)| + 1
  {
    assert Between(calls[c := t], a, b) == Between(calls, a, b) + {c};
    OneMore(Between(calls, a, b), c);
  }

  lemma BeforeInsert(calls: map<int, int>, c: int, t: int, a: int)
    requires c !in calls && a <= t
    ensures Before(calls[c := t], a) == Before(calls, a)
  {
  }

  lemma Disjoint(w: World, a: int, b: int)
    ensures |Before(w.calls, a)| + |Between(w.calls, a, b)| <= |w.calls|
  {
    var both := Before(w.calls, a) + Between(w.calls, a, b);
    assert |both| == |Before(w.calls, a)| + |Between(w.calls, a, b)|;
    Orders.Smaller(both, w.calls.Keys);
    assert |w.calls.Keys| == |w.calls|;
  }

  // ---------------------------------------------------------------- one lockout's time

  /** 1 + 2 + … + k. */
  function Triangle(k: int): nat {
    if k <= 0 then 0 else k + Triangle(k - 1)
  }

  /** No comparison before b. */
  predicate ClosedUntil(w: World, b: int) {
    w.user.lockedUntil.Some? && w.user.lockedUntil.value >= b
  }

  ghost predicate TimesOk(l: Limits, w: World) {
    |w.calls| <= l.width && (forall c :: c in w.calls ==> w.calls[c] <= w.now) && (forall i :: 0 <= i < |w.checks| ==> w.checks[i] <= w.now)
  }

  /** Comparisons from a up to b, apart from those that were recorded below the limit. */
  function Late(w: World, a: int, b: int): int {
    Count(w.checks, a, b) - Count(w.early, a, b)
  }

  /**
   * Within one lockout's time from a: while the lock ends too soon, what has been compared is in flight or made room for by
   * an attempt from before; a recorded one closes the time until such an attempt, recorded later, cuts the lock.
   */
  ghost predicate WindowOk(l: Limits, w: World, a: int) {
    Late(w, a, a + l.duration) <=
      if ClosedUntil(w, a + l.duration) then Triangle(l.width - |Before(w.calls, a)|)
      else Triangle(l.width - |Before(w.calls, a)| - 1) + |Between(w.calls, a, a + l.duration)|
  }

  lemma TriangleGrows(k: int)
    ensures Triangle(k - 1) <= Triangle(k) && (k >= 0 ==> Triangle(k) == Triangle(k - 1) + k)
  {
  }

  lemma ReadTimes(l: Limits, w: World, c: int)
    requires TimesOk(l, w)
    ensures TimesOk(l, Next(l, w, Read(c)))
  {
    if Next(l, w, Read(c)) != w {
      assert |w.calls[c := w.now]| == |w.calls| + 1;
    }
  }

  lemma RecordTimes(l: Limits, w: World, c: int)
    requires TimesOk(l, w)
    ensures TimesOk(l, Next(l, w, Record(c)))
  {
    if c in w.calls {
      assert (w.calls - {c}).Keys == w.calls.Keys - {c};
      Orders.Smaller((w.calls - {c}).Keys, w.calls.Keys);
      assert |(w.calls - {c}).Keys| == |w.calls - {c}| && |w.calls.Keys| == |w.calls|;
    }
  }

  lemma TimesStep(l: Limits, w: World, s: Step)
    requires TimesOk(l, w)
    ensures TimesOk(l, Next(l, w, s))
  {
    match s
    case Tick(_) =>
    case Read(c) => ReadTimes(l, w, c);
    case Record(c) => RecordTimes(l, w, c);
  }

  lemma ReadBefore(l: Limits, w: World, c: int, a: int)
    requires TimesOk(l, w) && l.duration > 0 && CanRead(l, w, c) && w.now < a
    ensures WindowOk(l, Next(l, w, Read(c)), a)
  {
    CountNone(w.checks + [w.now], a, a + l.duration);
  }

  lemma ReadWithin(l: Limits, w: World, c: int, a: int)
    requires l.duration > 0 && WindowOk(l, w, a) && CanRead(l, w, c) && a <= w.now < a + l.duration
    ensures WindowOk(l, Next(l, w, Read(c)), a)
  {
    CountNext(w.checks, w.now, a, a + l.duration);
    ReadSets(l, w, c, a);
  }

  lemma ReadSets(l: Limits, w: World, c: int, a: int)
    requires CanRead(l, w, c) && a <= w.now < a + l.duration
    ensures var v, b := Next(l, w, Read(c)), a + l.duration;
            Before(v.calls, a) == Before(w.calls, a) && |Between(v.calls, a, b)| == |Between(w.calls, a, b)| + 1
  {
    BeforeInsert(w.calls, c, w.now, a);
    BetweenInsert(w.calls, c, w.now, a, a + l.duration);
  }

  lemma ReadAfter(l: Limits, w: World, c: int, a: int)
    requires l.duration > 0 && WindowOk(l, w, a) && CanRead(l, w, c) && a + l.duration <= w.now
    ensures WindowOk(l, Next(l, w, Read(c)), a)
  {
    var v, b := Next(l, w, Read(c)), a + l.duration;
    CountNext(w.checks, w.now, a, b);
    assert Before(v.calls, a) == Before(w.calls, a) && Between(v.calls, a, b) == Between(w.calls, a, b);
  }

  lemma ReadWindow(l: Limits, w: World, c: int, a: int)
    requires TimesOk(l, w) && l.duration > 0 && WindowOk(l, w, a) && CanRead(l, w, c)
    ensures WindowOk(l, Next(l, w, Read(c)), a)
  {
    if w.now < a {
      ReadBefore(l, w, c, a);
    } else if w.now < a + l.duration {
      ReadWithin(l, w, c, a);
    } else {
      ReadAfter(l, w, c, a);
    }
  }

  lemma RecordEarlyWindow(l: Limits, w: World, c: int, a: int)
    requires TimesOk(l, w) && l.duration > 0 && WindowOk(l, w, a) && c in w.calls && w.user.failed + 1 < l.max
    ensures WindowOk(l, Recorded(l, w, c), a)
  {
    var v, b := Recorded(l, w, c), a + l.duration;
    CountNext(w.early, w.calls[c], a, b);
    RecordSets(l, w, c, a);
    Disjoint(w, a, b);
    TriangleGrows(l.width - |Before(w.calls, a)|);
    TriangleGrows(l.width - |Before(w.calls, a)| + 1);
  }

  lemma RecordLateWindow(l: Limits, w: World, c: int, a: int)
    requires TimesOk(l, w) && l.duration > 0 && WindowOk(l, w, a) && c in w.calls && w.user.failed + 1 >= l.max
    ensures WindowOk(l, Recorded(l, w, c), a)
  {
    RecordSets(l, w, c, a);
    Disjoint(w, a, a + l.duration);
    TriangleGrows(l.width - |Before(w.calls, a)|);
    TriangleGrows(l.width - |Before(w.calls, a)| + 1);
  }

  lemma RecordSets(l: Limits, w: World, c: int, a: int)
    requires c in w.calls && l.duration > 0
    ensures var v, b := Recorded(l, w, c), a + l.duration;
            && |Before(v.calls, a)| == |Before(w.calls, a)| - (if w.calls[c] < a then 1 else 0)
            && |Between(v.calls, a, b)| == |Between(w.calls, a, b)| - (if a <= w.calls[c] < b then 1 else 0)
  {
    var v, b := Recorded(l, w, c), a + l.duration;
    assert Before(v.calls, a) == Before(w.calls, a) - {c} && Between(v.calls, a, b) == Between(w.calls, a, b) - {c};
  }

  lemma WindowStep(l: Limits, w: World, s: Step, a: int)
    requires TimesOk(l, w) && l.duration > 0 && WindowOk(l, w, a)
    ensures WindowOk(l, Next(l, w, s), a)
  {
    match s
    case Tick(_) =>
      assert Before(Next(l, w, s).calls, a) == Before(w.calls, a) && Between(Next(l, w, s).calls, a, a + l.duration) == Between(w.calls, a, a + l.duration);
    case Read(c) => if CanRead(l, w, c) { ReadWindow(l, w, c, a); }
    case Record(c) =>
      if c in w.calls {
        if w.user.failed + 1 < l.max { RecordEarlyWindow(l, w, c, a); } else { RecordLateWindow(l, w, c, a); }
      }
  }

  /** Before any attempt on the account. */
  predicate Start(w: World) {
    w.calls == map[] && w.checks == [] && w.early == []
  }

  lemma {:induction false} WindowAlways(l: Limits, w: World, steps: seq<Step>, a: int)
    requires Start(w) && l.duration > 0
    ensures TimesOk(l, Run(l, w, steps)) && WindowOk(l, Run(l, w, steps), a)
    decreases |steps|
  {
    if steps == [] {
      assert Count(w.checks, a, a + l.duration) == 0;
    } else {
      var before := steps[..|steps| - 1];
      WindowAlways(l, w, before, a);
      TimesStep(l, Run(l, w, before), steps[|steps| - 1]);
      WindowStep(l, Run(l, w, before), steps[|steps| - 1], a);
    }
  }

  lemma {:induction false} TriangleMonotone(j: int, k: int)
    requires j <= k
    ensures Triangle(j) <= Triangle(k)
    decreases k - j
  {
    if j < k {
      TriangleMonotone(j, k - 1);
      TriangleGrows(k);
    }
  }

  /** Within one lockout's time at most 1 + … + width passwords are compared at or above the limit. */
  lemma LateIsBounded(l: Limits, w: World, steps: seq<Step>, a: int)
    requires Start(w) && l.duration > 0
    ensures Late(Run(l, w, steps), a, a + l.duration) <= Triangle(l.width)
  {
    WindowAlways(l, w, steps, a);
    var v := Run(l, w, steps);
    Disjoint(v, a, a + l.duration);
    TriangleGrows(l.width - |Before(v.calls, a)|);
    TriangleMonotone(l.width - |Before(v.calls, a)|, l.width);
  }

  // ---------------------------------------------------------------- any time

  /** Failures recorded below the limit are fewer than the limit. */
  predicate EarlyOk(l: Limits, w: World) {
    |w.early| <= w.user.failed && (|w.early| == 0 || |w.early| < l.max)
  }

  lemma {:induction false} EarlyAreFew(l: Limits, w: World, steps: seq<Step>)
    requires Start(w)
    ensures EarlyOk(l, Run(l, w, steps))
    decreases |steps|
  {
    if steps != [] {
      EarlyAreFew(l, w, steps[..|steps| - 1]);
    }
  }

  /** Every time that is counted, and that of every attempt in flight, lies from a up to b. */
  ghost predicate AllIn(w: World, a: int, b: int) {
    (forall i :: 0 <= i < |w.checks| ==> a <= w.checks[i] < b) && (forall i :: 0 <= i < |w.early| ==> a <= w.early[i] < b) &&
    (forall c :: c in w.calls ==> a <= w.calls[c] < b)
  }

  lemma AllInStep(l: Limits, w: World, s: Step, a: int, b: int)
    requires AllIn(w, a, b) && a <= w.now < b
    ensures AllIn(Next(l, w, s), a, b)
  {
  }

  lemma NowGrows(l: Limits, w: World, s: Step)
    ensures w.now <= Next(l, w, s).now
  {
  }

  lemma {:induction false} AllInAlways(l: Limits, w: World, steps: seq<Step>, b: int)
    requires Start(w) && Run(l, w, steps).now < b
    ensures AllIn(Run(l, w, steps), w.now, b) && w.now <= Run(l, w, steps).now
    decreases |steps|
  {
    if steps != [] {
      var v := Run(l, w, steps[..|steps| - 1]);
      NowGrows(l, v, steps[|steps| - 1]);
      AllInAlways(l, w, steps[..|steps| - 1], b);
      AllInStep(l, v, steps[|steps| - 1], w.now, b);
    }
  }

  lemma {:induction false} LateInWindows(l: Limits, w: World, steps: seq<Step>, a: int, k: nat)
    requires Start(w) && l.duration > 0
    ensures Late(Run(l, w, steps), a, a + k * l.duration) <= k * Triangle(l.width)
    decreases k
  {
    var v := Run(l, w, steps);
    if k == 0 {
      Empty(v.checks, a);
      Empty(v.early, a);
    } else {
      var m := a + (k - 1) * l.duration;
      LateInWindows(l, w, steps, a, k - 1);
      LateIsBounded(l, w, steps, m);
      OneWindowMore(v, a, m, l.duration);
      Products(k, l.duration, Triangle(l.width));
    }
  }

  lemma Empty(times: seq<int>, a: int)
    ensures Count(times, a, a) == 0
  {
    CountNone(times, a, a);
  }

  lemma OneWindowMore(v: World, a: int, m: int, d: int)
    requires a <= m && d > 0
    ensures Late(v, a, m + d) == Late(v, a, m) + Late(v, m, m + d)
  {
    CountSplit(v.checks, a, m, m + d);
    CountSplit(v.early, a, m, m + d);
  }

  lemma Products(k: nat, d: int, t: int)
    requires k > 0
    ensures (k - 1) * d + d == k * d && (k - 1) * t + t == k * t
    ensures d > 0 ==> (k - 1) * d >= 0
  {
  }

  /** The time between lies within so many lockouts. */
  lemma Covers(t: nat, d: int)
    requires d > 0
    ensures t < (t / d + 1) * d
  {
  }

  /**
   * With up to `width` attempts in flight, within a time T from any state of the account at most
   * max - 1 + (floor(T / lockout) + 1) * (1 + … + width) wrong passwords are compared; for one at a time that is max + floor(T / lockout).
   */
  lemma ChecksAreBounded(l: Limits, w: World, steps: seq<Step>, time: nat)
    requires Start(w) && l.max >= 1 && l.duration > 0 && Run(l, w, steps).now <= w.now + time
    ensures |Run(l, w, steps).checks| <= l.max - 1 + (time / l.duration + 1) * Triangle(l.width)
  {
    var k := time / l.duration + 1;
    Covers(time, l.duration);
    AllInAlways(l, w, steps, w.now + k * l.duration);
    LateInWindows(l, w, steps, w.now, k);
    EarlyAreFew(l, w, steps);
    AllCounted(Run(l, w, steps), w.now, w.now + k * l.duration);
  }

  lemma AllCounted(v: World, a: int, b: int)
    requires AllIn(v, a, b)
    ensures |v.checks| == |v.early| + Late(v, a, b)
  {
    CountAll(v.checks, a, b);
    CountAll(v.early, a, b);
  }

  /**
   * The bound on one lockout's time is met: a failure recorded after that of a later attempt cuts the lock short, and three
   * passwords are compared within one lockout by two attempts at a time.
   */
  lemma LockCutShort(u: User)
    requires u.failed == 0 && u.lockedUntil.None?
    ensures var l := Limits(1, 10, 2);
            var waiting := Next(l, Next(l, Next(l, World(u, 0, map[], [], []), Read(1)), Tick(1)), Read(2));
            var cut := Next(l, Next(l, Next(l, waiting, Record(2)), Record(1)), Tick(9));
            var v := Next(l, Next(l, cut, Read(3)), Read(4));
            Late(v, 1, 1 + l.duration) == 3 == Triangle(l.width)
  {
    var l := Limits(1, 10, 2);
    var waiting := Next(l, Next(l, Next(l, World(u, 0, map[], [], []), Read(1)), Tick(1)), Read(2));
    assert waiting == World(u, 1, map[1 := 0, 2 := 1], [0, 1], []);
    assert Next(l, waiting, Record(2)).calls == map[1 := 0];
    var cut := Next(l, Next(l, Next(l, waiting, Record(2)), Record(1)), Tick(9));
    assert cut == World(User(u.password, 2, Some(10)), 10, map[], [0, 1], []);
    var v := Next(l, Next(l, cut, Read(3)), Read(4));
    assert v.checks == [0, 1] + [10] + [10] && v.early == [];
    CountNext([], 0, 1, 11);
    CountNext([0], 1, 1, 11);
    CountNext([0, 1], 10, 1, 11);
    CountNext([0, 1] + [10], 10, 1, 11);
    assert [] + [0] == [0] && [0] + [1] == [0, 1];
  }

  /** One undisturbed attempt is one step of Lockout. */
  lemma AloneIsAttempt(l: Limits, w: World, c: int)
    requires w.calls == map[] && l.width >= 1
    ensures Next(l, Next(l, w, Read(c)), Record(c)).user == Lockout.NextUser(w.user, Lockout.Attempt(w.now, false), l.max, l.duration)
  {
  }
}
