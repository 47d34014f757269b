/**
 The gap between listing an event and acting on it: exactly when the expiry job expires an event that is no longer
 due, and the purge job deletes one that is no longer to be purged.
 */
module ListedEvents {
  import opened Wrappers
  import opened EventRules
  import opened EventLifecycle
  import Induction

  ghost function After(plans: Plans, w: World, steps: seq<Step>, k: nat): World
    requires k <= |steps|
  {
    Run(plans, w, steps[..k])
  }

  lemma AfterNext(plans: Plans, w: World, steps: seq<Step>, k: nat)
    requires k < |steps|
    ensures After(plans, w, steps, k + 1) == Next(plans, After(plans, w, steps, k), steps[k])
  {
    assert steps[..k + 1][..k] == steps[..k];
  }

  /** The expiry has come by `at`. */
  predicate Lapsed(w: World, l: Listing) {
    l.id in w.events && w.events[l.id].expiresAt.Some? && w.events[l.id].expiresAt.value <= l.at
  }

  predicate StillPurgeable(w: World, l: Listing) {
    l.id in w.events && Purgeable(w.events[l.id], l.at)
  }

  /** A call of the owner that moves the event's expiry. */
  predicate MovesExpiry(s: Step, id: EventId) {
    (s.Update? || s.Extend? || s.Transition?) && s.id == id
  }

  // ---------------------------------------------------------------- one step

  lemma ListedLapsed(plans: Plans, w: World, s: Step, l: Listing)
    requires l !in w.due && l in Next(plans, w, s).due
    ensures Lapsed(Next(plans, w, s), l)
  {
  }

  /** A lapsed event that is there both before and after stops being lapsed only by a call of its owner. */
  lemma LapsedMoved(plans: Plans, w: World, s: Step, l: Listing)
    requires Lapsed(w, l) && l.id in Next(plans, w, s).events && !Lapsed(Next(plans, w, s), l)
    ensures MovesExpiry(s, l.id)
  {
  }

  lemma ListedPurgeable(plans: Plans, w: World, s: Step, l: Listing)
    requires l !in w.purgeable && l in Next(plans, w, s).purgeable
    ensures StillPurgeable(Next(plans, w, s), l)
  {
  }

  /** Only reactivating an event takes it from the purgeable ones. */
  lemma PurgeableMoved(plans: Plans, w: World, s: Step, l: Listing)
    requires StillPurgeable(w, l) && l.id in Next(plans, w, s).events && !StillPurgeable(Next(plans, w, s), l)
    ensures (s.Extend? || s.Transition?) && s.id == l.id && w.events[l.id].status == Expired && Next(plans, w, s).events[l.id].status == Active
  {
  }

  /** Ids are not used twice, so an event that has gone does not come back, and a listed event was there. */
  ghost predicate IdsOk(w: World) {
    w.events.Keys <= w.used && (forall l :: l in w.due || l in w.purgeable ==> l.id in w.used && l.at <= w.now)
  }

  lemma IdsStep(plans: Plans, w: World, s: Step, id: EventId)
    requires IdsOk(w)
    ensures IdsOk(Next(plans, w, s)) && w.used <= Next(plans, w, s).used
    ensures id in w.used && id in Next(plans, w, s).events ==> id in w.events
  {
  }

  lemma {:induction false} IdsAlways(plans: Plans, w: World, steps: seq<Step>, k: nat)
    requires Quiet(w) && k <= |steps|
    ensures IdsOk(After(plans, w, steps, k))
    decreases k
  {
    if k == 0 {
      assert After(plans, w, steps, 0) == w;
    } else {
      IdsAlways(plans, w, steps, k - 1);
      AfterNext(plans, w, steps, k - 1);
      IdsStep(plans, After(plans, w, steps, k - 1), steps[k - 1], 0);
    }
  }

  /** An event that is there after both steps was there all along. */
  lemma {:induction false} ThereBetween(plans: Plans, w: World, steps: seq<Step>, id: EventId, j: nat, k: nat)
    requires Quiet(w) && j <= k <= |steps| && id in After(plans, w, steps, j).events && id in After(plans, w, steps, k).events
    ensures forall m :: j <= m <= k ==> id in After(plans, w, steps, m).events
    decreases k
  {
    if j < k {
      UsedStays(plans, w, steps, id, j, k - 1);
      AfterNext(plans, w, steps, k - 1);
      IdsAlways(plans, w, steps, k - 1);
      IdsStep(plans, After(plans, w, steps, k - 1), steps[k - 1], id);
      ThereBetween(plans, w, steps, id, j, k - 1);
    }
  }

  lemma {:induction false} UsedStays(plans: Plans, w: World, steps: seq<Step>, id: EventId, j: nat, k: nat)
    requires Quiet(w) && j <= k <= |steps| && id in After(plans, w, steps, j).events
    ensures id in After(plans, w, steps, k).used
    decreases k
  {
    IdsAlways(plans, w, steps, k);
    if j < k {
      UsedStays(plans, w, steps, id, j, k - 1);
      AfterNext(plans, w, steps, k - 1);
      IdsAlways(plans, w, steps, k - 1);
      IdsStep(plans, After(plans, w, steps, k - 1), steps[k - 1], id);
    }
  }

  // ---------------------------------------------------------------- the expiry job

  /** What the owner is told by a call that may set an event's expiry. */
  function Answer(plans: Plans, w: World, s: Step): Result<Event, Error>
    requires s.Update? || s.Extend? || s.Transition?
  {
    match s
    case Update(id, u, expiresAt, clear) => AfterUpdate(w.events, id, u, expiresAt, clear, plans(u), w.now).1
    case Extend(id, u, days) => AfterExtend(w.events, id, u, days, plans(u), w.now).1
    case Transition(id, u, to) => AfterTransition(w.events, id, u, to, plans(u), w.now).1
  }

  /** A successful call of the owner that sets the event's expiry: an update of it, an extension, a reactivation. */
  predicate SetsExpiry(plans: Plans, w: World, s: Step, id: EventId) {
    MovesExpiry(s, id) && Answer(plans, w, s).Ok? &&
    (s.Extend? || (s.Update? && (s.expiresAt.Some? || s.clearExpiry)) || (s.Transition? && s.to == Active && w.events[id].status == Expired))
  }

  /** The expiry that the call sets lies after `at`, or there is none. */
  predicate SetsLater(plans: Plans, w: World, s: Step, l: Listing) {
    SetsExpiry(plans, w, s, l.id) && !(Answer(plans, w, s).value.expiresAt.Some? && Answer(plans, w, s).value.expiresAt.value <= l.at)
  }

  predicate SetsBack(plans: Plans, w: World, s: Step, l: Listing) {
    SetsExpiry(plans, w, s, l.id) && !SetsLater(plans, w, s, l)
  }

  /** After the event was listed, the last of the owner's calls that set its expiry, at step j, set it past the job's start. */
  ghost predicate MovedLater(plans: Plans, w: World, steps: seq<Step>, l: Listing, j: nat, k: nat) {
    j < k <= |steps| && l in After(plans, w, steps, j).due && SetsLater(plans, After(plans, w, steps, j), steps[j], l) &&
    forall m :: j < m < k ==> !SetsBack(plans, After(plans, w, steps, m), steps[m], l)
  }

  /** An event stops being lapsed exactly by a call that sets a later expiry, and is lapsed again exactly by one that sets it back. */
  lemma LapsedStep(plans: Plans, w: World, s: Step, l: Listing)
    requires l.id in w.events && l.id in Next(plans, w, s).events
    ensures Lapsed(w, l) && !Lapsed(Next(plans, w, s), l) ==> SetsLater(plans, w, s, l)
    ensures SetsLater(plans, w, s, l) ==> !Lapsed(Next(plans, w, s), l)
    ensures SetsBack(plans, w, s, l) ==> Lapsed(Next(plans, w, s), l)
    ensures !Lapsed(w, l) && Lapsed(Next(plans, w, s), l) ==> SetsBack(plans, w, s, l)
  {
  }

  lemma LaterNext(plans: Plans, w: World, steps: seq<Step>, l: Listing, j: nat, k: nat, m: nat)
    requires Quiet(w) && MovedLater(plans, w, steps, l, j, k) && j <= m < k
    requires l.id in After(plans, w, steps, m).events && l.id in After(plans, w, steps, m + 1).events
    requires m == j || !Lapsed(After(plans, w, steps, m), l)
    ensures !Lapsed(After(plans, w, steps, m + 1), l)
  {
    AfterNext(plans, w, steps, m);
    IdsAlways(plans, w, steps, m);
    LapsedStep(plans, After(plans, w, steps, m), steps[m], l);
  }

  lemma {:induction false} LaterStays(plans: Plans, w: World, steps: seq<Step>, l: Listing, j: nat, k: nat)
    requires Quiet(w) && MovedLater(plans, w, steps, l, j, k)
    requires l.id in After(plans, w, steps, j).events && l.id in After(plans, w, steps, k).events
    ensures !Lapsed(After(plans, w, steps, k), l)
    decreases k
  {
    ThereBetween(plans, w, steps, l.id, j, k);
    if j < k - 1 {
      LaterStays(plans, w, steps, l, j, k - 1);
    }
    LaterNext(plans, w, steps, l, j, k, k - 1);
  }

  lemma MovedLaterFrom(plans: Plans, w: World, steps: seq<Step>, l: Listing, j: nat, k: nat)
    requires Quiet(w) && MovedAway(plans, w, steps, l, j, k)
    ensures MovedLater(plans, w, steps, l, j, k)
  {
    forall m | j <= m < k
      ensures m == j ==> SetsLater(plans, After(plans, w, steps, j), steps[j], l)
      ensures j < m ==> !SetsBack(plans, After(plans, w, steps, m), steps[m], l)
    {
      AfterNext(plans, w, steps, m);
      IdsAlways(plans, w, steps, m);
      assert AwayAt(After(plans, w, steps, m + 1), l);
      LapsedStep(plans, After(plans, w, steps, m), steps[m], l);
    }
  }

  /** The owner moves the expiry at step j, and from then until step k the event stays listed and not lapsed. */
  ghost predicate MovedAway(plans: Plans, w: World, steps: seq<Step>, l: Listing, j: nat, k: nat) {
    j < k <= |steps| && MovesExpiry(steps[j], l.id) && Lapsed(After(plans, w, steps, j), l) && l in After(plans, w, steps, j).due &&
    forall m :: j < m <= k ==> AwayAt(After(plans, w, steps, m), l)
  }

  predicate AwayAt(w: World, l: Listing) {
    l in w.due && l.id in w.events && !Lapsed(w, l)
  }

  lemma StepBack(plans: Plans, w: World, s: Step, l: Listing)
    requires IdsOk(w) && AwayAt(Next(plans, w, s), l)
    ensures AwayAt(w, l) || (l in w.due && Lapsed(w, l) && MovesExpiry(s, l.id))
  {
    if l !in w.due {
      ListedLapsed(plans, w, s, l);
    }
    IdsStep(plans, w, s, l.id);
    if Lapsed(w, l) {
      LapsedMoved(plans, w, s, l);
    }
  }

  lemma NotAwayAtFirst(plans: Plans, w: World, steps: seq<Step>, l: Listing)
    requires Quiet(w)
    ensures !AwayAt(After(plans, w, steps, 0), l) && !KeptAt(After(plans, w, steps, 0), l)
  {
    assert After(plans, w, steps, 0) == w;
  }

  lemma AwayBefore(plans: Plans, w: World, steps: seq<Step>, l: Listing, k: nat)
    requires Quiet(w) && k < |steps| && AwayAt(After(plans, w, steps, k + 1), l)
    ensures AwayAt(After(plans, w, steps, k), l) || MovedAway(plans, w, steps, l, k, k + 1)
  {
    IdsAlways(plans, w, steps, k);
    AfterNext(plans, w, steps, k);
    StepBack(plans, After(plans, w, steps, k), steps[k], l);
  }

  lemma AwayLonger(plans: Plans, w: World, steps: seq<Step>, l: Listing, j: nat, k: nat)
    requires k < |steps| && MovedAway(plans, w, steps, l, j, k) && AwayAt(After(plans, w, steps, k + 1), l)
    ensures MovedAway(plans, w, steps, l, j, k + 1)
  {
  }

  lemma {:induction false} MoveFound(plans: Plans, w: World, steps: seq<Step>, l: Listing, k: nat) returns (j: nat)
    requires Quiet(w) && k <= |steps| && AwayAt(After(plans, w, steps, k), l)
    ensures MovedAway(plans, w, steps, l, j, k)
    decreases k
  {
    NotAwayAtFirst(plans, w, steps, l);
    AwayBefore(plans, w, steps, l, k - 1);
    if AwayAt(After(plans, w, steps, k - 1), l) {
      j := MoveFound(plans, w, steps, l, k - 1);
      AwayLonger(plans, w, steps, l, j, k - 1);
    } else {
      j := k - 1;
    }
  }

  /**
   * In any run, an event that the job marks is not due at the job's start if and only if, after it was listed, the last
   * of its owner's calls that set its expiry set it past that start. Otherwise it is due, then and now.
   */
  lemma ExpiredEarlyIff(plans: Plans, w: World, steps: seq<Step>, k: nat, l: Listing)
    requires Quiet(w) && k < |steps| && steps[k] == Step.MarkExpired(l.id, l.at) && l in After(plans, w, steps, k).due
    requires l.id in After(plans, w, steps, k).events && Live(After(plans, w, steps, k).events[l.id])
    ensures l.id in After(plans, w, steps, k + 1).events && After(plans, w, steps, k + 1).events[l.id].status == Expired
    ensures !Due(After(plans, w, steps, k).events[l.id], l.at) <==> exists j :: MovedLater(plans, w, steps, l, j, k)
    ensures Due(After(plans, w, steps, k).events[l.id], l.at) ==> Due(After(plans, w, steps, k).events[l.id], After(plans, w, steps, k).now)
  {
    AfterNext(plans, w, steps, k);
    IdsAlways(plans, w, steps, k);
    if !Due(After(plans, w, steps, k).events[l.id], l.at) {
      var j := MoveFound(plans, w, steps, l, k);
      MovedLaterFrom(plans, w, steps, l, j, k);
    }
    if j: nat :| MovedLater(plans, w, steps, l, j, k) {
      LaterStays(plans, w, steps, l, j, k);
    }
  }

  /** An owner who extends an event just after it was listed still finds it expired, with its expiry a month ahead. */
  lemma ExpiredEarlyHappens(plans: Plans, user: UserId)
    requires plans(user).retentionDays <= 0
    ensures var e := Event(user, Active, Some(0), None, None);
            var w := World(map[1 := e], {1}, 0, {}, {});
            var listed := Next(plans, w, ListDue(1, 0));
            var marked := Next(plans, Next(plans, listed, Extend(1, user, 30)), Step.MarkExpired(1, 0));
            && Quiet(w) && 1 in marked.events && marked.events[1].status == Expired && marked.events[1].expiresAt == Some(30 * DAY)
  {
  }

  // ---------------------------------------------------------------- the purge job

  /** A successful call that makes an expired event active again. */
  predicate Reactivates(plans: Plans, w: World, s: Step, id: EventId) {
    (s.Extend? || (s.Transition? && s.to == Active)) && s.id == id && id in w.events && w.events[id].status == Expired && Answer(plans, w, s).Ok?
  }

  /** The event is deleted no later than the cutoff, or marked as expired with an expiry no later than that. */
  predicate EndsAgain(w: World, s: Step, l: Listing) {
    (s.Delete? && s.id == l.id && Owned(w.events, l.id, s.user) && w.now <= l.at) ||
    (s.MarkExpired? && s.id == l.id && l.id in w.events && Listing(s.id, s.at) in w.due && Live(w.events[l.id]) && Lapsed(w, l))
  }

  /** After the event was listed its owner reactivated it at step j, and it has not ended again by the cutoff since. */
  ghost predicate ReactivatedSince(plans: Plans, w: World, steps: seq<Step>, l: Listing, j: nat, k: nat) {
    j < k <= |steps| && l in After(plans, w, steps, j).purgeable && Reactivates(plans, After(plans, w, steps, j), steps[j], l.id) &&
    forall m :: j < m < k ==> !EndsAgainAt(plans, w, steps, l, m)
  }

  ghost predicate EndsAgainAt(plans: Plans, w: World, steps: seq<Step>, l: Listing, m: nat)
    requires m < |steps|
  {
    l.id in After(plans, w, steps, m).events && EndsAgain(After(plans, w, steps, m), steps[m], l)
  }

  /** A purgeable event is spared exactly by a reactivation, and a spared one is purgeable again exactly when it ends again. */
  lemma PurgeableStep(plans: Plans, w: World, s: Step, l: Listing)
    requires l.id in w.events && l.id in Next(plans, w, s).events
    ensures StillPurgeable(w, l) && !StillPurgeable(Next(plans, w, s), l) ==> Reactivates(plans, w, s, l.id)
    ensures Reactivates(plans, w, s, l.id) ==> !StillPurgeable(Next(plans, w, s), l)
    ensures !StillPurgeable(w, l) ==> (StillPurgeable(Next(plans, w, s), l) <==> EndsAgain(w, s, l))
  {
  }

  ghost predicate Spared(plans: Plans, w: World, steps: seq<Step>, l: Listing, m: nat) {
    m <= |steps| && !StillPurgeable(After(plans, w, steps, m), l)
  }

  lemma SparedNext(plans: Plans, w: World, steps: seq<Step>, l: Listing, j: nat, k: nat, m: nat)
    requires ReactivatedSince(plans, w, steps, l, j, k) && j <= m < k
    requires l.id in After(plans, w, steps, m).events && l.id in After(plans, w, steps, m + 1).events
    requires m == j || Spared(plans, w, steps, l, m)
    ensures Spared(plans, w, steps, l, m + 1)
  {
    AfterNext(plans, w, steps, m);
    PurgeableStep(plans, After(plans, w, steps, m), steps[m], l);
    assert j < m ==> !EndsAgainAt(plans, w, steps, l, m);
  }

  lemma SparedUntil(plans: Plans, w: World, steps: seq<Step>, l: Listing, j: nat, k: nat)
    requires j <= k && Spared(plans, w, steps, l, j)
    requires forall m :: j <= m < k && Spared(plans, w, steps, l, m) ==> Spared(plans, w, steps, l, m + 1)
    ensures Spared(plans, w, steps, l, k)
  {
    var spared := (m: nat) => Spared(plans, w, steps, l, m);
    Induction.Persists(spared, j, k);
  }

  lemma SparedStays(plans: Plans, w: World, steps: seq<Step>, l: Listing, j: nat, k: nat)
    requires Quiet(w) && ReactivatedSince(plans, w, steps, l, j, k) && l.id in After(plans, w, steps, k).events
    ensures !StillPurgeable(After(plans, w, steps, k), l)
  {
    ThereBetween(plans, w, steps, l.id, j, k);
    SparedNext(plans, w, steps, l, j, k, j);
    forall m: nat | j + 1 <= m < k && Spared(plans, w, steps, l, m) ensures Spared(plans, w, steps, l, m + 1) {
      SparedNext(plans, w, steps, l, j, k, m);
    }
    SparedUntil(plans, w, steps, l, j + 1, k);
  }

  lemma ReactivatedSinceFrom(plans: Plans, w: World, steps: seq<Step>, l: Listing, j: nat, k: nat)
    requires Quiet(w) && Reactivated(plans, w, steps, l, j, k)
    ensures ReactivatedSince(plans, w, steps, l, j, k)
  {
    AfterNext(plans, w, steps, j);
    assert KeptAt(After(plans, w, steps, j + 1), l);
    PurgeableStep(plans, After(plans, w, steps, j), steps[j], l);
    forall m | j < m < k ensures !EndsAgainAt(plans, w, steps, l, m) {
      AfterNext(plans, w, steps, m);
      assert KeptAt(After(plans, w, steps, m + 1), l);
      if l.id in After(plans, w, steps, m).events {
        PurgeableStep(plans, After(plans, w, steps, m), steps[m], l);
      }
    }
  }

  /** The owner reactivates the event at step j, and from then until step k it stays listed and not purgeable. */
  ghost predicate Reactivated(plans: Plans, w: World, steps: seq<Step>, l: Listing, j: nat, k: nat) {
    j < k <= |steps| && (steps[j].Extend? || steps[j].Transition?) && steps[j].id == l.id &&
    StillPurgeable(After(plans, w, steps, j), l) && l in After(plans, w, steps, j).purgeable &&
    forall m :: j < m <= k ==> KeptAt(After(plans, w, steps, m), l)
  }

  predicate KeptAt(w: World, l: Listing) {
    l in w.purgeable && l.id in w.events && !StillPurgeable(w, l)
  }

  lemma PurgeStepBack(plans: Plans, w: World, s: Step, l: Listing)
    requires IdsOk(w) && KeptAt(Next(plans, w, s), l)
    ensures KeptAt(w, l) || (l in w.purgeable && StillPurgeable(w, l) && (s.Extend? || s.Transition?) && s.id == l.id)
  {
    if l !in w.purgeable {
      ListedPurgeable(plans, w, s, l);
    }
    IdsStep(plans, w, s, l.id);
    if StillPurgeable(w, l) {
      PurgeableMoved(plans, w, s, l);
    }
  }

  lemma KeptBefore(plans: Plans, w: World, steps: seq<Step>, l: Listing, k: nat)
    requires Quiet(w) && k < |steps| && KeptAt(After(plans, w, steps, k + 1), l)
    ensures KeptAt(After(plans, w, steps, k), l) || Reactivated(plans, w, steps, l, k, k + 1)
  {
    IdsAlways(plans, w, steps, k);
    AfterNext(plans, w, steps, k);
    PurgeStepBack(plans, After(plans, w, steps, k), steps[k], l);
  }

  lemma KeptLonger(plans: Plans, w: World, steps: seq<Step>, l: Listing, j: nat, k: nat)
    requires k < |steps| && Reactivated(plans, w, steps, l, j, k) && KeptAt(After(plans, w, steps, k + 1), l)
    ensures Reactivated(plans, w, steps, l, j, k + 1)
  {
  }

  lemma {:induction false} ReactivationFound(plans: Plans, w: World, steps: seq<Step>, l: Listing, k: nat) returns (j: nat)
    requires Quiet(w) && k <= |steps| && KeptAt(After(plans, w, steps, k), l)
    ensures Reactivated(plans, w, steps, l, j, k)
    decreases k
  {
    NotAwayAtFirst(plans, w, steps, l);
    KeptBefore(plans, w, steps, l, k - 1);
    if KeptAt(After(plans, w, steps, k - 1), l) {
      j := ReactivationFound(plans, w, steps, l, k - 1);
      KeptLonger(plans, w, steps, l, j, k - 1);
    } else {
      j := k - 1;
    }
  }

  /**
   * In any run an event goes only by being purged; and it is then not one to be purged if and only if its owner reactivated
   * it after it was listed and it has not ended again by the cutoff.
   */
  lemma PurgedWronglyIff(plans: Plans, w: World, steps: seq<Step>, k: nat, id: EventId)
    requires Quiet(w) && k < |steps| && id in After(plans, w, steps, k).events && id !in After(plans, w, steps, k + 1).events
    ensures steps[k].Purge? && steps[k].id == id && Listing(id, steps[k].at) in After(plans, w, steps, k).purgeable
    ensures !Purgeable(After(plans, w, steps, k).events[id], steps[k].at)
      <==> exists j :: ReactivatedSince(plans, w, steps, Listing(id, steps[k].at), j, k)
  {
    AfterNext(plans, w, steps, k);
    var l := Listing(id, steps[k].at);
    if !Purgeable(After(plans, w, steps, k).events[id], l.at) {
      var j := ReactivationFound(plans, w, steps, l, k);
      ReactivatedSinceFrom(plans, w, steps, l, j, k);
    }
    if j: nat :| ReactivatedSince(plans, w, steps, l, j, k) {
      SparedStays(plans, w, steps, l, j, k);
    }
  }
}
