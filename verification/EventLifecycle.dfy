/**
 What plan limits guarantee over any run of service calls, passing time, and the expiry and purge jobs.

 A job first lists an event and later marks or purges it by its id alone; anything may happen in between. Every
 user's plan is constant over the run, and ids are not used twice. A step that is not enabled changes nothing.
 */
module EventLifecycle {
  import opened Wrappers
  import opened EventRules
  import Orders

  datatype Step =
    | Create(id: EventId, user: UserId, textOk: bool, status: Option<Status>, expiresAt: Option<int>)
    | Update(id: EventId, user: UserId, expiresAt: Option<int>, clearExpiry: bool)
    | Extend(id: EventId, user: UserId, days: int)
    | Transition(id: EventId, user: UserId, to: Status)
    | Delete(id: EventId, user: UserId)
    | ListDue(id: EventId, at: int)       // the expiry job that started at `at` lists the event
    | MarkExpired(id: EventId, at: int)   // … and marks it
    | ListPurge(id: EventId, at: int)     // the purge job with cutoff `at` lists the event
    | Purge(id: EventId, at: int)         // … and deletes its row
    | Tick(delay: nat)

  /** What a job remembers of an event it has listed. */
  datatype Listing = Listing(id: EventId, at: int)

  datatype World = World(events: Db, used: set<EventId>, now: int, due: set<Listing>, purgeable: set<Listing>)

  /** No job is under way, and every event's id is used. */
  predicate Quiet(w: World) {
    w.events.Keys <= w.used && w.due == {} && w.purgeable == {}
  }

  type Plans = UserId -> Limits

  function Next(plans: Plans, w: World, s: Step): World {
    match s
    case Create(id, u, textOk, status, expiresAt) =>
      if id in w.used || id in w.events then w
      else
        var events := AfterCreate(w.events, id, u, textOk, status, expiresAt, plans(u), w.now).0;
        w.(events := events, used := w.used + {id})
    case Update(id, u, expiresAt, clear) => w.(events := AfterUpdate(w.events, id, u, expiresAt, clear, plans(u), w.now).0)
    case Extend(id, u, days) => w.(events := AfterExtend(w.events, id, u, days, plans(u), w.now).0)
    case Transition(id, u, to) => w.(events := AfterTransition(w.events, id, u, to, plans(u), w.now).0)
    case Delete(id, u) => w.(events := AfterDelete(w.events, id, u, w.now).0)
    case ListDue(id, at) =>
      if id in w.events && at <= w.now && Due(w.events[id], at) then w.(due := w.due + {Listing(id, at)}) else w
    case MarkExpired(id, at) =>
      if Listing(id, at) in w.due then w.(events := MarkedExpired(w.events, id), due := w.due - {Listing(id, at)}) else w
    case ListPurge(id, at) =>
      if id in w.events && at <= w.now && Purgeable(w.events[id], at) then w.(purgeable := w.purgeable + {Listing(id, at)}) else w
    case Purge(id, at) =>
      if Listing(id, at) in w.purgeable then w.(events := w.events - {id}, purgeable := w.purgeable - {Listing(id, at)}) else w
    case Tick(d) => w.(now := w.now + d)
  }

  function Run(plans: Plans, w: World, steps: seq<Step>): World
    decreases |steps|
  {
    if steps == [] then w else Next(plans, Run(plans, w, steps[..|steps| - 1]), steps[|steps| - 1])
  }

  // ---------------------------------------------------------------- the retention window

  /** An event of a user with a retention window has an expiry inside it. */
  predicate InWindow(plans: Plans, e: Event, now: int) {
    plans(e.user).retentionDays > 0 ==>
      e.expiresAt.Some? && e.expiresAt.value <= now + plans(e.user).retentionDays * DAY
  }

  ghost predicate AllInWindow(plans: Plans, w: World) {
    forall id :: id in w.events ==> InWindow(plans, w.events[id], w.now)
  }

  lemma WindowStep(plans: Plans, w: World, s: Step)
    requires AllInWindow(plans, w)
    ensures AllInWindow(plans, Next(plans, w, s))
  {
  }

  /** No run leaves an event of a plan with retention without an expiry, or with one beyond the window. */
  lemma {:induction false} ExpiryStaysInWindow(plans: Plans, w: World, steps: seq<Step>)
    requires AllInWindow(plans, w)
    ensures AllInWindow(plans, Run(plans, w, steps))
    decreases |steps|
  {
    if steps != [] {
      ExpiryStaysInWindow(plans, w, steps[..|steps| - 1]);
      WindowStep(plans, Run(plans, w, steps[..|steps| - 1]), steps[|steps| - 1]);
    }
  }

  // ---------------------------------------------------------------- the live count

  function LiveCount(w: World, u: UserId): nat {
    |LiveEvents(w.events, u)|
  }

  function Max(a: int, b: int): int {
    if a < b then b else a
  }

  /** Only creating or reactivating an event makes one live. */
  predicate Enlivens(w: World, v: World, id: EventId) {
    id in v.events && Live(v.events[id]) && !(id in w.events && Live(w.events[id]))
  }

  predicate Touches(s: Step, id: EventId) {
    match s
    case Tick(_) => false
    case _ => s.id == id
  }

  /** A step changes no event but its own, and never an event's owner. */
  lemma OnlyItsOwn(plans: Plans, w: World, s: Step, id: EventId)
    ensures var v := Next(plans, w, s);
            && (!Touches(s, id) ==> (id in v.events <==> id in w.events) && (id in w.events ==> v.events[id] == w.events[id]))
            && (id in w.events && id in v.events ==> v.events[id].user == w.events[id].user)
  {
  }

  /** An event becomes live only through a call that found its owner below the limit. */
  lemma EnlivenedBelowLimit(plans: Plans, w: World, s: Step, id: EventId)
    requires Enlivens(w, Next(plans, w, s), id)
    ensures !LimitReached(w.events, Next(plans, w, s).events[id].user, plans(Next(plans, w, s).events[id].user))
  {
  }

  lemma NewlyLive(plans: Plans, w: World, s: Step, u: UserId, id: EventId)
    requires plans(u).maxEvents > 0
    requires id in LiveEvents(Next(plans, w, s).events, u) && id !in LiveEvents(w.events, u)
    ensures Touches(s, id) && LiveCount(w, u) < plans(u).maxEvents
  {
    OnlyItsOwn(plans, w, s, id);
    EnlivenedBelowLimit(plans, w, s, id);
  }

  lemma OneTouched(s: Step, a: EventId, b: EventId)
    requires Touches(s, a) && Touches(s, b)
    ensures a == b
  {
  }

  lemma LiveCountStep(plans: Plans, w: World, s: Step, u: UserId)
    requires plans(u).maxEvents > 0
    ensures LiveCount(Next(plans, w, s), u) <= Max(plans(u).maxEvents, LiveCount(w, u))
  {
    AtMostOneMore(plans, w, s, u, LiveEvents(w.events, u), LiveEvents(Next(plans, w, s).events, u));
  }

  lemma AtMostOneMore(plans: Plans, w: World, s: Step, u: UserId, before: set<EventId>, after: set<EventId>)
    requires plans(u).maxEvents > 0 && before == LiveEvents(w.events, u) && after == LiveEvents(Next(plans, w, s).events, u)
    ensures |after| <= Max(plans(u).maxEvents, |before|)
  {
    if x :| x in after && x !in before {
      NewlyLive(plans, w, s, u, x);
      forall id | id in after ensures id in before + {x} {
        if id !in before {
          NewlyLive(plans, w, s, u, id);
          OneTouched(s, id, x);
        }
      }
      Orders.Smaller(after, before + {x});
    } else {
      Orders.Smaller(after, before);
    }
  }

  /** No run lifts the number of a user's live events above the plan's limit, or above what it already was. */
  lemma {:induction false} LiveCountBounded(plans: Plans, w: World, steps: seq<Step>, u: UserId)
    requires plans(u).maxEvents > 0
    ensures LiveCount(Run(plans, w, steps), u) <= Max(plans(u).maxEvents, LiveCount(w, u))
    decreases |steps|
  {
    if steps != [] {
      LiveCountBounded(plans, w, steps[..|steps| - 1], u);
      LiveCountStep(plans, Run(plans, w, steps[..|steps| - 1]), steps[|steps| - 1], u);
    }
  }

  // ---------------------------------------------------------------- moves of one event

  /** A reactivated event is, at that moment, neither due again nor purgeable. */
  lemma ReactivatedIsSafe(plans: Plans, w: World, s: Step, id: EventId, cutoff: int)
    requires id in w.events && w.events[id].status == Expired && cutoff <= w.now
    requires id in Next(plans, w, s).events && Next(plans, w, s).events[id].status != Expired
    ensures var e := Next(plans, w, s).events[id];
            e.status == Active && Live(e) && !Due(e, w.now) && !Purgeable(e, cutoff)
  {
  }

  /**
   * The status of an event changes only along the client transitions, when it is reactivated, or when an expiry job
   * marks it; an archived event keeps its status and expiry, and a deleted one keeps everything.
   */
  lemma StatusMoves(plans: Plans, w: World, s: Step, id: EventId)
    requires id in w.events && id in Next(plans, w, s).events
    ensures var a, b := w.events[id], Next(plans, w, s).events[id];
            && (b.status == Expired && a.status != Expired ==> s.MarkExpired? && Listing(id, s.at) in w.due && Live(a))
            && (b.status != a.status && b.status != Expired ==> b.status in AllowedTransitions(a.status))
            && (a.status == Archived ==> b.status == Archived && b.expiresAt == a.expiresAt)
            && (a.deletedAt.Some? ==> b == a)
  {
  }

  /** A date is set in the past exactly by an owner's update of a live or completed event to an expiry that is over. */
  lemma BackdatedIff(plans: Plans, w: World, s: Step, id: EventId)
    requires id in w.events && id in Next(plans, w, s).events
    ensures Backdated(w.events[id], Next(plans, w, s).events[id], w.now) <==>
            && s.Update? && s.id == id && !s.clearExpiry && s.expiresAt.Some? && s.expiresAt.value < w.now
            && Owned(w.events, id, s.user) && Live(w.events[id]) && s.expiresAt != w.events[id].expiresAt
  {
  }
}
