/**
 What each call of the event service does to the stored rows: plan limits, retention, expiry and reactivation.

 Times are in seconds, UTC, so a day has 86400 of them. The checks on names, addresses, settings and slugs are
 one parameter.
 */
module EventRules {
  import opened Wrappers

  type EventId = int
  type UserId = int

  const DAY := 86400
  const MAX_EXTEND_DAYS := 3650

  datatype Status = Upcoming | Active | Completed | Archived | Expired

  datatype Event = Event(user: UserId, status: Status, expiresAt: Option<int>, deletedAt: Option<int>, warnedAt: Option<int>)

  /** A plan; zero (or less) means unlimited. */
  datatype Limits = Limits(maxEvents: int, retentionDays: int)

  datatype Error = Validation | NotFound | InvalidTransition | PlanLimitReached

  type Db = map<EventId, Event>

  predicate Live(e: Event) {
    e.deletedAt.None? && (e.status == Upcoming || e.status == Active || e.status == Completed)
  }

  /** The client-driven transitions. */
  function AllowedTransitions(from: Status): set<Status> {
    match from
    case Upcoming => {Active, Archived}
    case Active => {Completed, Archived}
    case Completed => {Archived}
    case Archived => {}
    case Expired => {Active}
  }

  function LiveEvents(db: Db, user: UserId): set<EventId> {
    set id | id in db && db[id].user == user && Live(db[id])
  }

  predicate Owned(db: Db, id: EventId, user: UserId) {
    id in db && db[id].user == user && db[id].deletedAt.None?
  }

  predicate LimitReached(db: Db, user: UserId, plan: Limits) {
    plan.maxEvents > 0 && |LiveEvents(db, user)| >= plan.maxEvents
  }

  predicate BeyondRetention(now: int, days: int, expiresAt: int) {
    days > 0 && expiresAt > now + days * DAY
  }

  /** The end of the plan's retention window; no expiry when the plan has none. */
  function WindowEnd(now: int, days: int): Option<int> {
    if days <= 0 then None else Some(now + days * DAY)
  }

  function AfterCreate(db: Db, id: EventId, user: UserId, textOk: bool, status: Option<Status>, expiresAt: Option<int>,
                       plan: Limits, now: int): (Db, Result<Event, Error>) {
    if !textOk then (db, Err(Validation))
    else if LimitReached(db, user, plan) then (db, Err(PlanLimitReached))
    else if expiresAt.Some? && BeyondRetention(now, plan.retentionDays, expiresAt.value) then (db, Err(PlanLimitReached))
    else
      var e := Event(user, if status.Some? then status.value else Upcoming,
                     if expiresAt.Some? then expiresAt else WindowEnd(now, plan.retentionDays), None, None);
      (db[id := e], Ok(e))
  }

  function AfterUpdate(db: Db, id: EventId, user: UserId, expiresAt: Option<int>, clearExpiry: bool,
                       plan: Limits, now: int): (Db, Result<Event, Error>) {
    if !Owned(db, id, user) then (db, Err(NotFound))
    else if expiresAt.None? && !clearExpiry then (db, Ok(db[id]))
    else if db[id].status == Expired || db[id].status == Archived then (db, Err(InvalidTransition))
    else if expiresAt.Some? && BeyondRetention(now, plan.retentionDays, expiresAt.value) then (db, Err(PlanLimitReached))
    else
      var e := db[id].(expiresAt := if clearExpiry then WindowEnd(now, plan.retentionDays) else expiresAt, warnedAt := None);
      (db[id := e], Ok(e))
  }

  function AfterExtend(db: Db, id: EventId, user: UserId, days: int, plan: Limits, now: int): (Db, Result<Event, Error>) {
    if days < 1 || days > MAX_EXTEND_DAYS then (db, Err(Validation))
    else if !Owned(db, id, user) then (db, Err(NotFound))
    else if db[id].status == Archived then (db, Err(InvalidTransition))
    else if db[id].status == Expired && LimitReached(db, user, plan) then (db, Err(PlanLimitReached))
    else
      var base := if db[id].expiresAt.Some? && db[id].expiresAt.value > now then db[id].expiresAt.value else now;
      if BeyondRetention(now, plan.retentionDays, base + days * DAY) then (db, Err(PlanLimitReached))
      else
        var e := db[id].(expiresAt := Some(base + days * DAY), warnedAt := None,
                         status := if db[id].status == Expired then Active else db[id].status);
        (db[id := e], Ok(e))
  }

  function AfterTransition(db: Db, id: EventId, user: UserId, to: Status, plan: Limits, now: int): (Db, Result<Event, Error>) {
    if !Owned(db, id, user) then (db, Err(NotFound))
    else if db[id].status == to then (db, Ok(db[id]))
    else if to !in AllowedTransitions(db[id].status) then (db, Err(InvalidTransition))
    else if to == Active && db[id].status == Expired then
      if LimitReached(db, user, plan) then (db, Err(PlanLimitReached))
      else
        var e := db[id].(status := Active, expiresAt := WindowEnd(now, plan.retentionDays), warnedAt := None);
        (db[id := e], Ok(e))
    else (db[id := db[id].(status := to)], Ok(db[id].(status := to)))
  }

  function AfterDelete(db: Db, id: EventId, user: UserId, now: int): (Db, Result<(), Error>) {
    if !Owned(db, id, user) then (db, Err(NotFound))
    else (db[id := db[id].(deletedAt := Some(now))], Ok(()))
  }

  /** The rows the expiry job looks for. */
  predicate Due(e: Event, at: int) {
    Live(e) && e.expiresAt.Some? && e.expiresAt.value <= at
  }

  function MarkedExpired(db: Db, id: EventId): Db {
    if id in db && Live(db[id]) then db[id := db[id].(status := Expired)] else db
  }

  /** The rows the purge job looks for. */
  predicate Purgeable(e: Event, cutoff: int) {
    (e.deletedAt.Some? && e.deletedAt.value <= cutoff)
    || (e.status == Expired && e.expiresAt.Some? && e.expiresAt.value <= cutoff)
  }

  /** A deletion or an expiry has been set to a time already past. */
  predicate Backdated(a: Event, b: Event, now: int) {
    (b.deletedAt != a.deletedAt && b.deletedAt.Some? && b.deletedAt.value < now)
    || (b.expiresAt != a.expiresAt && b.expiresAt.Some? && b.expiresAt.value < now)
  }
}
