/**
 What the owner of an event gets from each call of the event service, in statuses, dates and counts: exactly when a call
 succeeds and what it leaves.
 */
module EventCalls {
  import opened Wrappers
  import opened EventRules
  import ExpiryJob
  import Orders

  const SECONDS_A_DAY := 24 * 60 * 60

  predicate IsOwners(db: Db, id: EventId, user: UserId) {
    id in db && db[id].user == user && db[id].deletedAt == None
  }

  /** The user's events that are upcoming, active or completed, and not deleted. */
  function Running(db: Db, user: UserId): set<EventId> {
    set id | id in db && db[id].user == user && db[id].deletedAt == None && db[id].status in {Upcoming, Active, Completed}
  }

  /** The plan has room for another running event; zero means any number. */
  predicate HasRoom(db: Db, user: UserId, plan: Limits) {
    plan.maxEvents <= 0 || |Running(db, user)| < plan.maxEvents
  }

  lemma RoomIs(db: Db, user: UserId, plan: Limits)
    ensures HasRoom(db, user, plan) <==> !LimitReached(db, user, plan)
  {
    forall id ensures id in Running(db, user) <==> id in LiveEvents(db, user) {
    }
    Orders.Smaller(Running(db, user), LiveEvents(db, user));
    Orders.Smaller(LiveEvents(db, user), Running(db, user));
  }

  /** The date lies in the plan's retention window; zero days mean that any does. */
  predicate InWindow(plan: Limits, now: int, date: int) {
    plan.retentionDays <= 0 || date <= now + plan.retentionDays * SECONDS_A_DAY
  }

  /** Only this event's row differs. */
  ghost predicate OnlyEvent(db: Db, after: Db, id: EventId) {
    (forall x :: x != id ==> (x in after <==> x in db)) && (forall x :: x != id && x in db ==> after[x] == db[x])
  }

  function Later(a: int, b: int): (r: int)
    ensures a <= r && b <= r && (r == a || r == b)
  {
    if a < b then b else a
  }

  /** What an extension counts from: now, or the old expiry if that is later. */
  function ExtendsFrom(e: Event, now: int): int {
    match e.expiresAt
    case None => now
    case Some(date) => Later(now, date)
  }

  /**
   * An extension succeeds exactly for 1 to 3650 days of an event of the owner's own that is not archived, if an expired
   * one has room and the new date is inside the window.
   */
  lemma ExtensionSucceedsIff(db: Db, id: EventId, user: UserId, days: int, plan: Limits, now: int)
    ensures AfterExtend(db, id, user, days, plan, now).1.Ok? <==>
            && 1 <= days <= 3650 && IsOwners(db, id, user) && db[id].status != Archived
            && (db[id].status == Expired ==> HasRoom(db, user, plan))
            && InWindow(plan, now, ExtendsFrom(db[id], now) + days * SECONDS_A_DAY)
    ensures AfterExtend(db, id, user, days, plan, now).1.Err? ==> AfterExtend(db, id, user, days, plan, now).0 == db
    ensures AfterExtend(db, id, user, days, plan, now).1.Err? ==>
            AfterExtend(db, id, user, days, plan, now).1.error ==
              if !(1 <= days <= 3650) then Validation
              else if !IsOwners(db, id, user) then NotFound
              else if db[id].status == Archived then InvalidTransition
              else PlanLimitReached
  {
    RoomIs(db, user, plan);
  }

  /**
   * It leaves an expiry exactly that many days after now or the old expiry, whichever is later, and so never an earlier one;
   * an expired event is active again, any other keeps its status.
   */
  lemma ExtensionMovesExpiry(db: Db, id: EventId, user: UserId, days: int, plan: Limits, now: int)
    requires AfterExtend(db, id, user, days, plan, now).1.Ok?
    ensures var after := AfterExtend(db, id, user, days, plan, now).0;
            && id in db && id in after && OnlyEvent(db, after, id)
            && after[id].expiresAt == Some(ExtendsFrom(db[id], now) + days * SECONDS_A_DAY)
            && after[id].expiresAt.value > now
            && (db[id].expiresAt.Some? ==> after[id].expiresAt.value > db[id].expiresAt.value)
            && after[id].status == (if db[id].status == Expired then Active else db[id].status)
            && after[id].user == user && after[id].deletedAt == None && after[id].warnedAt == None
            && AfterExtend(db, id, user, days, plan, now).1.value == after[id]
  {
  }

  /** A creation succeeds exactly when its text is in order, the plan has room and the date asked for is inside the window. */
  lemma CreationSucceedsIff(db: Db, id: EventId, user: UserId, textOk: bool, status: Option<Status>, expiresAt: Option<int>,
                            plan: Limits, now: int)
    ensures AfterCreate(db, id, user, textOk, status, expiresAt, plan, now).1.Ok? <==>
            textOk && HasRoom(db, user, plan) && (expiresAt.Some? ==> InWindow(plan, now, expiresAt.value))
    ensures AfterCreate(db, id, user, textOk, status, expiresAt, plan, now).1.Err? ==>
            AfterCreate(db, id, user, textOk, status, expiresAt, plan, now).0 == db
    ensures AfterCreate(db, id, user, textOk, status, expiresAt, plan, now).1.Err? ==>
            AfterCreate(db, id, user, textOk, status, expiresAt, plan, now).1.error == if textOk then PlanLimitReached else Validation
  {
    RoomIs(db, user, plan);
  }

  /** The new event is the user's, upcoming unless another status is asked for, and ends when asked or else with the window. */
  lemma CreationMakes(db: Db, id: EventId, user: UserId, textOk: bool, status: Option<Status>, expiresAt: Option<int>,
                      plan: Limits, now: int)
    requires AfterCreate(db, id, user, textOk, status, expiresAt, plan, now).1.Ok?
    ensures var after := AfterCreate(db, id, user, textOk, status, expiresAt, plan, now).0;
            && id in after && OnlyEvent(db, after, id)
            && after[id].user == user && after[id].deletedAt == None && after[id].warnedAt == None
            && (status == None ==> after[id].status == Upcoming) && (status.Some? ==> after[id].status == status.value)
            && (expiresAt.Some? ==> after[id].expiresAt == expiresAt)
            && (expiresAt == None && plan.retentionDays > 0 ==> after[id].expiresAt == Some(now + plan.retentionDays * SECONDS_A_DAY))
            && (expiresAt == None && plan.retentionDays <= 0 ==> after[id].expiresAt == None)
  {
  }

  /**
   * An update succeeds exactly for an event of the owner's own, if it leaves the expiry alone or the event is neither
   * expired nor archived and the date asked for is inside the window.
   */
  lemma UpdateSucceedsIff(db: Db, id: EventId, user: UserId, expiresAt: Option<int>, clear: bool, plan: Limits, now: int)
    ensures AfterUpdate(db, id, user, expiresAt, clear, plan, now).1.Ok? <==>
            && IsOwners(db, id, user)
            && (expiresAt.Some? || clear ==> db[id].status in {Upcoming, Active, Completed})
            && (expiresAt.Some? ==> InWindow(plan, now, expiresAt.value))
    ensures AfterUpdate(db, id, user, expiresAt, clear, plan, now).1.Err? ==> AfterUpdate(db, id, user, expiresAt, clear, plan, now).0 == db
    ensures AfterUpdate(db, id, user, expiresAt, clear, plan, now).1.Err? ==>
            AfterUpdate(db, id, user, expiresAt, clear, plan, now).1.error ==
              if !IsOwners(db, id, user) then NotFound
              else if db[id].status in {Upcoming, Active, Completed} then PlanLimitReached
              else InvalidTransition
  {
  }

  /** It sets the date asked for; clearing it leaves none, or the window's end where the plan has one, whatever date is given besides. */
  lemma UpdateSetsExpiry(db: Db, id: EventId, user: UserId, expiresAt: Option<int>, clear: bool, plan: Limits, now: int)
    requires AfterUpdate(db, id, user, expiresAt, clear, plan, now).1.Ok?
    ensures var after := AfterUpdate(db, id, user, expiresAt, clear, plan, now).0;
            && id in db && id in after && OnlyEvent(db, after, id)
            && after[id].user == db[id].user && after[id].status == db[id].status && after[id].deletedAt == db[id].deletedAt
            && (expiresAt == None && !clear ==> after == db)
            && (expiresAt.Some? && !clear ==> after[id].expiresAt == expiresAt && after[id].warnedAt == None)
            && (clear && plan.retentionDays <= 0 ==> after[id].expiresAt == None && after[id].warnedAt == None)
            && (clear && plan.retentionDays > 0 ==>
                  after[id].expiresAt == Some(now + plan.retentionDays * SECONDS_A_DAY) && after[id].warnedAt == None)
  {
  }

  /** The moves an owner may ask for. */
  predicate MayMove(from: Status, to: Status) {
    (from, to) in {(Upcoming, Active), (Upcoming, Archived), (Active, Completed), (Active, Archived), (Completed, Archived), (Expired, Active)}
  }

  /** A status change succeeds exactly for an event of the owner's own that is in that status or may move to it, with room for a reactivation. */
  lemma TransitionSucceedsIff(db: Db, id: EventId, user: UserId, to: Status, plan: Limits, now: int)
    ensures AfterTransition(db, id, user, to, plan, now).1.Ok? <==>
            && IsOwners(db, id, user) && (db[id].status == to || MayMove(db[id].status, to))
            && (db[id].status == Expired && to == Active ==> HasRoom(db, user, plan))
    ensures AfterTransition(db, id, user, to, plan, now).1.Err? ==> AfterTransition(db, id, user, to, plan, now).0 == db
    ensures AfterTransition(db, id, user, to, plan, now).1.Err? ==>
            AfterTransition(db, id, user, to, plan, now).1.error ==
              if !IsOwners(db, id, user) then NotFound else if MayMove(db[id].status, to) then PlanLimitReached else InvalidTransition
  {
    RoomIs(db, user, plan);
  }

  /** It sets the status; a reactivation also gives a fresh window, and any other keeps the expiry. */
  lemma TransitionSetsStatus(db: Db, id: EventId, user: UserId, to: Status, plan: Limits, now: int)
    requires AfterTransition(db, id, user, to, plan, now).1.Ok?
    ensures var after := AfterTransition(db, id, user, to, plan, now).0;
            && id in db && id in after && OnlyEvent(db, after, id)
            && after[id].status == to && after[id].user == db[id].user && after[id].deletedAt == None
            && (db[id].status == Expired && to == Active && plan.retentionDays > 0 ==>
                  after[id].expiresAt == Some(now + plan.retentionDays * SECONDS_A_DAY) && after[id].warnedAt == None)
            && (db[id].status == Expired && to == Active && plan.retentionDays <= 0 ==> after[id].expiresAt == None && after[id].warnedAt == None)
            && (db[id].status != Expired || to != Active ==> after[id].expiresAt == db[id].expiresAt && after[id].warnedAt == db[id].warnedAt)
  {
  }

  /** A deletion succeeds exactly for an event of the owner's own, and notes when. */
  lemma DeletionMarks(db: Db, id: EventId, user: UserId, now: int)
    ensures AfterDelete(db, id, user, now).1.Ok? <==> IsOwners(db, id, user)
    ensures var after := AfterDelete(db, id, user, now).0;
            && OnlyEvent(db, after, id)
            && (IsOwners(db, id, user) ==> id in after && after[id] == db[id].(deletedAt := Some(now)))
            && (!IsOwners(db, id, user) ==> after == db)
    ensures AfterDelete(db, id, user, now).1.Err? ==> AfterDelete(db, id, user, now).1.error == NotFound
  {
  }

  // ---------------------------------------------------------------- the expiry job

  /** A whole run of the job that started at `at` expires the running events whose expiry had come by then, and changes nothing else. */
  lemma JobExpires(db: Db, at: int, id: EventId)
    requires id in db
    ensures var after := ExpiryJob.AllExpired(db, at);
            && after.Keys == db.Keys
            && after[id] ==
                 if db[id].deletedAt == None && db[id].status in {Upcoming, Active, Completed} && db[id].expiresAt.Some? && db[id].expiresAt.value <= at
                 then db[id].(status := Expired) else db[id]
  {
  }

  /** Marking expires an event that is upcoming, active or completed and not deleted, and no other. */
  lemma MarkingExpires(db: Db, id: EventId)
    ensures var after := MarkedExpired(db, id);
            && OnlyEvent(db, after, id) && (id in after <==> id in db)
            && (id in db && db[id].deletedAt == None && db[id].status in {Upcoming, Active, Completed} ==> after[id] == db[id].(status := Expired))
            && (id in db && (db[id].deletedAt.Some? || db[id].status in {Archived, Expired}) ==> after[id] == db[id])
  {
  }
}
