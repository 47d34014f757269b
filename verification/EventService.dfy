/** The event service, which carries out the calls of `EventRules` as the source does. Each call is atomic. */
module EventService {
  import opened Wrappers
  import opened EventRules

  class Service {
    var events: Db

    constructor (events: Db)
      ensures this.events == events
    {
      this.events := events;
    }

    method EnforceEventLimit(user: UserId, plan: Limits) returns (r: Result<(), Error>)
      ensures r == if LimitReached(events, user, plan) then Err(PlanLimitReached) else Ok(())
    {
      if plan.maxEvents <= 0 { return Ok(()); }
      var count := |set id | id in events && events[id].user == user && Live(events[id])|;
      assert count == |LiveEvents(events, user)|;
      if count >= plan.maxEvents { return Err(PlanLimitReached); }
      return Ok(());
    }

    method Create(id: EventId, user: UserId, textOk: bool, status: Option<Status>, expiresAt: Option<int>, plan: Limits, now: int)
      returns (r: Result<Event, Error>)
      requires id !in events
      modifies this
      ensures (events, r) == AfterCreate(old(events), id, user, textOk, status, expiresAt, plan, now)
    {
      if !textOk { return Err(Validation); }
      var limit := EnforceEventLimit(user, plan);
      if limit.Err? { return Err(limit.error); }
      var expiry := expiresAt;
      if expiresAt.Some? {
        if BeyondRetention(now, plan.retentionDays, expiresAt.value) { return Err(PlanLimitReached); }
      } else if plan.retentionDays > 0 {
        expiry := Some(now + plan.retentionDays * DAY);
      }
      var e := Event(user, if status.Some? then status.value else Upcoming, expiry, None, None);
      events := events[id := e];
      return Ok(e);
    }

    method Update(id: EventId, user: UserId, expiresAt: Option<int>, clearExpiry: bool, plan: Limits, now: int)
      returns (r: Result<Event, Error>)
      modifies this
      ensures (events, r) == AfterUpdate(old(events), id, user, expiresAt, clearExpiry, plan, now)
    {
      var at, clear := expiresAt, clearExpiry;
      if expiresAt.Some? || clearExpiry {
        if !Owned(events, id, user) { return Err(NotFound); }
        if events[id].status == Expired || events[id].status == Archived { return Err(InvalidTransition); }
        if expiresAt.Some? && BeyondRetention(now, plan.retentionDays, expiresAt.value) { return Err(PlanLimitReached); }
        if clearExpiry {
          clear := plan.retentionDays <= 0;
          if plan.retentionDays > 0 {
            at := Some(now + plan.retentionDays * DAY);
          }
        }
      }
      if !Owned(events, id, user) { return Err(NotFound); }
      var row := events[id];
      var e := row.(expiresAt := if clear then None else if at.Some? then at else row.expiresAt,
                    warnedAt := if clear || at.Some? then None else row.warnedAt);
      events := events[id := e];
      assert expiresAt.None? && !clearExpiry ==> events == old(events);
      return Ok(e);
    }

    method Extend(id: EventId, user: UserId, days: int, plan: Limits, now: int) returns (r: Result<Event, Error>)
      modifies this
      ensures (events, r) == AfterExtend(old(events), id, user, days, plan, now)
    {
      if days < 1 || days > MAX_EXTEND_DAYS { return Err(Validation); }
      if !Owned(events, id, user) { return Err(NotFound); }
      var current := events[id];
      if current.status == Archived { return Err(InvalidTransition); }
      var reactivate := current.status == Expired;
      if reactivate {
        var limit := EnforceEventLimit(user, plan);
        if limit.Err? { return Err(limit.error); }
      }
      var base := now;
      if current.expiresAt.Some? && current.expiresAt.value > now {
        base := current.expiresAt.value;
      }
      var expiresAt := base + days * DAY;
      if BeyondRetention(now, plan.retentionDays, expiresAt) { return Err(PlanLimitReached); }
      var e := current.(expiresAt := Some(expiresAt), warnedAt := None, status := if reactivate then Active else current.status);
      events := events[id := e];
      return Ok(e);
    }

    method Transition(id: EventId, user: UserId, to: Status, plan: Limits, now: int) returns (r: Result<Event, Error>)
      modifies this
      ensures (events, r) == AfterTransition(old(events), id, user, to, plan, now)
    {
      if !Owned(events, id, user) { return Err(NotFound); }
      var current := events[id];
      if current.status == to { return Ok(current); }
      if to !in AllowedTransitions(current.status) { return Err(InvalidTransition); }
      var e := current.(status := to);
      if to == Active && current.status == Expired {
        var limit := EnforceEventLimit(user, plan);
        if limit.Err? { return Err(limit.error); }
        var expiresAt: Option<int> := None;
        if plan.retentionDays > 0 {
          expiresAt := Some(now + plan.retentionDays * DAY);
        }
        e := e.(expiresAt := expiresAt, warnedAt := None);
      }
      events := events[id := e];
      return Ok(e);
    }

    method Delete(id: EventId, user: UserId, now: int) returns (r: Result<(), Error>)
      modifies this
      ensures (events, r) == AfterDelete(old(events), id, user, now)
    {
      if !Owned(events, id, user) { return Err(NotFound); }
      events := events[id := events[id].(deletedAt := Some(now))];
      return Ok(());
    }
  }
}
