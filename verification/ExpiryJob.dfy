/** The expiry job: it marks due events in batches until a batch comes back short. */
module ExpiryJob {
  import opened Wrappers
  import opened EventRules
  import Orders

  const EXPIRY_BATCH_SIZE := 500

  function DueEvents(db: Db, at: int): set<EventId> {
    set id | id in db && Due(db[id], at)
  }

  /** The one-shot update the batches amount to: every due event becomes expired. */
  function AllExpired(db: Db, at: int): Db {
    map id | id in db :: if Due(db[id], at) then db[id].(status := Expired) else db[id]
  }

  function Expiries(db: Db): map<EventId, int> {
    map id | id in db :: if db[id].expiresAt.Some? then db[id].expiresAt.value else 0
  }

  class EventRepository {
    var events: Db

    constructor (events: Db)
      ensures this.events == events
    {
      this.events := events;
    }

    /** The earliest due events, at most `limit` of them. */
    method ListDueExpiry(at: int, limit: nat) returns (batch: seq<EventId>)
      ensures Orders.IsBatch(batch, DueEvents(events, at), Expiries(events), limit)
    {
      batch := Orders.Batch(DueEvents(events, at), Expiries(events), limit);
    }

    method MarkExpired(id: EventId)
      modifies this
      ensures events == MarkedExpired(old(events), id)
    {
      if id in events && Live(events[id]) {
        events := events[id := events[id].(status := Expired)];
      }
    }
  }

  predicate IsDue(e: Event, at: int) {
    e.deletedAt == None && e.status in {Upcoming, Active, Completed} && e.expiresAt.Some? && e.expiresAt.value <= at
  }

  /** A batch lists due events and no others; if one is left out, the batch is full and lists none that expires later. */
  lemma EarliestExpireFirst(db: Db, at: int, limit: nat, batch: seq<EventId>, a: EventId, b: EventId)
    requires Orders.IsBatch(batch, DueEvents(db, at), Expiries(db), limit)
    ensures a in batch ==> a in db && IsDue(db[a], at)
    ensures b in db && IsDue(db[b], at) && b !in batch ==> |batch| == limit
    ensures a in batch && b in db && IsDue(db[b], at) && b !in batch ==> db[a].expiresAt.value <= db[b].expiresAt.value
  {
    assert forall i :: 0 <= i < |batch| ==> batch[i] in DueEvents(db, at);
    assert b in db && IsDue(db[b], at) ==> b in DueEvents(db, at);
  }

  lemma MarkingKeepsOutcome(db: Db, at: int, id: EventId)
    requires id in DueEvents(db, at)
    ensures AllExpired(MarkedExpired(db, id), at) == AllExpired(db, at)
    ensures DueEvents(MarkedExpired(db, id), at) == DueEvents(db, at) - {id}
  {
  }

  /** The batched job, for any batch size, does exactly the one-shot update and counts what it expired. */
  method ExpireHandler(repo: EventRepository, at: int, batchSize: nat) returns (expired: nat)
    requires 1 <= batchSize
    modifies repo
    ensures repo.events == AllExpired(old(repo.events), at)
    ensures DueEvents(repo.events, at) == {}
    ensures expired == |DueEvents(old(repo.events), at)|
  {
    expired := 0;
    while true
      invariant AllExpired(repo.events, at) == AllExpired(old(repo.events), at)
      invariant expired + |DueEvents(repo.events, at)| == |DueEvents(old(repo.events), at)|
      decreases |DueEvents(repo.events, at)|
    {
      ghost var before := repo.events;
      var due := repo.ListDueExpiry(at, batchSize);
      var i := 0;
      while i < |due|
        invariant 0 <= i <= |due|
        invariant AllExpired(repo.events, at) == AllExpired(before, at)
        invariant forall id :: id in DueEvents(repo.events, at) <==> id in DueEvents(before, at) && id !in due[..i]
        invariant expired + |DueEvents(repo.events, at)| == |DueEvents(old(repo.events), at)|
        invariant |DueEvents(repo.events, at)| == |DueEvents(before, at)| - i
      {
        MarkingKeepsOutcome(repo.events, at, due[i]);
        repo.MarkExpired(due[i]);
        expired := expired + 1;
        i := i + 1;
      }
      if |due| < batchSize {
        NothingDue(repo.events, at);
        return;
      }
    }
  }

  /** With nothing due, the one-shot update changes nothing. */
  lemma NothingDue(db: Db, at: int)
    requires forall id :: id !in DueEvents(db, at)
    ensures AllExpired(db, at) == db && DueEvents(db, at) == {}
  {
    forall id | id in db ensures !Due(db[id], at) {
      assert id !in DueEvents(db, at);
    }
  }
}
