/**
 The rows that photo uploads touch: photos, and the counters kept on events and users.

 `Db` gives one function per SQL transaction; `PostgresRepository` performs the same
 transactions statement by statement. Times are seconds, ids are opaque integers.
 */
module PhotoRows {
  import opened Wrappers

  type PhotoId = int
  type EventId = int
  type UserId = int

  datatype Status = Uploading | Processing | Ready | Failed

  datatype Photo = Photo(event: EventId, fileSize: int, status: Status, updatedAt: int)

  datatype Event = Event(user: UserId, photoCount: int, storageBytes: int, deleted: bool)

  datatype DeletedPhoto = DeletedPhoto(event: EventId, counted: bool)

  /** SQL's GREATEST(x, 0). */
  function AtLeastZero(x: int): int {
    if x < 0 then 0 else x
  }

  datatype Db = Db(photos: map<PhotoId, Photo>, events: map<EventId, Event>, users: map<UserId, int>) {

    /** The row with this id is written only if it exists, as in an UPDATE by primary key. */
    function SetStatus(id: PhotoId, status: Status, now: int): Db {
      if id in photos then this.(photos := photos[id := photos[id].(status := status, updatedAt := now)]) else this
    }

    function GrowEvent(e: EventId, bytes: int): Db {
      if e in events then
        this.(events := events[e := events[e].(photoCount := events[e].photoCount + 1,
                                               storageBytes := events[e].storageBytes + bytes)])
      else this
    }

    function ShrinkEvent(e: EventId, bytes: int): Db {
      if e in events then
        this.(events := events[e := events[e].(photoCount := AtLeastZero(events[e].photoCount - 1),
                                               storageBytes := AtLeastZero(events[e].storageBytes - bytes))])
      else this
    }

    function GrowOwner(e: EventId, bytes: int): Db {
      if e in events && events[e].user in users then
        this.(users := users[events[e].user := users[events[e].user] + bytes])
      else this
    }

    function ShrinkOwner(e: EventId, bytes: int): Db {
      if e in events && events[e].user in users then
        this.(users := users[events[e].user := AtLeastZero(users[events[e].user] - bytes)])
      else this
    }

    function MarkProcessing(id: PhotoId, incrementBytes: int, now: int): (Db, Option<Photo>, bool) {
      if id !in photos then (this, None, false)
      else if photos[id].status != Uploading then (this, Some(photos[id]), false)
      else
        var marked := SetStatus(id, Processing, now);
        var e := photos[id].event;
        var bytes := if incrementBytes > 0 then incrementBytes else 0;
        (if incrementBytes > 0 then marked.GrowEvent(e, bytes).GrowOwner(e, bytes) else marked.GrowEvent(e, 0),
         Some(marked.photos[id]), true)
    }

    function MarkReady(id: PhotoId, now: int): (Db, bool) {
      (SetStatus(id, Ready, now), id in photos)
    }

    function MarkFailed(id: PhotoId, now: int): (Db, bool) {
      if id in photos && photos[id].status != Ready then (SetStatus(id, Failed, now), true) else (this, false)
    }

    predicate Stale(id: PhotoId, cutoff: int) {
      id in photos && photos[id].status == Uploading && photos[id].updatedAt < cutoff
    }

    function FailStaleUploads(cutoff: int, now: int): Db {
      this.(photos := map id | id in photos ::
                        if Stale(id, cutoff) then photos[id].(status := Failed, updatedAt := now) else photos[id])
    }

    /** The join and filter under which a user may delete a photo. */
    predicate MayDelete(id: PhotoId, user: UserId) {
      id in photos && photos[id].event in events
      && events[photos[id].event].user == user && !events[photos[id].event].deleted
    }

    function DeleteOwned(id: PhotoId, user: UserId): (Db, Option<DeletedPhoto>) {
      if !MayDelete(id, user) then (this, None)
      else
        var p := photos[id];
        var removed := this.(photos := photos - {id});
        if p.status == Uploading then (removed, Some(DeletedPhoto(p.event, false)))
        else (removed.ShrinkEvent(p.event, p.fileSize).ShrinkOwner(p.event, p.fileSize),
              Some(DeletedPhoto(p.event, true)))
    }

    /** Deleting an event row takes its photo rows with it (migrations/0004_photos.sql:4). */
    function PurgeEvent(e: EventId): (Db, bool) {
      if e !in events then (this, false)
      else
        var shrunk := ShrinkOwner(e, events[e].storageBytes);
        (Db(map id | id in photos && photos[id].event != e :: photos[id], events - {e}, shrunk.users), true)
    }
  }

  class PostgresRepository {
    var photos: map<PhotoId, Photo>
    var events: map<EventId, Event>
    var users: map<UserId, int>

    function Rows(): Db
      reads this
    {
      Db(photos, events, users)
    }

    constructor ()
      ensures Rows() == Db(map[], map[], map[])
    {
      photos, events, users := map[], map[], map[];
    }

    method MarkProcessing(id: PhotoId, incrementBytes: int, now: int)
      returns (photo: Option<Photo>, transitioned: bool)
      modifies this
      ensures (Rows(), photo, transitioned) == old(Rows()).MarkProcessing(id, incrementBytes, now)
    {
      if id !in photos || photos[id].status != Uploading {
        photo := if id in photos then Some(photos[id]) else None;
        return photo, false;
      }
      photos := photos[id := photos[id].(status := Processing, updatedAt := now)];
      var e := photos[id].event;
      if incrementBytes > 0 {
        if e in events {
          events := events[e := events[e].(photoCount := events[e].photoCount + 1,
                                           storageBytes := events[e].storageBytes + incrementBytes)];
          var owner := events[e].user;
          if owner in users {
            users := users[owner := users[owner] + incrementBytes];
          }
        }
      } else if e in events {
        events := events[e := events[e].(photoCount := events[e].photoCount + 1)];
      }
      return Some(photos[id]), true;
    }

    method MarkReady(id: PhotoId, now: int) returns (found: bool)
      modifies this`photos
      ensures (Rows(), found) == old(Rows()).MarkReady(id, now)
    {
      found := id in photos;
      if found {
        photos := photos[id := photos[id].(status := Ready, updatedAt := now)];
      }
    }

    method MarkFailed(id: PhotoId, now: int) returns (found: bool)
      modifies this`photos
      ensures (Rows(), found) == old(Rows()).MarkFailed(id, now)
    {
      found := id in photos && photos[id].status != Ready;
      if found {
        photos := photos[id := photos[id].(status := Failed, updatedAt := now)];
      }
    }

    method FailStaleUploads(cutoff: int, now: int) returns (failed: nat)
      modifies this`photos
      ensures Rows() == old(Rows()).FailStaleUploads(cutoff, now)
      ensures failed == |set id | id in old(photos) && old(photos)[id].status == Uploading && old(photos)[id].updatedAt < cutoff|
    {
      failed := |set id | id in photos && photos[id].status == Uploading && photos[id].updatedAt < cutoff|;
      photos := map id | id in photos ::
        if Rows().Stale(id, cutoff) then photos[id].(status := Failed, updatedAt := now) else photos[id];
    }

    method DeleteOwned(id: PhotoId, user: UserId) returns (out: Option<DeletedPhoto>)
      modifies this
      ensures (Rows(), out) == old(Rows()).DeleteOwned(id, user)
    {
      if id !in photos || photos[id].event !in events || events[photos[id].event].user != user
         || events[photos[id].event].deleted {
        return None;
      }
      var p := photos[id];
      photos := photos - {id};
      var counted := false;
      if p.status != Uploading {
        var e := events[p.event];
        events := events[p.event := e.(photoCount := AtLeastZero(e.photoCount - 1),
                                       storageBytes := AtLeastZero(e.storageBytes - p.fileSize))];
        if e.user in users {
          users := users[e.user := AtLeastZero(users[e.user] - p.fileSize)];
        }
        counted := true;
      }
      return Some(DeletedPhoto(p.event, counted));
    }

    method PurgeEvent(e: EventId) returns (deleted: bool)
      modifies this
      ensures (Rows(), deleted) == old(Rows()).PurgeEvent(e)
    {
      if e !in events {
        return false;
      }
      var row := events[e];
      events := events - {e};
      photos := map id | id in photos && photos[id].event != e :: photos[id];
      if row.user in users {
        users := users[row.user := AtLeastZero(users[row.user] - row.storageBytes)];
      }
      return true;
    }
  }
}
