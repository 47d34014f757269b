/**
 What each step of an upload's life does to the rows, in the statuses, tests and amounts of the source's statements,
 and that a photo gets through to READY.
 */
module PhotoSteps {
  import opened Wrappers
  import opened PhotoRows
  import opened PhotoAccounting

  /** No photo but p differs. */
  ghost predicate OnlyPhoto(w: World, v: World, p: PhotoId) {
    v.db.photos.Keys == w.db.photos.Keys && forall q :: q in w.db.photos && q != p ==> v.db.photos[q] == w.db.photos[q]
  }

  /** The photo has the new status as of now; its event and size are what they were. */
  predicate Becomes(w: World, v: World, p: PhotoId, status: Status) {
    p in w.db.photos && p in v.db.photos && v.db.photos[p] == Photo(w.db.photos[p].event, w.db.photos[p].fileSize, status, w.now)
  }

  predicate SameCounters(w: World, v: World) {
    v.db.events == w.db.events && v.db.users == w.db.users
  }

  /** A worker that finishes makes its photo READY, if the row is still there, and changes nothing else in the rows. */
  lemma WorkerMakesReady(w: World, k: WorkerId)
    requires k in w.workers
    ensures var v, p := Next(w, WorkerReady(k)), w.workers[k];
            && (p in w.db.photos ==> Becomes(w, v, p, Ready)) && OnlyPhoto(w, v, p) && SameCounters(w, v)
            && v.workers == w.workers - {k}
  {
  }

  /** An abort fails every photo that is not READY, and no other. */
  lemma AbortFails(w: World, p: PhotoId)
    ensures var v := Next(w, Abort(p));
            && OnlyPhoto(w, v, p) && SameCounters(w, v)
            && (p in w.db.photos && w.db.photos[p].status in {Uploading, Processing, PhotoRows.Failed} ==> Becomes(w, v, p, PhotoRows.Failed))
            && (p in w.db.photos && w.db.photos[p].status == Ready ==> v.db.photos[p] == w.db.photos[p])
  {
  }

  /** A sweep fails the photos that are UPLOADING and were last touched before the cutoff, and no other. */
  lemma SweepFails(w: World, cutoff: int, p: PhotoId)
    requires p in w.db.photos
    ensures var v, row := Next(w, Sweep(cutoff)), w.db.photos[p];
            && SameCounters(w, v) && v.db.photos.Keys == w.db.photos.Keys
            && (row.status == Uploading && row.updatedAt < cutoff ==> Becomes(w, v, p, PhotoRows.Failed))
            && (row.status != Uploading || cutoff <= row.updatedAt ==> v.db.photos[p] == row)
  {
  }

  /** The event's counters and its owner's bytes have these new values, and no other event or user differs. */
  predicate CountersBecome(w: World, v: World, e: EventId, photoCount: int, storageBytes: int, ownerBytes: int) {
    e in w.db.events && w.db.events[e].user in w.db.users &&
    v.db.events == w.db.events[e := Event(w.db.events[e].user, photoCount, storageBytes, w.db.events[e].deleted)] &&
    v.db.users == w.db.users[w.db.events[e].user := ownerBytes]
  }

  function OwnerBytes(w: World, e: EventId): int
    requires e in w.db.events && w.db.events[e].user in w.db.users
  {
    w.db.users[w.db.events[e].user]
  }

  /**
   * In every reachable world a completed upload of the recorded size moves its photo from UPLOADING to PROCESSING and counts one photo
   * and its bytes; if the photo is no longer UPLOADING or the stored object has another size, no row changes.
   */
  lemma CompletionCounts(w: World, c: CallId, size: int)
    requires Protocol(w) && c in w.completes && w.completes[c].Loaded? && w.completes[c].photo in w.db.photos
    ensures var v, p := Next(w, CompleteMark(c, size)), w.completes[c].photo;
            var e := w.db.photos[p].event;
            e in w.db.events && w.db.events[e].user in w.db.users &&
            if w.db.photos[p].status == Uploading && size == w.db.photos[p].fileSize then
              Becomes(w, v, p, Processing) && OnlyPhoto(w, v, p) &&
              CountersBecome(w, v, e, w.db.events[e].photoCount + 1, w.db.events[e].storageBytes + size, OwnerBytes(w, e) + size)
            else v.db == w.db
  {
  }

  /**
   * In every reachable world the owner of an event that is not deleted takes a photo away, and nobody else does; unless it was
   * UPLOADING, one photo and its bytes are taken from the counters, none of which goes below zero.
   */
  lemma DeletionTakes(w: World, p: PhotoId, u: UserId)
    requires Protocol(w) && p in w.db.photos
    ensures var v, row := Next(w, Delete(p, u)), w.db.photos[p];
            && row.event in w.db.events && w.db.events[row.event].user in w.db.users
            && var event := w.db.events[row.event];
               if event.user != u || event.deleted then v == w
               else v.db.photos == w.db.photos - {p} &&
                    if row.status == Uploading then SameCounters(w, v)
                    else CountersBecome(w, v, row.event, NotBelowZero(event.photoCount - 1), NotBelowZero(event.storageBytes - row.fileSize),
                                        NotBelowZero(OwnerBytes(w, row.event) - row.fileSize))
  {
  }

  function NotBelowZero(x: int): (r: int)
    ensures r >= 0 && r >= x && (r == 0 || r == x)
  {
    if x >= 0 then x else 0
  }

  /** In every reachable world a purge takes the event, exactly its photos, and its bytes at its owner. */
  lemma PurgeTakes(w: World, e: EventId)
    requires Protocol(w) && e in w.db.events
    ensures var v, event := Next(w, Purge(e)), w.db.events[e];
            && v.db.events == w.db.events - {e} && event.user in w.db.users
            && (forall p :: p in v.db.photos <==> p in w.db.photos && w.db.photos[p].event != e)
            && (forall p :: p in v.db.photos ==> v.db.photos[p] == w.db.photos[p])
            && v.db.users == w.db.users[event.user := NotBelowZero(OwnerBytes(w, e) - event.storageBytes)]
  {
  }

  // ---------------------------------------------------------------- a photo gets through

  const UPLOAD: seq<Step> :=
    [SignUp(1), CreateEvent(1, 1), Initialize(1, 1, 10), CompleteLoad(1, 1), CompleteMark(1, 10), CompleteEnqueue(1), WorkerLoad(1, 1), WorkerReady(1)]

  lemma UploadBegins()
    ensures var w := After(UPLOAD, 4);
            && w.db == Db(map[1 := Photo(1, 10, Uploading, 0)], map[1 := Event(1, 0, 0, false)], map[1 := 0])
            && w.history == map[1 := History(0, 0, 0, 0)] && w.completes == map[1 := Loaded(1, 10)] && w.workers == map[] && w.now == 0
  {
    AfterNext(UPLOAD, 0);
    AfterNext(UPLOAD, 1);
    AfterNext(UPLOAD, 2);
    AfterNext(UPLOAD, 3);
    assert After(UPLOAD, 2).db == Db(map[], map[1 := Event(1, 0, 0, false)], map[1 := 0]);
  }

  lemma UploadMarks()
    ensures var w := After(UPLOAD, 5);
            && w.db == Db(map[1 := Photo(1, 10, Processing, 0)], map[1 := Event(1, 1, 10, false)], map[1 := 10])
            && w.completes == map[1 := Marked(1)] && 1 in w.history && w.history[1].jobs == 0 && w.workers == map[] && w.now == 0
  {
    UploadBegins();
    AfterNext(UPLOAD, 4);
    assert After(UPLOAD, 5) == AfterMark(After(UPLOAD, 4), 1, 10);
  }

  lemma UploadCompletes()
    ensures var w := After(UPLOAD, 6);
            && w.db == Db(map[1 := Photo(1, 10, Processing, 0)], map[1 := Event(1, 1, 10, false)], map[1 := 10])
            && 1 in w.history && w.history[1].jobs == 1 && w.workers == map[] && w.now == 0
  {
    UploadMarks();
    AfterNext(UPLOAD, 5);
  }

  lemma UploadIsTaken()
    ensures var w := After(UPLOAD, 7);
            && w.db == Db(map[1 := Photo(1, 10, Processing, 0)], map[1 := Event(1, 1, 10, false)], map[1 := 10])
            && w.workers == map[1 := 1] && w.now == 0
  {
    UploadCompletes();
    AfterNext(UPLOAD, 6);
  }

  /** An upload that is completed and processed ends READY and counted. */
  lemma ReadyHappens()
    ensures After(UPLOAD, 8).db == Db(map[1 := Photo(1, 10, Ready, 0)], map[1 := Event(1, 1, 10, false)], map[1 := 10])
  {
    UploadIsTaken();
    AfterNext(UPLOAD, 7);
  }
}
