/**
 The purge job: it deletes an event's objects before the event's row, so that a crash anywhere leaves
 nothing behind that a later run cannot find again.

 A run has a budget of calls to the database and the object store that succeed; when it is spent the run
 stops where it is, as it does on a crash or on the first error. Nothing else changes the rows or the store
 meanwhile; what does is the subject of PurgeRaces.
 */
module PurgeJob {
  import opened Wrappers
  import opened ObjectKeys
  import Orders
  import Rules = EventRules

  const PURGE_BATCH_SIZE := 100

  /** The keys a photo row records; an absent key is empty. */
  datatype PhotoRow = PhotoRow(event: Uuid, storageKey: string, thumbnailKey: string, mediumKey: string, optimizedKey: string) {
    predicate Records(k: string) {
      k != "" && (k == storageKey || k == thumbnailKey || k == mediumKey || k == optimizedKey)
    }
  }

  datatype ExportRow = ExportRow(event: Uuid, objectKey: string)

  datatype State = State(events: map<Uuid, Rules.Event>, photos: map<Uuid, PhotoRow>, exports: map<Uuid, ExportRow>,
                         objects: set<string>)

  predicate PhotoRecords(s: State, p: Uuid, e: Uuid, k: string) {
    p in s.photos && s.photos[p].event == e && s.photos[p].Records(k)
  }

  predicate ExportRecords(s: State, x: Uuid, e: Uuid, k: string) {
    x in s.exports && s.exports[x].event == e && s.exports[x].objectKey == k && k != ""
  }

  /** Some photo or export row of event e records the key. */
  ghost predicate Recorded(s: State, e: Uuid, k: string) {
    (exists p :: PhotoRecords(s, p, e, k)) || (exists x :: ExportRecords(s, x, e, k))
  }

  function PurgeableEvents(s: State, cutoff: int): set<Uuid> {
    set e | e in s.events && Rules.Purgeable(s.events[e], cutoff)
  }

  /** COALESCE(deleted_at, expires_at). */
  function PurgeOrder(s: State): map<Uuid, int> {
    map e | e in s.events :: if s.events[e].deletedAt.Some? then s.events[e].deletedAt.value
                             else if s.events[e].expiresAt.Some? then s.events[e].expiresAt.value else 0
  }

  /** The event's row and, by cascade, its photo and export rows are gone (migrations/0004_photos.sql:4, 0011_exports.sql:4). */
  function WithoutEvent(s: State, e: Uuid): State {
    State(s.events - {e}, map p | p in s.photos && s.photos[p].event != e :: s.photos[p],
          map x | x in s.exports && s.exports[x].event != e :: s.exports[x], s.objects)
  }

  class Store {
    var state: State

    constructor (state: State)
      ensures this.state == state
    {
      this.state := state;
    }

    method ListPurgeable(cutoff: int, limit: nat) returns (batch: seq<Uuid>)
      ensures Orders.IsBatch(batch, PurgeableEvents(state, cutoff), PurgeOrder(state), limit)
    {
      batch := Orders.Batch(PurgeableEvents(state, cutoff), PurgeOrder(state), limit);
    }

    /** All keys recorded for an event: the non-empty ones of its photos, then those of its exports. */
    method PurgeKeys(e: Uuid) returns (keys: seq<string>)
      ensures forall k :: k in keys <==> Recorded(state, e, k)
    {
      var photoKeys := PhotoKeys(e);
      var exportKeys := ExportKeys(e);
      keys := photoKeys + exportKeys;
    }

    method PhotoKeys(e: Uuid) returns (keys: seq<string>)
      ensures forall k :: k in keys <==> exists p :: PhotoRecords(state, p, e, k)
    {
      keys := [];
      var rows := state.photos.Keys;
      while rows != {}
        invariant rows <= state.photos.Keys
        invariant forall k :: k in keys <==> exists p :: p !in rows && PhotoRecords(state, p, e, k)
        decreases |rows|
      {
        var p :| p in rows;
        ghost var before := keys;
        if state.photos[p].event == e {
          keys := keys + NonEmpty([state.photos[p].storageKey, state.photos[p].thumbnailKey,
                                   state.photos[p].mediumKey, state.photos[p].optimizedKey]);
        }
        assert forall k :: k in keys <==> k in before || PhotoRecords(state, p, e, k);
        rows := rows - {p};
      }
    }

    method ExportKeys(e: Uuid) returns (keys: seq<string>)
      ensures forall k :: k in keys <==> exists x :: ExportRecords(state, x, e, k)
    {
      keys := [];
      var rows := state.exports.Keys;
      while rows != {}
        invariant rows <= state.exports.Keys
        invariant forall k :: k in keys <==> exists x :: x !in rows && ExportRecords(state, x, e, k)
        decreases |rows|
      {
        var x :| x in rows;
        ghost var before := keys;
        if state.exports[x].event == e && state.exports[x].objectKey != "" {
          keys := keys + [state.exports[x].objectKey];
        }
        assert forall k :: k in keys <==> k in before || ExportRecords(state, x, e, k);
        rows := rows - {x};
      }
    }

    /** store.Delete; an object that is already missing is no error. */
    method Delete(key: string)
      modifies this
      ensures state == old(state).(objects := old(state).objects - {key})
    {
      state := state.(objects := state.objects - {key});
    }

    method DeleteEvent(e: Uuid)
      modifies this
      ensures state == WithoutEvent(old(state), e)
    {
      state := State(state.events - {e}, map p | p in state.photos && state.photos[p].event != e :: state.photos[p],
                     map x | x in state.exports && state.exports[x].event != e :: state.exports[x], state.objects);
    }

    /** One event: its objects first, then its rows. `left` is what remains of the budget. */
    method PurgeEvent(e: Uuid, budget: Budget) returns (done: bool, left: Budget)
      modifies this
      ensures Within(left, budget) && (!done ==> budget.Some?)
      ensures PurgedOne(old(state), state, e, done)
    {
      if budget == Some(0) { return false, budget; }
      left := Spend(budget);
      var keys := PurgeKeys(e);
      var i := 0;
      while i < |keys|
        invariant 0 <= i <= |keys| && Within(left, budget)
        invariant state == old(state).(objects := state.objects)
        invariant state.objects <= old(state).objects
        invariant forall k :: k in old(state).objects && k !in keys ==> k in state.objects
        invariant forall k :: k in keys[..i] ==> k !in state.objects
      {
        if left == Some(0) { return false, left; }
        Delete(keys[i]);
        left := Spend(left);
        i := i + 1;
      }
      if left == Some(0) { return false, left; }
      DeleteEvent(e);
      return true, Spend(left);
    }

    /** One batch, event by event. */
    method PurgeBatch(batch: seq<Uuid>, cutoff: int, budget: Budget) returns (done: bool, left: Budget)
      requires Purgeables(state, cutoff, batch)
      modifies this
      ensures Within(left, budget) && (!done ==> budget.Some?)
      ensures PurgedSome(old(state), state, cutoff)
      ensures done ==> forall e :: e in state.events <==> e in old(state).events && e !in batch
    {
      left := budget;
      var i := 0;
      NothingPurged(state, cutoff);
      while i < |batch|
        invariant 0 <= i <= |batch| && Within(left, budget)
        invariant PurgedSome(old(state), state, cutoff)
        invariant forall e :: e in state.events <==> e in old(state).events && e !in batch[..i]
      {
        ghost var prior := state;
        assert batch[i] !in batch[..i];
        StillPurgeable(old(state), prior, cutoff, batch[i]);
        done, left := PurgeEvent(batch[i], left);
        OneMorePurged(old(state), prior, state, batch[i], cutoff, done);
        if !done { return; }
        i := i + 1;
      }
      done := true;
    }

    /** The job, in batches until one comes back short, or until the budget is spent. */
    method PurgeHandler(cutoff: int, batchSize: nat, budget: Budget) returns (completed: bool)
      requires 1 <= batchSize
      modifies this
      ensures PurgedSome(old(state), state, cutoff)
      ensures completed ==> AllPurged(old(state), state, cutoff)
      ensures budget.None? ==> completed
    {
      var left: Budget := budget;
      NothingPurged(state, cutoff);
      while true
        invariant PurgedSome(old(state), state, cutoff)
        invariant Within(left, budget)
        decreases if left.Some? then left.value else |state.events|
      {
        if left == Some(0) { return false; }
        ghost var before := state;
        var batch := ListPurgeable(cutoff, batchSize);
        var done;
        done, left := PurgeBatch(batch, cutoff, Spend(left));
        PurgedTwice(old(state), before, state, cutoff);
        if !done { return false; }
        if |batch| < batchSize {
          LastBatch(before, state, cutoff, batch);
          NonePurgeable(old(state), state, cutoff);
          return true;
        }
        FewerEvents(before, state, batch);
      }
    }
  }

  /** How many more calls succeed; None when nothing goes wrong. */
  type Budget = Option<nat>

  predicate Within(left: Budget, budget: Budget) {
    if budget.None? then left.None? else left.Some? && left.value <= budget.value
  }

  function Spend(b: Budget): (r: Budget)
    requires b != Some(0)
    ensures Within(r, b) && (b.Some? ==> r.value < b.value)
  {
    if b.None? then None else Some(b.value - 1)
  }

  predicate Purgeables(s: State, cutoff: int, batch: seq<Uuid>) {
    (forall i, j :: 0 <= i < j < |batch| ==> batch[i] != batch[j]) &&
    (forall i :: 0 <= i < |batch| ==> batch[i] in PurgeableEvents(s, cutoff))
  }

  predicate Gone(s: State, t: State, e: Uuid) {
    e in s.events && e !in t.events
  }

  /** From s to t the rows of some events have gone, photos and exports with them, and no other row has changed. */
  ghost predicate RowsGone(s: State, t: State) {
    (forall e :: e in t.events ==> e in s.events && t.events[e] == s.events[e]) &&
    (forall p :: p in t.photos <==> p in s.photos && !Gone(s, t, s.photos[p].event)) &&
    (forall p :: p in t.photos ==> t.photos[p] == s.photos[p]) &&
    (forall x :: x in t.exports <==> x in s.exports && !Gone(s, t, s.exports[x].event)) &&
    (forall x :: x in t.exports ==> t.exports[x] == s.exports[x])
  }

  /** An event that has gone has none of the objects it recorded; any other object that has gone was recorded by a purgeable event. */
  ghost predicate ObjectsGone(s: State, t: State, cutoff: int) {
    t.objects <= s.objects &&
    (forall e, k :: Gone(s, t, e) && Recorded(s, e, k) ==> k !in t.objects) &&
    (forall k :: k in s.objects && k !in t.objects ==> RecordedByPurgeable(s, cutoff, k))
  }

  ghost predicate RecordedByPurgeable(s: State, cutoff: int, k: string) {
    exists e :: e in PurgeableEvents(s, cutoff) && Recorded(s, e, k)
  }

  /** What any run of the job may do, wherever it stops. */
  ghost predicate PurgedSome(s: State, t: State, cutoff: int) {
    RowsGone(s, t) && ObjectsGone(s, t, cutoff) && forall e :: Gone(s, t, e) ==> e in PurgeableEvents(s, cutoff)
  }

  /** What purging one event may do: some of its objects go first; its rows go only when all of them have. */
  ghost predicate PurgedOne(s: State, t: State, e: Uuid, done: bool) {
    t.objects <= s.objects &&
    (forall k :: k in s.objects && k !in t.objects ==> Recorded(s, e, k)) &&
    if done then t == WithoutEvent(s, e).(objects := t.objects) && forall k :: Recorded(s, e, k) ==> k !in t.objects
    else t == s.(objects := t.objects)
  }

  lemma NothingPurged(s: State, cutoff: int)
    ensures PurgedSome(s, s, cutoff)
  {
  }

  lemma StillPurgeable(s: State, t: State, cutoff: int, e: Uuid)
    requires RowsGone(s, t) && e in t.events
    ensures e in PurgeableEvents(t, cutoff) <==> e in PurgeableEvents(s, cutoff)
  {
  }

  /** The rows of an event that is still there record what they always did. */
  lemma RecordsKept(s: State, t: State, e: Uuid, k: string)
    requires RowsGone(s, t) && !Gone(s, t, e)
    ensures Recorded(t, e, k) <==> Recorded(s, e, k)
  {
    assert forall p :: PhotoRecords(t, p, e, k) <==> PhotoRecords(s, p, e, k);
    assert forall x :: ExportRecords(t, x, e, k) <==> ExportRecords(s, x, e, k);
  }

  lemma RowsGoneTwice(s: State, t: State, u: State)
    requires RowsGone(s, t) && RowsGone(t, u)
    ensures RowsGone(s, u)
  {
    assert forall e :: Gone(s, u, e) <==> Gone(s, t, e) || Gone(t, u, e);
  }

  lemma ObjectsGoneTwice(s: State, t: State, u: State, cutoff: int)
    requires PurgedSome(s, t, cutoff) && PurgedSome(t, u, cutoff)
    ensures ObjectsGone(s, u, cutoff)
  {
    forall e, k | Gone(s, u, e) && Recorded(s, e, k) ensures k !in u.objects {
      if e in t.events {
        RecordsKept(s, t, e, k);
      }
    }
    forall k | k in s.objects && k !in u.objects ensures RecordedByPurgeable(s, cutoff, k) {
      if k in t.objects {
        var e :| e in PurgeableEvents(t, cutoff) && Recorded(t, e, k);
        RecordsKept(s, t, e, k);
        StillPurgeable(s, t, cutoff, e);
      }
    }
  }

  lemma PurgedTwice(s: State, t: State, u: State, cutoff: int)
    requires PurgedSome(s, t, cutoff) && PurgedSome(t, u, cutoff)
    ensures PurgedSome(s, u, cutoff)
  {
    RowsGoneTwice(s, t, u);
    ObjectsGoneTwice(s, t, u, cutoff);
    forall e | Gone(s, u, e) ensures e in PurgeableEvents(s, cutoff) {
      if e in t.events {
        StillPurgeable(s, t, cutoff, e);
      }
    }
  }

  lemma OneMorePurged(s: State, t: State, u: State, e: Uuid, cutoff: int, done: bool)
    requires PurgedSome(s, t, cutoff) && e in PurgeableEvents(t, cutoff) && PurgedOne(t, u, e, done)
    ensures PurgedSome(s, u, cutoff)
  {
    assert forall d :: Gone(t, u, d) <==> done && d == e;
    assert RowsGone(t, u);
    assert forall k :: k in t.objects && k !in u.objects ==> RecordedByPurgeable(t, cutoff, k);
    PurgedTwice(s, t, u, cutoff);
  }

  /** When a batch was short it held every purgeable event, so none is left. */
  lemma LastBatch(s: State, t: State, cutoff: int, batch: seq<Uuid>)
    requires RowsGone(s, t) && forall e :: e in t.events <==> e in s.events && e !in batch
    requires forall e :: e in PurgeableEvents(s, cutoff) ==> e in batch
    ensures forall e :: e !in PurgeableEvents(t, cutoff)
  {
    forall e | e in t.events ensures e !in PurgeableEvents(t, cutoff) {
      StillPurgeable(s, t, cutoff, e);
    }
  }

  /** Exactly the purgeable events have gone, and none is left to purge. */
  ghost predicate AllPurged(s: State, t: State, cutoff: int) {
    (forall e :: e in t.events <==> e in s.events && e !in PurgeableEvents(s, cutoff)) &&
    (forall e :: e !in PurgeableEvents(t, cutoff))
  }

  lemma NonePurgeable(s: State, t: State, cutoff: int)
    requires PurgedSome(s, t, cutoff) && forall e :: e !in PurgeableEvents(t, cutoff)
    ensures AllPurged(s, t, cutoff)
  {
    forall e | e in s.events ensures e in t.events <==> e !in PurgeableEvents(s, cutoff) {
      if e in t.events {
        StillPurgeable(s, t, cutoff, e);
      } else {
        assert Gone(s, t, e);
      }
    }
  }

  lemma FewerEvents(s: State, t: State, batch: seq<Uuid>)
    requires batch != [] && batch[0] in s.events && forall e :: e in t.events <==> e in s.events && e !in batch
    ensures |t.events| < |s.events|
  {
    assert t.events.Keys <= s.events.Keys - {batch[0]};
    Orders.Smaller(t.events.Keys, s.events.Keys - {batch[0]});
  }

  function NonEmpty(keys: seq<string>): (r: seq<string>)
    ensures forall k :: k in r <==> k in keys && k != ""
  {
    if keys == [] then [] else (if keys[0] == "" then [] else [keys[0]]) + NonEmpty(keys[1..])
  }

  // ---------------------------------------------------------------- what a crash leaves behind

  /** Every object is recorded by a row of an event that exists. */
  ghost predicate NoOrphans(s: State) {
    forall k :: k in s.objects ==> exists e :: e in s.events && Recorded(s, e, k)
  }

  /** No run of the job, wherever it stops, leaves an object that no row records. */
  lemma NoOrphansLeft(s: State, t: State, cutoff: int)
    requires NoOrphans(s) && PurgedSome(s, t, cutoff)
    ensures NoOrphans(t)
  {
    forall k | k in t.objects ensures exists e :: e in t.events && Recorded(t, e, k) {
      var e :| e in s.events && Recorded(s, e, k);
      assert !Gone(s, t, e);
      RecordsKept(s, t, e, k);
    }
  }

  /**
   * What a run leaves, in dates, statuses and keys: an event goes only if it was deleted, or had expired, by the cutoff, and
   * then none of the objects that its photos' four keys or its exports' keys name is left; a run that completes takes all such events.
   */
  lemma PurgedMeans(s: State, t: State, cutoff: int, e: Uuid)
    requires PurgedSome(s, t, cutoff) && e in s.events
    ensures e !in t.events ==> IsOver(s.events[e], cutoff)
    ensures AllPurged(s, t, cutoff) ==> (e !in t.events <==> IsOver(s.events[e], cutoff))
    ensures e !in t.events ==> forall p :: p in s.photos && s.photos[p].event == e ==> NoneOf(s.photos[p], t.objects) && p !in t.photos
    ensures e !in t.events ==> forall x :: x in s.exports && s.exports[x].event == e ==>
              (s.exports[x].objectKey == "" || s.exports[x].objectKey !in t.objects) && x !in t.exports
    ensures e in t.events ==> t.events[e] == s.events[e]
  {
    if e !in t.events {
      assert Gone(s, t, e);
      forall p | p in s.photos && s.photos[p].event == e ensures NoneOf(s.photos[p], t.objects) {
        forall k | k in [s.photos[p].storageKey, s.photos[p].thumbnailKey, s.photos[p].mediumKey, s.photos[p].optimizedKey] && k != ""
          ensures k !in t.objects
        {
          assert PhotoRecords(s, p, e, k);
        }
      }
      forall x | x in s.exports && s.exports[x].event == e && s.exports[x].objectKey != "" ensures s.exports[x].objectKey !in t.objects {
        assert ExportRecords(s, x, e, s.exports[x].objectKey);
      }
    }
  }

  predicate IsOver(e: Rules.Event, cutoff: int) {
    (e.deletedAt.Some? && e.deletedAt.value <= cutoff) ||
    (e.status == Rules.Expired && e.expiresAt.Some? && e.expiresAt.value <= cutoff)
  }

  /** When an event was deleted, or else expired. */
  predicate OverSince(e: Rules.Event, at: int) {
    (e.deletedAt == Some(at)) || (e.deletedAt == None && e.expiresAt == Some(at))
  }

  /** A batch lists events that are over; if one is left out, the batch is full and lists none that was over later. */
  lemma LongestOverFirst(s: State, cutoff: int, limit: nat, batch: seq<Uuid>, a: Uuid, b: Uuid, before: int, after: int)
    requires Orders.IsBatch(batch, PurgeableEvents(s, cutoff), PurgeOrder(s), limit)
    ensures a in batch ==> a in s.events && IsOver(s.events[a], cutoff)
    ensures b in s.events && IsOver(s.events[b], cutoff) && b !in batch ==> |batch| == limit
    ensures a in batch && b in s.events && IsOver(s.events[b], cutoff) && b !in batch ==>
              (OverSince(s.events[a], before) && OverSince(s.events[b], after) ==> before <= after)
  {
    assert forall i :: 0 <= i < |batch| ==> batch[i] in PurgeableEvents(s, cutoff);
    assert b in s.events && IsOver(s.events[b], cutoff) ==> b in PurgeableEvents(s, cutoff);
  }

  predicate NoneOf(row: PhotoRow, objects: set<string>) {
    forall k :: k in [row.storageKey, row.thumbnailKey, row.mediumKey, row.optimizedKey] && k != "" ==> k !in objects
  }

  // ---------------------------------------------------------------- whose keys they are

  predicate OriginalOf(k: string, e: Uuid, user: Uuid, item: Uuid, filename: string) {
    k == OriginalKey(user, e, item, filename)
  }

  predicate DerivedOf(k: string, e: Uuid, p: Uuid, kind: string, user: Uuid) {
    IsSegment(kind) && k == DerivedKey(user, e, p, kind)
  }

  predicate ExportOf(k: string, e: Uuid, x: Uuid, user: Uuid) {
    k == ExportKey(user, e, x)
  }

  ghost predicate IsDerived(k: string, e: Uuid, p: Uuid, kind: string) {
    exists user :: DerivedOf(k, e, p, kind, user)
  }

  /** The key of an original of event e. Its item is drawn for the key alone and is not the id of the photo's row. */
  ghost predicate IsOriginal(k: string, e: Uuid) {
    exists user, item, filename :: OriginalOf(k, e, user, item, filename)
  }

  /** A key built for photo p of event e: that of an original, or of one of the derivatives, which do carry the row's id. */
  ghost predicate IsPhotoKey(k: string, e: Uuid, p: Uuid) {
    IsOriginal(k, e) ||
    IsDerived(k, e, p, "thumbnails") || IsDerived(k, e, p, "medium") || IsDerived(k, e, p, "optimized")
  }

  ghost predicate IsExportKey(k: string, e: Uuid, x: Uuid) {
    exists user :: ExportOf(k, e, x, user)
  }

  /** Every key in a row was built for it: an original's for its event, a derivative's or an export's for the row itself. */
  ghost predicate HandedOut(s: State) {
    (forall p, k :: p in s.photos && s.photos[p].Records(k) ==> IsPhotoKey(k, s.photos[p].event, p)) &&
    (forall x :: x in s.exports && s.exports[x].objectKey != "" ==> IsExportKey(s.exports[x].objectKey, s.exports[x].event, x))
  }

  predicate Under(k: string, e: Uuid, u: Uuid) {
    EventPrefix(u, e) <= k
  }

  ghost predicate UnderEvent(k: string, e: Uuid) {
    exists u: Uuid :: Under(k, e, u)
  }

  lemma PhotoKeyUnder(k: string, e: Uuid, p: Uuid)
    requires IsPhotoKey(k, e, p)
    ensures UnderEvent(k, e)
  {
    if user, item, filename :| OriginalOf(k, e, user, item, filename) {
      KeysHavePrefix(user, e, item, filename, "medium");
      assert Under(k, e, user);
    } else {
      var kind := if IsDerived(k, e, p, "thumbnails") then "thumbnails" else if IsDerived(k, e, p, "medium") then "medium" else "optimized";
      var user :| DerivedOf(k, e, p, kind, user);
      KeysHavePrefix(user, e, p, "", kind);
      assert Under(k, e, user);
    }
  }

  lemma ExportKeyUnder(k: string, e: Uuid, x: Uuid)
    requires IsExportKey(k, e, x)
    ensures UnderEvent(k, e)
  {
    var user :| ExportOf(k, e, x, user);
    KeysHavePrefix(user, e, x, "", "exports");
    assert Under(k, e, user);
  }

  /** Every recorded key lies under the prefix of its event. */
  lemma RecordedUnder(s: State, e: Uuid, k: string)
    requires HandedOut(s) && Recorded(s, e, k)
    ensures UnderEvent(k, e)
  {
    if p :| PhotoRecords(s, p, e, k) {
      PhotoKeyUnder(k, e, p);
    } else {
      var x :| ExportRecords(s, x, e, k);
      ExportKeyUnder(k, e, x);
    }
  }

  lemma OneEventPerKey(k: string, d: Uuid, e: Uuid)
    requires UnderEvent(k, d) && UnderEvent(k, e)
    ensures d == e
  {
    var u: Uuid :| Under(k, d, u);
    var u': Uuid :| Under(k, e, u');
    PrefixTellsEvent(k, u, d, u', e);
  }

  /** What the source writes into the rows: an uploaded photo, a photo's derivatives, an export's archive. */
  datatype Write =
    | Initialize(p: Uuid, e: Uuid, user: Uuid, item: Uuid, filename: string)
    | Derive(p: Uuid, user: Uuid)
    | Archive(x: Uuid, user: Uuid)

  predicate CanWrite(s: State, w: Write) {
    match w
    case Initialize(p, e, _, _, _) => p !in s.photos && e in s.events
    case Derive(p, _) => p in s.photos
    case Archive(x, _) => x in s.exports
  }

  function Written(s: State, w: Write): State
    requires CanWrite(s, w)
  {
    match w
    case Initialize(p, e, user, item, filename) => s.(photos := s.photos[p := PhotoRow(e, OriginalKey(user, e, item, filename), "", "", "")])
    case Derive(p, user) =>
      var row := s.photos[p];
      s.(photos := s.photos[p := row.(thumbnailKey := DerivedKey(user, row.event, p, "thumbnails"),
                                      mediumKey := DerivedKey(user, row.event, p, "medium"),
                                      optimizedKey := DerivedKey(user, row.event, p, "optimized"))])
    case Archive(x, user) => s.(exports := s.exports[x := s.exports[x].(objectKey := ExportKey(user, s.exports[x].event, x))])
  }

  lemma InitializeHandsOut(s: State, w: Write)
    requires HandedOut(s) && CanWrite(s, w) && w.Initialize?
    ensures HandedOut(Written(s, w))
  {
    var t := Written(s, w);
    assert OriginalOf(t.photos[w.p].storageKey, w.e, w.user, w.item, w.filename);
  }

  lemma DeriveHandsOut(s: State, w: Write)
    requires HandedOut(s) && CanWrite(s, w) && w.Derive?
    ensures HandedOut(Written(s, w))
  {
    var t := Written(s, w);
    var row := t.photos[w.p];
    assert DerivedOf(row.thumbnailKey, row.event, w.p, "thumbnails", w.user);
    assert DerivedOf(row.mediumKey, row.event, w.p, "medium", w.user);
    assert DerivedOf(row.optimizedKey, row.event, w.p, "optimized", w.user);
    assert row.storageKey == s.photos[w.p].storageKey && row.event == s.photos[w.p].event;
    assert row.storageKey != "" ==> s.photos[w.p].Records(row.storageKey);
  }

  /** Whatever uploads, derivatives and archives are recorded, rows hold only keys that were handed out for them. */
  lemma WritesHandOut(s: State, w: Write)
    requires HandedOut(s) && CanWrite(s, w)
    ensures HandedOut(Written(s, w))
  {
    if w.Initialize? {
      InitializeHandsOut(s, w);
    } else if w.Derive? {
      DeriveHandsOut(s, w);
    } else {
      var t := Written(s, w);
      assert ExportOf(t.exports[w.x].objectKey, t.exports[w.x].event, w.x, w.user);
    }
  }

  /** The rows that remain still hold the keys that were handed out. */
  lemma HandedOutStays(s: State, t: State)
    requires HandedOut(s) && RowsGone(s, t)
    ensures HandedOut(t)
  {
    forall p, k | p in t.photos && t.photos[p].Records(k) ensures IsPhotoKey(k, t.photos[p].event, p) {
      assert p in s.photos && s.photos[p] == t.photos[p];
    }
  }

  /** The objects of an event that is not purgeable are never touched, wherever the job stops. */
  lemma OthersUntouched(s: State, t: State, cutoff: int, e: Uuid, k: string)
    requires HandedOut(s) && PurgedSome(s, t, cutoff)
    requires Recorded(s, e, k) && e !in PurgeableEvents(s, cutoff)
    ensures k in s.objects <==> k in t.objects
    ensures HandedOut(t)
  {
    HandedOutStays(s, t);
    if k in s.objects && k !in t.objects {
      var d :| d in PurgeableEvents(s, cutoff) && Recorded(s, d, k);
      RecordedUnder(s, d, k);
      RecordedUnder(s, e, k);
      OneEventPerKey(k, d, e);
    }
  }

  // ---------------------------------------------------------------- runs of the job

  /** Runs of the job one after another, each stopped anywhere. */
  ghost predicate Runs(states: seq<State>, cutoffs: seq<int>) {
    |states| == |cutoffs| + 1 && forall i :: 0 <= i < |cutoffs| ==> PurgedSome(states[i], states[i + 1], cutoffs[i])
  }

  /** Over interrupted runs with nothing else in between: no orphan appears, and an event that is gone has none of its objects left. */
  lemma {:induction false} UndisturbedRunsAreSafe(states: seq<State>, cutoffs: seq<int>)
    requires Runs(states, cutoffs)
    ensures var s, t := states[0], states[|cutoffs|];
            && t.objects <= s.objects
            && (NoOrphans(s) ==> NoOrphans(t))
            && (forall e :: e in t.events ==> e in s.events)
            && (forall e, k :: e in t.events ==> (Recorded(t, e, k) <==> Recorded(s, e, k)))
            && (forall e, k :: Gone(s, t, e) && Recorded(s, e, k) ==> k !in t.objects)
    decreases |cutoffs|
  {
    if cutoffs != [] {
      var n := |cutoffs| - 1;
      UndisturbedRunsAreSafe(states[..n + 1], cutoffs[..n]);
      var s, m, t := states[0], states[n], states[n + 1];
      if NoOrphans(m) { NoOrphansLeft(m, t, cutoffs[n]); }
      forall e, k | e in t.events ensures Recorded(t, e, k) <==> Recorded(s, e, k) {
        RecordsKept(m, t, e, k);
      }
      forall e, k | Gone(s, t, e) && Recorded(s, e, k) ensures k !in t.objects {
        if e in m.events {
          assert Gone(m, t, e) && Recorded(m, e, k);
        }
      }
    }
  }
}
