/**
 The purge job beside everything that may put an object meanwhile: clients with presigned URLs, workers and exports.

 One database statement, one signature or one call to the object store is a step; a step that is not enabled changes
 nothing. A put lands while its URL is good. A multipart upload has no URL for its object; completing it puts the object
 (Read, then Act), and its row comes with Rows. `grace` is how long a purgeable event is kept.
 */
module PurgeRaces {
  import opened Wrappers
  import opened ObjectKeys
  import opened PurgeJob
  import Induction
  import Rules = EventRules

  /** How long a presigned URL is good. */
  const PRESIGN_TTL := 900

  /**
   * A call that has looked at the rows and is still to act on what it saw. `checked` is when it found the event open,
   * if it looked: initialize does, a request for a fresh URL does not.
   */
  datatype Call =
    | Opened(event: Uuid, at: int)
    | Signing(event: Uuid, key: string, checked: Option<int>)
    | Putting(event: Uuid, key: string)

  /** The URL signed last for a key: every earlier one ends sooner. */
  datatype Url = Url(event: Uuid, signedAt: int, checked: Option<int>)

  /** The purge of a listed event, by the job that started at `start`; the keys are None until they have been read. */
  datatype Job = Job(start: int, keys: Option<set<string>>)

  /** `uploading` are the photos of simple uploads whose rows are UPLOADING, `used` the ids events have ever had. */
  datatype World = World(state: State, uploading: set<Uuid>, now: int, urls: map<string, Url>, calls: map<int, Call>,
                         jobs: map<Uuid, Job>, used: set<Uuid>)

  datatype Step =
    | Tick(delay: nat)
    | Rows(next: State, uploading: set<Uuid>)                      // any other change of rows
    | Check(c: int, e: Uuid)                                       // initialize finds the event open
    | Insert(c: int, p: Uuid, user: Uuid, item: Uuid, filename: string) // … and records the photo
    | Replay(c: int, p: Uuid)                                      // … or finds the photo of its idempotency key
    | Ask(c: int, p: Uuid)                                         // a fresh URL for a photo still UPLOADING
    | Read(c: int, e: Uuid, k: string)                             // a worker, export or multipart completion reads its row
    | Act(c: int)                                                  // the call signs or puts
    | Quit(c: int)
    | Put(k: string)                                               // a client puts, with a URL that is good
    | Delete(k: string)                                            // any other deletion of an object
    | List(e: Uuid, start: int)
    | ReadKeys(e: Uuid)
    | DeleteNext(e: Uuid, k: string)
    | DropRow(e: Uuid)

  /** Whether an event takes new uploads. */
  predicate Accepts(ev: Rules.Event, now: int) {
    ev.deletedAt.None? && ev.status != Rules.Archived && ev.status != Rules.Expired
    && (ev.expiresAt.Some? ==> ev.expiresAt.value > now)
  }

  predicate Good(w: World, k: string) {
    k in w.urls && w.now <= w.urls[k].signedAt + PRESIGN_TTL
  }

  /** Rows hold keys that were handed out, a photo has a storage key, and foreign keys hold. */
  ghost predicate RowsOk(s: State) {
    HandedOut(s) && (forall p :: p in s.photos ==> s.photos[p].event in s.events && s.photos[p].storageKey != "") &&
    (forall x :: x in s.exports ==> s.exports[x].event in s.events)
  }

  /** Rows change in any way, except that an event goes only by being purged, and ids are not used again. */
  ghost predicate RowsMay(w: World, t: State) {
    RowsOk(t) && t.objects == w.state.objects && w.state.events.Keys <= t.events.Keys &&
    (forall e :: e in t.events && e !in w.state.events ==> e !in w.used)
  }

  /** A key built for a photo or an export that has a row. */
  ghost predicate MadeFor(s: State, e: Uuid, k: string) {
    (exists p :: p in s.photos && s.photos[p].event == e && IsPhotoKey(k, e, p)) ||
    (exists x :: x in s.exports && s.exports[x].event == e && IsExportKey(k, e, x))
  }

  function KeysOf(row: PhotoRow): set<string> {
    {row.storageKey, row.thumbnailKey, row.mediumKey, row.optimizedKey}
  }

  function PhotoKeySet(s: State): set<string> {
    set p, k | p in s.photos && k in KeysOf(s.photos[p]) :: k
  }

  function ExportKeySet(s: State): set<string> {
    set x | x in s.exports :: s.exports[x].objectKey
  }

  ghost function RecordedKeys(s: State, e: Uuid): (r: set<string>)
    ensures forall k :: k in r <==> Recorded(s, e, k)
  {
    assert forall p, k :: PhotoRecords(s, p, e, k) ==> k in KeysOf(s.photos[p]);
    set k | k in PhotoKeySet(s) + ExportKeySet(s) && Recorded(s, e, k)
  }

  function WithObject(s: State, k: string): State {
    s.(objects := s.objects + {k})
  }

  function WithoutObject(s: State, k: string): State {
    s.(objects := s.objects - {k})
  }

  predicate CanDelete(w: World, e: Uuid, k: string) {
    e in w.jobs && w.jobs[e].keys.Some? && k in w.jobs[e].keys.value
  }

  /** All keys that the job has read are deleted, so the row goes next. */
  predicate CanDrop(w: World, e: Uuid) {
    e in w.jobs && w.jobs[e].keys == Some({})
  }

  function Acted(w: World, c: int): World
    requires c in w.calls
  {
    match w.calls[c]
    case Opened(_, _) => w
    case Signing(e, k, checked) => w.(urls := w.urls[k := Url(e, w.now, checked)], calls := w.calls - {c})
    case Putting(e, k) => w.(state := WithObject(w.state, k), calls := w.calls - {c})
  }

  ghost function Next(grace: nat, w: World, s: Step): World {
    match s
    case Tick(d) => w.(now := w.now + d)
    case Rows(t, uploading) => if RowsMay(w, t) then w.(state := t, uploading := uploading, used := w.used + t.events.Keys) else w
    case Check(c, e) =>
      if c !in w.calls && e in w.state.events && Accepts(w.state.events[e], w.now) then w.(calls := w.calls[c := Opened(e, w.now)]) else w
    case Insert(c, p, user, item, filename) =>
      if c in w.calls && w.calls[c].Opened? && w.calls[c].event in w.state.events && p !in w.state.photos then
        Inserted(w, c, p, OriginalKey(user, w.calls[c].event, item, filename))
      else w
    case Replay(c, p) =>
      if c in w.calls && w.calls[c].Opened? && p in w.state.photos && w.state.photos[p].event == w.calls[c].event then
        w.(calls := w.calls[c := Signing(w.calls[c].event, w.state.photos[p].storageKey, Some(w.calls[c].at))])
      else w
    case Ask(c, p) =>
      if c !in w.calls && p in w.state.photos && p in w.uploading then
        w.(calls := w.calls[c := Signing(w.state.photos[p].event, w.state.photos[p].storageKey, None)])
      else w
    case Read(c, e, k) => if c !in w.calls && MadeFor(w.state, e, k) then w.(calls := w.calls[c := Putting(e, k)]) else w
    case Act(c) => if c in w.calls then Acted(w, c) else w
    case Quit(c) => w.(calls := w.calls - {c})
    case Put(k) => if Good(w, k) then w.(state := WithObject(w.state, k)) else w
    case Delete(k) => w.(state := WithoutObject(w.state, k))
    case List(e, start) =>
      if e in w.state.events && start <= w.now && Rules.Purgeable(w.state.events[e], start - grace) then
        w.(jobs := w.jobs[e := Job(start, None)])
      else w
    case ReadKeys(e) => if e in w.jobs then w.(jobs := w.jobs[e := Job(w.jobs[e].start, Some(RecordedKeys(w.state, e)))]) else w
    case DeleteNext(e, k) =>
      if CanDelete(w, e, k) then
        w.(state := WithoutObject(w.state, k), jobs := w.jobs[e := Job(w.jobs[e].start, Some(w.jobs[e].keys.value - {k}))])
      else w
    case DropRow(e) => if CanDrop(w, e) then w.(state := WithoutEvent(w.state, e), jobs := w.jobs - {e}) else w
  }

  function Inserted(w: World, c: int, p: Uuid, key: string): World
    requires c in w.calls && w.calls[c].Opened?
  {
    var e := w.calls[c].event;
    w.(state := w.state.(photos := w.state.photos[p := PhotoRow(e, key, "", "", "")]), uploading := w.uploading + {p},
       calls := w.calls[c := Signing(e, key, Some(w.calls[c].at))])
  }

  ghost function Run(grace: nat, w: World, steps: seq<Step>): World
    decreases |steps|
  {
    if steps == [] then w else Next(grace, Run(grace, w, steps[..|steps| - 1]), steps[|steps| - 1])
  }

  lemma RunNext(grace: nat, w: World, steps: seq<Step>, s: Step)
    ensures Run(grace, w, steps + [s]) == Next(grace, Run(grace, w, steps), s)
  {
    assert (steps + [s])[..|steps|] == steps;
  }

  // ---------------------------------------------------------------- what every run keeps

  ghost predicate Inv(w: World) {
    RowsOk(w.state) && w.state.events.Keys <= w.used && (forall e :: e in w.jobs ==> w.jobs[e].start <= w.now)
  }

  lemma InsertKeeps(w: World, c: int, p: Uuid, user: Uuid, item: Uuid, filename: string)
    requires RowsOk(w.state) && c in w.calls && w.calls[c].Opened? && w.calls[c].event in w.state.events && p !in w.state.photos
    ensures RowsOk(Inserted(w, c, p, OriginalKey(user, w.calls[c].event, item, filename)).state)
  {
    InitializeHandsOut(w.state, Initialize(p, w.calls[c].event, user, item, filename));
    OriginalUnder(OriginalKey(user, w.calls[c].event, item, filename), w.calls[c].event, user, item, filename);
  }

  lemma DropRows(s: State, e: Uuid)
    requires RowsOk(s)
    ensures RowsGone(s, WithoutEvent(s, e))
  {
    var t := WithoutEvent(s, e);
    assert forall d :: Gone(s, t, d) <==> d == e && e in s.events;
  }

  lemma DropKeeps(s: State, e: Uuid)
    requires RowsOk(s)
    ensures RowsOk(WithoutEvent(s, e))
  {
    DropRows(s, e);
    HandedOutStays(s, WithoutEvent(s, e));
  }

  lemma RowsOkStep(grace: nat, w: World, s: Step)
    requires RowsOk(w.state)
    ensures RowsOk(Next(grace, w, s).state)
  {
    match s
    case Insert(c, p, user, item, filename) =>
      if Next(grace, w, s) != w { InsertKeeps(w, c, p, user, item, filename); }
    case DropRow(e) => DropKeeps(w.state, e);
    case _ =>
  }

  lemma InvStep(grace: nat, w: World, s: Step)
    requires Inv(w)
    ensures Inv(Next(grace, w, s))
  {
    RowsOkStep(grace, w, s);
  }

  /** An upload finds an event open if it is there, upcoming, active or completed, not deleted, and not past its expiry. */
  lemma CheckMeans(grace: nat, w: World, c: int, e: Uuid)
    requires c !in w.calls
    ensures var open := e in w.state.events && w.state.events[e].deletedAt == None &&
                        w.state.events[e].status in {Rules.Upcoming, Rules.Active, Rules.Completed} &&
                        (w.state.events[e].expiresAt == None || w.state.events[e].expiresAt.value > w.now);
            Next(grace, w, Check(c, e)) == if open then w.(calls := w.calls[c := Opened(e, w.now)]) else w
  {
  }

  /** A client's put succeeds within the 900 seconds after the URL was signed. */
  lemma PutMeans(grace: nat, w: World, k: string)
    ensures Next(grace, w, Put(k)).state.objects ==
              w.state.objects + if k in w.urls && w.now - w.urls[k].signedAt <= 900 then {k} else {}
    ensures Next(grace, w, Put(k)) == w.(state := w.state.(objects := Next(grace, w, Put(k)).state.objects))
  {
  }

  // ---------------------------------------------------------------- when a purged object comes back

  predicate Meant(w: World, c: int, k: string) {
    c in w.calls && !w.calls[c].Opened? && w.calls[c].key == k
  }

  /** A URL for the key is still good, or a call has read a row and will sign or put the key. */
  ghost predicate MayBePut(w: World, k: string) {
    Good(w, k) || exists c :: Meant(w, c, k)
  }

  ghost predicate Out(w: World, e: Uuid, k: string) {
    e in w.used && e !in w.state.events && k !in w.state.objects && !MayBePut(w, k)
  }

  lemma MadeForUnder(s: State, e: Uuid, k: string)
    requires RowsOk(s) && MadeFor(s, e, k)
    ensures e in s.events && UnderEvent(k, e)
  {
    if p :| p in s.photos && s.photos[p].event == e && IsPhotoKey(k, e, p) {
      PhotoKeyUnder(k, e, p);
    } else {
      var x :| x in s.exports && s.exports[x].event == e && IsExportKey(k, e, x);
      ExportKeyUnder(k, e, x);
    }
  }

  lemma StorageKeyUnder(s: State, p: Uuid)
    requires RowsOk(s) && p in s.photos
    ensures UnderEvent(s.photos[p].storageKey, s.photos[p].event)
  {
    assert PhotoRecords(s, p, s.photos[p].event, s.photos[p].storageKey);
    RecordedUnder(s, s.photos[p].event, s.photos[p].storageKey);
  }

  lemma OriginalUnder(k: string, e: Uuid, user: Uuid, item: Uuid, filename: string)
    requires k == OriginalKey(user, e, item, filename)
    ensures UnderEvent(k, e) && k != ""
  {
    KeysHavePrefix(user, e, item, filename, "medium");
    assert Under(k, e, user);
  }

  /** A call acts on a key of an event that was there when it looked. */
  lemma NewKeyUnder(grace: nat, w: World, s: Step, c: int)
    requires Inv(w) && c in Next(grace, w, s).calls && (c in w.calls ==> Next(grace, w, s).calls[c] != w.calls[c])
    ensures var call := Next(grace, w, s).calls[c];
            call.event in w.state.events && (!call.Opened? ==> UnderEvent(call.key, call.event))
  {
    match s
    case Insert(_, p, user, item, filename) =>
      OriginalUnder(OriginalKey(user, w.calls[c].event, item, filename), w.calls[c].event, user, item, filename);
    case Replay(_, p) => StorageKeyUnder(w.state, p);
    case Ask(_, p) => StorageKeyUnder(w.state, p);
    case Read(_, e, k) => MadeForUnder(w.state, e, k);
    case _ =>
  }

  lemma OutStep(grace: nat, w: World, s: Step, e: Uuid, k: string)
    requires Inv(w) && UnderEvent(k, e) && Out(w, e, k)
    ensures Out(Next(grace, w, s), e, k)
  {
    var v := Next(grace, w, s);
    if c :| Meant(v, c, k) {
      assert !Meant(w, c, k);
      NewKeyUnder(grace, w, s, c);
      OneEventPerKey(k, v.calls[c].event, e);
    }
    if s.Act? {
      assert !Meant(w, s.c, k);
    }
  }

  lemma {:induction false} StaysOut(grace: nat, w: World, steps: seq<Step>, e: Uuid, k: string)
    requires Inv(w) && UnderEvent(k, e) && Out(w, e, k)
    ensures Inv(Run(grace, w, steps)) && Out(Run(grace, w, steps), e, k)
    decreases |steps|
  {
    if steps != [] {
      var before := steps[..|steps| - 1];
      StaysOut(grace, w, before, e, k);
      InvStep(grace, Run(grace, w, before), steps[|steps| - 1]);
      OutStep(grace, Run(grace, w, before), steps[|steps| - 1], e, k);
    }
  }

  /** What a run from here can bring back. */
  ghost predicate CanReturn(grace: nat, w: World, k: string) {
    exists steps :: k in Run(grace, w, steps).state.objects
  }

  lemma OneStep(grace: nat, w: World, s: Step)
    ensures Run(grace, w, [s]) == Next(grace, w, s)
  {
    RunNext(grace, w, [], s);
  }

  lemma PutReturns(grace: nat, w: World, k: string)
    requires Good(w, k)
    ensures k in Run(grace, w, [Put(k)]).state.objects
  {
    OneStep(grace, w, Put(k));
  }

  lemma CallReturns(grace: nat, w: World, c: int, k: string)
    requires Meant(w, c, k)
    ensures CanReturn(grace, w, k)
  {
    OneStep(grace, w, Act(c));
    if w.calls[c].Signing? {
      RunNext(grace, w, [Act(c)], Put(k));
      assert k in Run(grace, w, [Act(c)] + [Put(k)]).state.objects;
    } else {
      assert k in Run(grace, w, [Act(c)]).state.objects;
    }
  }

  /**
   * Once the row of an event has gone, one of its objects can be in the store again, or still, if and only if it is there now,
   * a URL for it is still good, or a call that read the row before has yet to act.
   */
  lemma GoneCanReturnIff(grace: nat, w: World, e: Uuid, k: string)
    requires Inv(w) && UnderEvent(k, e) && e in w.used && e !in w.state.events
    ensures CanReturn(grace, w, k) <==> k in w.state.objects || MayBePut(w, k)
  {
    if k in w.state.objects {
      assert k in Run(grace, w, []).state.objects;
    } else if Good(w, k) {
      PutReturns(grace, w, k);
    } else if c :| Meant(w, c, k) {
      CallReturns(grace, w, c, k);
    } else if steps :| k in Run(grace, w, steps).state.objects {
      StaysOut(grace, w, steps, e, k);
    }
  }

  /** The same, seen from the moment the purge deletes the row: no object the event recorded ever returns exactly if none is there or about to be put. */
  lemma PurgedReturnsIff(grace: nat, w: World, e: Uuid, k: string)
    requires Inv(w) && e in w.state.events && CanDrop(w, e) && Recorded(w.state, e, k)
    ensures CanReturn(grace, Next(grace, w, DropRow(e)), k) <==> k in w.state.objects || MayBePut(w, k)
  {
    var v := Next(grace, w, DropRow(e));
    InvStep(grace, w, DropRow(e));
    RecordedUnder(w.state, e, k);
    GoneCanReturnIff(grace, v, e, k);
    assert forall c :: Meant(v, c, k) <==> Meant(w, c, k);
  }

  // ---------------------------------------------------------------- a purge left alone

  function Deletions(e: Uuid, keys: seq<string>): seq<Step> {
    seq(|keys|, i requires 0 <= i < |keys| => DeleteNext(e, keys[i]))
  }

  ghost predicate Lists(keys: seq<string>, all: set<string>) {
    (forall i, j :: 0 <= i < j < |keys| ==> keys[i] != keys[j]) && (forall k :: k in keys <==> k in all)
  }

  /** Some keys deleted, as the purge of e deletes them. */
  ghost function Deleted(w: World, e: Uuid, keys: set<string>): World
    requires e in w.jobs && w.jobs[e].keys.Some?
  {
    w.(state := w.state.(objects := w.state.objects - keys),
       jobs := w.jobs[e := Job(w.jobs[e].start, Some(w.jobs[e].keys.value - keys))])
  }

  ghost function SetOf(keys: seq<string>): set<string> {
    set k | k in keys
  }

  lemma DeletedNext(grace: nat, w: World, e: Uuid, done: set<string>, k: string)
    requires e in w.jobs && w.jobs[e].keys.Some? && k in w.jobs[e].keys.value && k !in done
    ensures Next(grace, Deleted(w, e, done), DeleteNext(e, k)) == Deleted(w, e, done + {k})
  {
    assert w.state.objects - done - {k} == w.state.objects - (done + {k});
    assert w.jobs[e].keys.value - done - {k} == w.jobs[e].keys.value - (done + {k});
  }

  lemma {:induction false} DeletionsDelete(grace: nat, w: World, e: Uuid, keys: seq<string>)
    requires e in w.jobs && w.jobs[e].keys.Some?
    requires (forall i, j :: 0 <= i < j < |keys| ==> keys[i] != keys[j]) && forall k :: k in keys ==> k in w.jobs[e].keys.value
    ensures Run(grace, w, Deletions(e, keys)) == Deleted(w, e, SetOf(keys))
    decreases |keys|
  {
    if keys == [] {
      assert SetOf(keys) == {};
      assert w.state.objects - {} == w.state.objects && w.jobs[e].keys.value - {} == w.jobs[e].keys.value;
      assert w.jobs[e := w.jobs[e]] == w.jobs;
    } else {
      var before, k := keys[..|keys| - 1], keys[|keys| - 1];
      DeletionsDelete(grace, w, e, before);
      assert Deletions(e, keys) == Deletions(e, before) + [DeleteNext(e, k)];
      RunNext(grace, w, Deletions(e, before), DeleteNext(e, k));
      DeletedNext(grace, w, e, SetOf(before), k);
      assert SetOf(keys) == SetOf(before) + {k};
    }
  }

  /** What the job does for one listed event when nothing comes between. */
  ghost function PurgeAlone(grace: nat, w: World, e: Uuid, keys: seq<string>): World {
    Next(grace, Run(grace, Next(grace, w, ReadKeys(e)), Deletions(e, keys)), DropRow(e))
  }

  lemma PurgeAloneIs(grace: nat, w: World, e: Uuid, keys: seq<string>)
    requires e in w.jobs && Lists(keys, RecordedKeys(w.state, e))
    ensures var v := PurgeAlone(grace, w, e, keys);
            && v.state == WithoutEvent(w.state, e).(objects := w.state.objects - RecordedKeys(w.state, e))
            && v.now == w.now && v.urls == w.urls && v.calls == w.calls && v.used == w.used && v.jobs == w.jobs - {e}
  {
    var read := Next(grace, w, ReadKeys(e));
    DeletionsDelete(grace, read, e, keys);
    assert SetOf(keys) == RecordedKeys(w.state, e);
    assert RecordedKeys(w.state, e) - RecordedKeys(w.state, e) == {};
  }

  /** Left alone, the steps amount to what PurgeEvent does; an object of the event can then return if and only if a URL is still good or a call is under way. */
  lemma PurgedAloneReturnsIff(grace: nat, w: World, e: Uuid, keys: seq<string>, k: string)
    requires Inv(w) && e in w.state.events && e in w.jobs && Lists(keys, RecordedKeys(w.state, e)) && Recorded(w.state, e, k)
    ensures var v := PurgeAlone(grace, w, e, keys);
            PurgedOne(w.state, v.state, e, true) && (CanReturn(grace, v, k) <==> MayBePut(w, k))
  {
    var v := PurgeAlone(grace, w, e, keys);
    PurgeAloneIs(grace, w, e, keys);
    DropKeeps(w.state, e);
    RecordedUnder(w.state, e, k);
    AloneIsOut(grace, w, v, e, k);
  }

  lemma AloneIsOut(grace: nat, w: World, v: World, e: Uuid, k: string)
    requires Inv(w) && Inv(v) && UnderEvent(k, e) && e in v.used && e !in v.state.events && k !in v.state.objects
    requires v.now == w.now && v.urls == w.urls && v.calls == w.calls
    ensures CanReturn(grace, v, k) <==> MayBePut(w, k)
  {
    GoneCanReturnIff(grace, v, e, k);
    assert forall c :: Meant(v, c, k) <==> Meant(w, c, k);
  }

  // ---------------------------------------------------------------- what is still there when the row goes

  /** The purge has read the key, and has deleted it or will. */
  predicate Cleared(w: World, e: Uuid, k: string) {
    e in w.jobs && w.jobs[e].keys.Some? && (k in w.jobs[e].keys.value || k !in w.state.objects)
  }

  /** The job does not begin with the event again, and its row has not gone yet. */
  predicate SameJob(s: Step, e: Uuid) {
    !((s.List? || s.ReadKeys? || s.DropRow?) && s.e == e)
  }

  /** The i-th step puts the object. */
  ghost predicate LandsAt(grace: nat, w: World, steps: seq<Step>, i: nat, k: string) {
    i < |steps| && k !in After(grace, w, steps, i).state.objects && k in After(grace, w, steps, i + 1).state.objects
  }

  lemma ClearedStep(grace: nat, w: World, s: Step, e: Uuid, k: string)
    requires Cleared(w, e, k) && SameJob(s, e)
    ensures Cleared(Next(grace, w, s), e, k) || (k !in w.state.objects && k in Next(grace, w, s).state.objects)
  {
  }

  ghost function After(grace: nat, w: World, steps: seq<Step>, i: nat): World
    requires i <= |steps|
  {
    Run(grace, w, steps[..i])
  }

  lemma AfterNext(grace: nat, w: World, steps: seq<Step>, i: nat)
    requires i < |steps|
    ensures After(grace, w, steps, i + 1) == Next(grace, After(grace, w, steps, i), steps[i])
  {
    assert steps[..i + 1][..i] == steps[..i];
  }

  lemma ClearedNext(grace: nat, w: World, steps: seq<Step>, i: nat, e: Uuid, k: string)
    requires i < |steps| && SameJob(steps[i], e) && Cleared(After(grace, w, steps, i), e, k) && !LandsAt(grace, w, steps, i, k)
    ensures Cleared(After(grace, w, steps, i + 1), e, k)
  {
    AfterNext(grace, w, steps, i);
    ClearedStep(grace, After(grace, w, steps, i), steps[i], e, k);
  }

  lemma ClearedThroughout(grace: nat, w: World, steps: seq<Step>, e: Uuid, k: string)
    requires Cleared(w, e, k) && forall i :: 0 <= i < |steps| ==> SameJob(steps[i], e)
    requires forall i :: !LandsAt(grace, w, steps, i, k)
    ensures Cleared(After(grace, w, steps, |steps|), e, k)
  {
    var cleared := (i: nat) => i <= |steps| && Cleared(After(grace, w, steps, i), e, k);
    assert steps[..0] == [];
    forall i: nat | i < |steps| && cleared(i) ensures cleared(i + 1) {
      ClearedNext(grace, w, steps, i, e, k);
    }
    Induction.Persists(cleared, 0, |steps|);
  }

  /** An object among the keys that the job read, and still there when the row goes next, was put in between. */
  lemma StillThereMeansPut(grace: nat, w: World, steps: seq<Step>, e: Uuid, k: string)
    requires CanDelete(w, e, k) && forall i :: 0 <= i < |steps| ==> SameJob(steps[i], e)
    requires CanDrop(After(grace, w, steps, |steps|), e) && k in After(grace, w, steps, |steps|).state.objects
    ensures exists i :: LandsAt(grace, w, steps, i, k)
  {
    if forall i :: !LandsAt(grace, w, steps, i, k) {
      ClearedThroughout(grace, w, steps, e, k);
    }
  }
}
