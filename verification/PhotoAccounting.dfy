/**
 Every interleaving of the code that moves a photo through its states.

 A `World` holds the rows, the calls to Complete that are between two of their statements,
 the workers that are between reading a photo and marking it ready, and a history of what
 happened to each photo. Each `Step` is one database statement or transaction; a step that
 is not enabled changes nothing. The history is never read by a step's effect on the rows.
 */
module PhotoAccounting {
  import opened Wrappers
  import opened Totals
  import opened PhotoRows
  import Induction

  type CallId = int
  type WorkerId = int

  /** What Complete remembers between its statements. */
  datatype CompletePc =
    | Loaded(photo: PhotoId, fileSize: int)  // the row was read and is not PROCESSING or READY
    | Marked(photo: PhotoId)                 // MarkProcessing reported a transition; the job is not queued yet

  /** How often a photo entered PROCESSING and through which call, what that added to the counters, and its process jobs. */
  datatype History = History(entered: nat, via: CallId, bytesAdded: int, jobs: nat)

  datatype World = World(db: Db, history: map<PhotoId, History>, completes: map<CallId, CompletePc>,
                         workers: map<WorkerId, PhotoId>, now: int)

  const MAX_FILE_SIZE := 100 * 1024 * 1024

  datatype Step =
    | SignUp(user: UserId)
    | CreateEvent(event: EventId, user: UserId)
    | Initialize(photo: PhotoId, event: EventId, size: int)
    | CompleteLoad(call: CallId, photo: PhotoId)
    | CompleteMark(call: CallId, headSize: int)
    | CompleteEnqueue(call: CallId)
    | CompleteStop(call: CallId)
    | Abort(photo: PhotoId)
    | Sweep(cutoff: int)
    | WorkerLoad(worker: WorkerId, photo: PhotoId)
    | WorkerReady(worker: WorkerId)
    | WorkerStop(worker: WorkerId)
    | Delete(photo: PhotoId, user: UserId)
    | SoftDelete(event: EventId)
    | Purge(event: EventId)
    | Tick

  const EMPTY_WORLD := World(Db(map[], map[], map[]), map[], map[], map[], 0)

  predicate MayInitialize(w: World, s: Step)
    requires s.Initialize?
  {
    s.photo !in w.history && s.event in w.db.events && !w.db.events[s.event].deleted && 0 < s.size <= MAX_FILE_SIZE
  }

  /** The status test after which Complete goes on to look at the stored object. */
  predicate MayLoad(w: World, s: Step)
    requires s.CompleteLoad?
  {
    s.call !in w.completes && s.photo in w.db.photos
    && w.db.photos[s.photo].status != Ready && w.db.photos[s.photo].status != Processing
  }

  /** A worker runs a queued process job and the photo it read is neither READY nor FAILED. */
  predicate MayProcess(w: World, s: Step)
    requires s.WorkerLoad?
  {
    s.worker !in w.workers && s.photo in w.history && w.history[s.photo].jobs > 0
    && s.photo in w.db.photos && w.db.photos[s.photo].status != Ready && w.db.photos[s.photo].status != Failed
  }

  /** MarkProcessing runs only when the stored object has the recorded size. */
  function AfterMark(w: World, call: CallId, headSize: int): World
    requires call in w.completes && w.completes[call].Loaded? && w.completes[call].photo in w.history
  {
    var Loaded(id, fileSize) := w.completes[call];
    var stopped := w.(completes := w.completes - {call});
    if headSize != fileSize then stopped
    else
      var (db, _, transitioned) := w.db.MarkProcessing(id, headSize, w.now);
      var h := w.history[id];
      if !transitioned then stopped.(db := db)
      else w.(db := db, completes := w.completes[call := Marked(id)],
              history := w.history[id := h.(entered := h.entered + 1, via := call, bytesAdded := h.bytesAdded + headSize)])
  }

  function Next(w: World, s: Step): World {
    match s
    case SignUp(u) =>
      if u in w.db.users then w else w.(db := w.db.(users := w.db.users[u := 0]))
    case CreateEvent(e, u) =>
      if e in w.db.events || u !in w.db.users then w
      else w.(db := w.db.(events := w.db.events[e := Event(u, 0, 0, false)]))
    case Initialize(p, e, size) =>
      if !MayInitialize(w, s) then w
      else w.(db := w.db.(photos := w.db.photos[p := Photo(e, size, Uploading, w.now)]),
              history := w.history[p := History(0, 0, 0, 0)])
    case CompleteLoad(c, p) =>
      if !MayLoad(w, s) then w else w.(completes := w.completes[c := Loaded(p, w.db.photos[p].fileSize)])
    case CompleteMark(c, headSize) =>
      if c in w.completes && w.completes[c].Loaded? && w.completes[c].photo in w.history
      then AfterMark(w, c, headSize) else w
    case CompleteEnqueue(c) =>
      if c in w.completes && w.completes[c].Marked? && w.completes[c].photo in w.history then
        var p := w.completes[c].photo;
        w.(completes := w.completes - {c},
           history := w.history[p := w.history[p].(jobs := w.history[p].jobs + 1)])
      else w
    case CompleteStop(c) => w.(completes := w.completes - {c})
    case Abort(p) => w.(db := w.db.MarkFailed(p, w.now).0)
    case Sweep(cutoff) => w.(db := w.db.FailStaleUploads(cutoff, w.now))
    case WorkerLoad(k, p) => if !MayProcess(w, s) then w else w.(workers := w.workers[k := p])
    case WorkerReady(k) =>
      if k !in w.workers then w
      else w.(db := w.db.MarkReady(w.workers[k], w.now).0, workers := w.workers - {k})
    case WorkerStop(k) => w.(workers := w.workers - {k})
    case Delete(p, u) => w.(db := w.db.DeleteOwned(p, u).0)
    case SoftDelete(e) =>
      if e !in w.db.events then w
      else w.(db := w.db.(events := w.db.events[e := w.db.events[e].(deleted := true)]))
    case Purge(e) => w.(db := w.db.PurgeEvent(e).0)
    case Tick => w.(now := w.now + 1)
  }

  function Run(w: World, steps: seq<Step>): World
    decreases |steps|
  {
    if steps == [] then w else Next(Run(w, steps[..|steps| - 1]), steps[|steps| - 1])
  }

  // ---------------------------------------------------------------- the protocol

  predicate Counted(w: World, p: PhotoId) {
    p in w.history && w.history[p].entered > 0
  }

  ghost predicate Linked(db: Db) {
    (forall p :: p in db.photos ==> db.photos[p].event in db.events) &&
    (forall e :: e in db.events ==> db.events[e].user in db.users)
  }

  /** What is true of one photo and its history in every reachable world. */
  predicate PhotoOk(p: Photo, h: History) {
    0 < p.fileSize
    && h.bytesAdded == h.entered * p.fileSize
    && (p.status == Uploading ==> h.entered == 0)
    && (p.status == Processing || p.status == Ready ==> h.entered == 1)
  }

  ghost predicate RowsOk(db: Db, history: map<PhotoId, History>) {
    forall p :: p in db.photos ==> p in history && PhotoOk(db.photos[p], history[p])
  }

  ghost predicate HistoryOk(history: map<PhotoId, History>) {
    forall p :: p in history ==> history[p].entered <= 1 && history[p].jobs <= history[p].entered
  }

  predicate CallOk(w: World, pc: CompletePc, c: CallId) {
    pc.photo in w.history &&
    match pc
    case Loaded(p, fileSize) => p in w.db.photos ==> fileSize == w.db.photos[p].fileSize
    case Marked(p) => w.history[p].entered == 1 && w.history[p].via == c && w.history[p].jobs == 0
  }

  ghost predicate CallsOk(w: World) {
    forall c :: c in w.completes ==> CallOk(w, w.completes[c], c)
  }

  ghost predicate WorkersOk(w: World) {
    forall k :: k in w.workers ==> w.workers[k] in w.history && w.history[w.workers[k]].jobs == 1
  }

  ghost predicate Protocol(w: World) {
    Linked(w.db) && RowsOk(w.db, w.history) && HistoryOk(w.history) && CallsOk(w) && WorkersOk(w)
  }

  lemma ProtocolMark(w: World, c: CallId, headSize: int)
    requires Protocol(w) && c in w.completes && w.completes[c].Loaded?
    ensures Protocol(AfterMark(w, c, headSize))
  {
  }

  lemma ProtocolEnqueue(w: World, c: CallId)
    requires Protocol(w)
    ensures Protocol(Next(w, CompleteEnqueue(c)))
  {
  }

  lemma ProtocolDelete(w: World, p: PhotoId, u: UserId)
    requires Protocol(w)
    ensures Protocol(Next(w, Delete(p, u)))
  {
  }

  lemma ProtocolPurge(w: World, e: EventId)
    requires Protocol(w)
    ensures Protocol(Next(w, Purge(e)))
  {
  }

  /** A status may change without any call to Complete being involved. */
  lemma ProtocolRows(w: World, s: Step)
    requires Protocol(w)
    requires s.Abort? || s.Sweep? || s.WorkerReady?
    ensures Protocol(Next(w, s))
  {
  }

  lemma ProtocolStep(w: World, s: Step)
    requires Protocol(w)
    ensures Protocol(Next(w, s))
  {
    match s
    case CompleteMark(c, headSize) => if Next(w, s) != w { ProtocolMark(w, c, headSize); }
    case CompleteEnqueue(c) => ProtocolEnqueue(w, c);
    case Delete(p, u) => ProtocolDelete(w, p, u);
    case Purge(e) => ProtocolPurge(w, e);
    case Abort(_) => ProtocolRows(w, s);
    case Sweep(_) => ProtocolRows(w, s);
    case WorkerReady(_) => ProtocolRows(w, s);
    case _ =>
  }

  /**
   * The moves a photo's status can make in one step. READY is never left, UPLOADING is never re-entered, and
   * a FAILED photo becomes READY only if it was counted (a worker had read it before it was marked failed).
   */
  predicate MayMove(from: Status, to: Status, counted: bool) {
    match from
    case Uploading => to != Ready
    case Processing => to != Uploading
    case Ready => to == Ready
    case Failed => to == Failed || (to == Ready && counted)
  }

  lemma StatusMoves(w: World, s: Step, p: PhotoId)
    requires Protocol(w) && p in w.db.photos && p in Next(w, s).db.photos
    ensures MayMove(w.db.photos[p].status, Next(w, s).db.photos[p].status, Counted(w, p))
    ensures w.db.photos[p].event == Next(w, s).db.photos[p].event
            && w.db.photos[p].fileSize == Next(w, s).db.photos[p].fileSize
  {
    if s.WorkerReady? && s.worker in w.workers {
      assert Counted(w, w.workers[s.worker]);
    }
  }

  /** The history records a photo's entry into PROCESSING exactly when its row makes that move. */
  lemma HistoryIsHonest(w: World, s: Step, p: PhotoId)
    requires Protocol(w) && p in w.history
    ensures var v := Next(w, s);
            && p in v.history
            && v.history[p].entered == w.history[p].entered
               + (if p in w.db.photos && p in v.db.photos && w.db.photos[p].status == Uploading
                  && v.db.photos[p].status == Processing then 1 else 0)
  {
  }

  // ---------------------------------------------------------------- the counters

  /** The sizes of an event's counted photos: those that have entered PROCESSING. */
  ghost function CountedSizes(w: World, e: EventId): map<PhotoId, int> {
    map p | p in w.db.photos && w.db.photos[p].event == e && Counted(w, p) :: w.db.photos[p].fileSize
  }

  /** The byte counters of a user's events, soft-deleted ones included. */
  ghost function OwnedBytes(db: Db, u: UserId): map<EventId, int> {
    map e | e in db.events && db.events[e].user == u :: db.events[e].storageBytes
  }

  ghost predicate EventBounded(w: World, e: EventId) {
    e in w.db.events ==>
      0 <= w.db.events[e].photoCount <= |CountedSizes(w, e)| &&
      0 <= w.db.events[e].storageBytes <= Total(CountedSizes(w, e))
  }

  ghost predicate UserBounded(db: Db, u: UserId) {
    u in db.users ==> 0 <= db.users[u] <= Total(OwnedBytes(db, u))
  }

  ghost predicate EventExact(w: World, e: EventId) {
    e in w.db.events ==>
      w.db.events[e].photoCount == |CountedSizes(w, e)| && w.db.events[e].storageBytes == Total(CountedSizes(w, e))
  }

  ghost predicate UserExact(db: Db, u: UserId) {
    u in db.users ==> db.users[u] == Total(OwnedBytes(db, u))
  }

  ghost predicate Bounded(w: World) {
    (forall e :: EventBounded(w, e)) && (forall u :: UserBounded(w.db, u))
  }

  /** All three counters say exactly what was counted. */
  ghost predicate Exact(w: World) {
    (forall e :: EventExact(w, e)) && (forall u :: UserExact(w.db, u))
  }

  /** The one step that makes the counters drift: deleting a FAILED photo that was never counted. */
  predicate Drifts(w: World, s: Step) {
    s.Delete? && w.db.MayDelete(s.photo, s.user) && w.db.photos[s.photo].status == Failed && !Counted(w, s.photo)
    && s.user in w.db.users && w.db.users[s.user] > 0
  }

  predicate Marks(w: World, s: Step) {
    s.CompleteMark? && s.call in w.completes && w.completes[s.call].Loaded?
    && w.completes[s.call].photo in w.db.photos && w.db.photos[w.completes[s.call].photo].status == Uploading
    && s.headSize == w.completes[s.call].fileSize
  }

  ghost predicate SameCounted(w: World, v: World) {
    forall p :: (p in w.db.photos && Counted(w, p) <==> p in v.db.photos && Counted(v, p)) &&
                (p in w.db.photos && Counted(w, p) ==>
                  w.db.photos[p].event == v.db.photos[p].event && w.db.photos[p].fileSize == v.db.photos[p].fileSize)
  }

  ghost predicate SameCounters(a: Event, b: Event) {
    a.user == b.user && a.photoCount == b.photoCount && a.storageBytes == b.storageBytes
  }

  /** `v` counts the same photos as `w` and has the same counters. */
  ghost predicate Quiet(w: World, v: World) {
    SameCounted(w, v) && v.db.users == w.db.users &&
    (forall e :: e in v.db.events <==> e in w.db.events) &&
    (forall e :: e in w.db.events ==> SameCounters(w.db.events[e], v.db.events[e]))
  }

  /** The steps that insert a row with a counter, and those that change one. */
  predicate Touches(w: World, s: Step) {
    s.SignUp? || s.CreateEvent? || s.Purge? || Marks(w, s) || Drops(w, s)
  }

  /** DeleteOwned takes the counters down for every status but UPLOADING. */
  predicate Drops(w: World, s: Step) {
    s.Delete? && w.db.MayDelete(s.photo, s.user) && w.db.photos[s.photo].status != Uploading
  }

  lemma QuietStep(w: World, s: Step)
    requires Protocol(w) && !Touches(w, s)
    ensures Quiet(w, Next(w, s))
  {
    match s
    case Delete(_, _) => QuietDelete(w, s);
    case CompleteMark(_, _) => QuietMark(w, s);
    case Abort(_) => QuietRows(w, s);
    case Sweep(_) => QuietRows(w, s);
    case WorkerReady(_) => QuietRows(w, s);
    case _ =>
  }

  lemma QuietRows(w: World, s: Step)
    requires Protocol(w) && (s.Abort? || s.Sweep? || s.WorkerReady?)
    ensures Quiet(w, Next(w, s))
  {
  }

  lemma QuietMark(w: World, s: Step)
    requires Protocol(w) && s.CompleteMark? && !Marks(w, s)
    ensures Quiet(w, Next(w, s))
  {
  }

  lemma QuietDelete(w: World, s: Step)
    requires Protocol(w) && s.Delete? && !Drops(w, s)
    ensures Quiet(w, Next(w, s))
  {
  }

  /** From `w` to `v`, the counters of event `e` and user `u` stay within what was counted. */
  ghost predicate KeepsBounds(w: World, v: World, e: EventId, u: UserId) {
    (EventBounded(w, e) ==> EventBounded(v, e)) && (UserBounded(w.db, u) ==> UserBounded(v.db, u))
  }

  ghost predicate KeepsExact(w: World, v: World, e: EventId, u: UserId) {
    (EventExact(w, e) ==> EventExact(v, e)) && (UserExact(w.db, u) ==> UserExact(v.db, u))
  }

  lemma QuietCounters(w: World, v: World, e: EventId, u: UserId)
    requires Quiet(w, v)
    ensures KeepsBounds(w, v, e, u) && KeepsExact(w, v, e, u)
  {
    assert CountedSizes(v, e) == CountedSizes(w, e);
    assert forall x :: x in OwnedBytes(v.db, u) <==> x in OwnedBytes(w.db, u);
    assert forall x :: x in OwnedBytes(v.db, u) ==> OwnedBytes(v.db, u)[x] == OwnedBytes(w.db, u)[x];
    assert OwnedBytes(v.db, u) == OwnedBytes(w.db, u);
  }

  /** Only event `x` may differ between `a` and `b`, and it keeps its owner. */
  ghost predicate OneEvent(a: Db, b: Db, x: EventId) {
    x in a.events && x in b.events && b.events == a.events[x := b.events[x]] && b.events[x].user == a.events[x].user
  }

  lemma OneEventTotals(a: Db, b: Db, x: EventId, u: UserId)
    requires OneEvent(a, b, x)
    ensures Total(OwnedBytes(b, u)) == Total(OwnedBytes(a, u))
            + (if a.events[x].user == u then b.events[x].storageBytes - a.events[x].storageBytes else 0)
  {
    if a.events[x].user == u {
      assert OwnedBytes(b, u) == OwnedBytes(a, u)[x := b.events[x].storageBytes];
      TotalUpdate(OwnedBytes(a, u), x, b.events[x].storageBytes);
    } else {
      assert OwnedBytes(b, u) == OwnedBytes(a, u);
    }
  }

  /** A new user starts at zero and owns nothing. */
  lemma NewUserCounters(w: World, v: World, user: UserId, e: EventId, u: UserId)
    requires Linked(w.db) && user !in w.db.users && v == w.(db := w.db.(users := w.db.users[user := 0]))
    ensures KeepsBounds(w, v, e, u) && KeepsExact(w, v, e, u)
  {
    assert CountedSizes(v, e) == CountedSizes(w, e);
    assert OwnedBytes(v.db, u) == OwnedBytes(w.db, u);
    if u == user {
      assert forall x :: x in w.db.events ==> w.db.events[x].user != u;
      assert OwnedBytes(v.db, u) == map[];
    }
  }

  ghost predicate AddsEvent(w: World, v: World, x: EventId, owner: UserId) {
    Linked(w.db) && x !in w.db.events && v == w.(db := w.db.(events := w.db.events[x := Event(owner, 0, 0, false)]))
  }

  /** A new event starts at zero with nothing counted, and adds nothing to its owner's sum. */
  lemma NewEventPhotos(w: World, v: World, x: EventId, owner: UserId, e: EventId)
    requires AddsEvent(w, v, x, owner)
    ensures CountedSizes(v, e) == CountedSizes(w, e) && (e == x ==> CountedSizes(w, e) == map[])
  {
    assert CountedSizes(v, e) == CountedSizes(w, e);
    if e == x {
      assert CountedSizes(w, e) == map[];
    }
  }

  lemma NewEventBytes(w: World, v: World, x: EventId, owner: UserId, u: UserId)
    requires AddsEvent(w, v, x, owner)
    ensures Total(OwnedBytes(v.db, u)) == Total(OwnedBytes(w.db, u))
  {
    if owner == u {
      assert OwnedBytes(v.db, u) == OwnedBytes(w.db, u)[x := 0];
      TotalInsert(OwnedBytes(w.db, u), x, 0);
    } else {
      assert OwnedBytes(v.db, u) == OwnedBytes(w.db, u);
    }
  }

  lemma NewEventCounters(w: World, v: World, x: EventId, owner: UserId, e: EventId, u: UserId)
    requires AddsEvent(w, v, x, owner)
    ensures KeepsBounds(w, v, e, u) && KeepsExact(w, v, e, u)
  {
    NewEventPhotos(w, v, x, owner, e);
    NewEventBytes(w, v, x, owner, u);
  }

  /** Between `w` and `v` photo `p` is counted for the first time, and no other photo changes. */
  ghost predicate CountsPhoto(w: World, v: World, p: PhotoId) {
    p in w.db.photos && p in v.db.photos && v.db.photos == w.db.photos[p := v.db.photos[p]]
    && v.db.photos[p].event == w.db.photos[p].event && v.db.photos[p].fileSize == w.db.photos[p].fileSize
    && !Counted(w, p) && Counted(v, p) && (forall q :: q != p ==> (Counted(v, q) <==> Counted(w, q)))
  }

  lemma CountedGrows(w: World, v: World, p: PhotoId, e: EventId)
    requires CountsPhoto(w, v, p)
    ensures w.db.photos[p].event == e ==> |CountedSizes(v, e)| == |CountedSizes(w, e)| + 1
    ensures w.db.photos[p].event == e ==> Total(CountedSizes(v, e)) == Total(CountedSizes(w, e)) + w.db.photos[p].fileSize
    ensures w.db.photos[p].event != e ==> CountedSizes(v, e) == CountedSizes(w, e)
  {
    if w.db.photos[p].event == e {
      assert CountedSizes(v, e) == CountedSizes(w, e)[p := w.db.photos[p].fileSize];
      TotalInsert(CountedSizes(w, e), p, w.db.photos[p].fileSize);
    } else {
      assert CountedSizes(v, e) == CountedSizes(w, e);
    }
  }

  /** Photo `p` is counted, and its size is added once to its event and once to the owner. */
  ghost predicate EntersProcessing(w: World, v: World, p: PhotoId) {
    CountsPhoto(w, v, p) && 0 < w.db.photos[p].fileSize &&
    var x, size := w.db.photos[p].event, w.db.photos[p].fileSize;
    && OneEvent(w.db, v.db, x)
    && v.db.events[x].photoCount == w.db.events[x].photoCount + 1
    && v.db.events[x].storageBytes == w.db.events[x].storageBytes + size
    && w.db.events[x].user in w.db.users
    && v.db.users == w.db.users[w.db.events[x].user := w.db.users[w.db.events[x].user] + size]
  }

  lemma MarkShape(w: World, s: Step)
    requires Protocol(w) && Marks(w, s)
    ensures EntersProcessing(w, Next(w, s), w.completes[s.call].photo)
  {
    assert CallOk(w, w.completes[s.call], s.call);
  }

  lemma MarkCounters(w: World, v: World, p: PhotoId, e: EventId, u: UserId)
    requires EntersProcessing(w, v, p)
    ensures KeepsBounds(w, v, e, u) && KeepsExact(w, v, e, u)
  {
    OneEventTotals(w.db, v.db, w.db.photos[p].event, u);
    CountedGrows(w, v, p, e);
  }

  /** Between `w` and `v` photo `p` is removed, and no other photo changes. */
  ghost predicate RemovesPhoto(w: World, v: World, p: PhotoId) {
    p in w.db.photos && v.db.photos == w.db.photos - {p} && v.history == w.history
  }

  lemma CountedShrinks(w: World, v: World, p: PhotoId, e: EventId)
    requires RemovesPhoto(w, v, p) && w.db.photos[p].event == e && Counted(w, p)
    ensures p in CountedSizes(w, e) && |CountedSizes(v, e)| == |CountedSizes(w, e)| - 1
    ensures Total(CountedSizes(v, e)) == Total(CountedSizes(w, e)) - w.db.photos[p].fileSize
  {
    assert CountedSizes(v, e) == CountedSizes(w, e) - {p};
    TotalWithout(CountedSizes(w, e), p);
  }

  lemma CountedStays(w: World, v: World, p: PhotoId, e: EventId)
    requires RemovesPhoto(w, v, p) && (w.db.photos[p].event != e || !Counted(w, p))
    ensures CountedSizes(v, e) == CountedSizes(w, e)
  {
    assert CountedSizes(v, e) == CountedSizes(w, e);
  }

  /** Photo `p` is gone and its size has been taken, clamped, from its event and from the owner. */
  ghost predicate Dropped(w: World, v: World, p: PhotoId) {
    RemovesPhoto(w, v, p) && 0 < w.db.photos[p].fileSize &&
    var x, size := w.db.photos[p].event, w.db.photos[p].fileSize;
    && OneEvent(w.db, v.db, x)
    && v.db.events[x].photoCount == AtLeastZero(w.db.events[x].photoCount - 1)
    && v.db.events[x].storageBytes == AtLeastZero(w.db.events[x].storageBytes - size)
    && w.db.events[x].user in w.db.users
    && v.db.users == w.db.users[w.db.events[x].user := AtLeastZero(w.db.users[w.db.events[x].user] - size)]
  }

  lemma DeleteShape(w: World, s: Step)
    requires Protocol(w) && Drops(w, s)
    ensures Dropped(w, Next(w, s), s.photo)
  {
  }

  lemma DropEventBounds(w: World, v: World, p: PhotoId, e: EventId)
    requires Dropped(w, v, p) && EventBounded(w, e) && RowsOk(w.db, w.history)
    ensures EventBounded(v, e)
  {
    if w.db.photos[p].event == e && Counted(w, p) {
      CountedShrinks(w, v, p, e);
      CountedSizesCover(w, p);
    } else {
      CountedStays(w, v, p, e);
    }
  }

  lemma DropUserBounds(w: World, v: World, p: PhotoId, u: UserId)
    requires Dropped(w, v, p) && Bounded(w)
    ensures UserBounded(v.db, u)
  {
    var x := w.db.photos[p].event;
    OneEventTotals(w.db, v.db, x, u);
    assert UserBounded(w.db, u);
    OwnedBytesCover(w, x);
  }

  /** The byte counter of one event is part of its owner's sum. */
  lemma OwnedBytesCover(w: World, x: EventId)
    requires Bounded(w) && x in w.db.events
    ensures 0 <= w.db.events[x].storageBytes <= Total(OwnedBytes(w.db, w.db.events[x].user))
  {
    var owned := OwnedBytes(w.db, w.db.events[x].user);
    forall e | e in owned ensures 0 <= owned[e] {
      assert EventBounded(w, e);
    }
    TotalAtLeast(owned, x);
  }

  /** Deleting a counted photo from exact counters leaves them exact, and no clamp is needed. */
  lemma DropCountedExact(w: World, v: World, p: PhotoId, e: EventId, u: UserId)
    requires Dropped(w, v, p) && Counted(w, p) && Exact(w) && Bounded(w) && RowsOk(w.db, w.history)
    ensures EventExact(v, e) && UserExact(v.db, u) && Unclamped(w, p)
  {
    var x := w.db.photos[p].event;
    assert EventExact(w, e) && EventExact(w, x) && UserExact(w.db, u) && UserExact(w.db, w.db.events[x].user);
    CountedShrinks(w, v, p, x);
    if x != e { CountedStays(w, v, p, e); }
    CountedSizesCover(w, p);
    OneEventTotals(w.db, v.db, x, u);
    OwnedBytesCover(w, x);
  }

  lemma CountedSizesCover(w: World, p: PhotoId)
    requires p in w.db.photos && Counted(w, p) && RowsOk(w.db, w.history)
    ensures w.db.photos[p].fileSize <= Total(CountedSizes(w, w.db.photos[p].event))
  {
    TotalAtLeast(CountedSizes(w, w.db.photos[p].event), p);
  }

  /** Every GREATEST(..., 0) in deleting `p` keeps the plain difference. */
  predicate Unclamped(w: World, p: PhotoId) {
    p in w.db.photos && w.db.photos[p].event in w.db.events && w.db.events[w.db.photos[p].event].user in w.db.users
    && 1 <= w.db.events[w.db.photos[p].event].photoCount
    && w.db.photos[p].fileSize <= w.db.events[w.db.photos[p].event].storageBytes
    && w.db.photos[p].fileSize <= w.db.users[w.db.events[w.db.photos[p].event].user]
  }

  /**
   * Deleting a never-counted photo keeps exact counters exact precisely when its owner has no bytes
   * recorded at all: then every counter it would take from is already zero.
   */
  lemma DropUncountedExact(w: World, v: World, p: PhotoId)
    requires Dropped(w, v, p) && !Counted(w, p) && Exact(w) && Bounded(w) && RowsOk(w.db, w.history)
    ensures Exact(v) <==> w.db.users[w.db.events[w.db.photos[p].event].user] == 0
  {
    var x := w.db.photos[p].event;
    var owner := w.db.events[x].user;
    OwnedBytesCover(w, x);
    OneEventTotals(w.db, v.db, x, owner);
    CountedStays(w, v, p, x);
    assert EventExact(w, x) && UserExact(w.db, owner);
    if w.db.users[owner] == 0 {
      PositiveTotal(CountedSizes(w, x));
      forall e ensures EventExact(v, e) {
        assert EventExact(w, e);
        CountedStays(w, v, p, e);
      }
      forall u ensures UserExact(v.db, u) {
        assert UserExact(w.db, u);
        OneEventTotals(w.db, v.db, x, u);
      }
    } else {
      assert !EventExact(v, x) || !UserExact(v.db, owner);
    }
  }


  ghost predicate Purged(w: World, v: World, x: EventId) {
    x in w.db.events && v.db.events == w.db.events - {x} && v.history == w.history
    && v.db.photos == (map p | p in w.db.photos && w.db.photos[p].event != x :: w.db.photos[p])
    && w.db.events[x].user in w.db.users
    && v.db.users == w.db.users[w.db.events[x].user :=
                                  AtLeastZero(w.db.users[w.db.events[x].user] - w.db.events[x].storageBytes)]
  }

  lemma PurgeShape(w: World, s: Step)
    requires Protocol(w) && s.Purge? && s.event in w.db.events
    ensures Purged(w, Next(w, s), s.event)
  {
  }

  lemma PurgePhotos(w: World, v: World, x: EventId, e: EventId)
    requires Purged(w, v, x) && e != x
    ensures CountedSizes(v, e) == CountedSizes(w, e)
  {
    assert CountedSizes(v, e) == CountedSizes(w, e);
  }

  /** Purging an event takes exactly its own byte counter from the owner. */
  lemma PurgeBytes(w: World, v: World, x: EventId, u: UserId)
    requires Purged(w, v, x)
    ensures Total(OwnedBytes(v.db, u)) ==
            Total(OwnedBytes(w.db, u)) - (if u == w.db.events[x].user then w.db.events[x].storageBytes else 0)
  {
    if u == w.db.events[x].user {
      assert OwnedBytes(v.db, u) == OwnedBytes(w.db, u) - {x};
      TotalWithout(OwnedBytes(w.db, u), x);
    } else {
      assert OwnedBytes(v.db, u) == OwnedBytes(w.db, u);
    }
  }

  lemma PurgeCounters(w: World, v: World, x: EventId, e: EventId, u: UserId)
    requires Purged(w, v, x) && Bounded(w)
    ensures KeepsBounds(w, v, e, u) && KeepsExact(w, v, e, u)
  {
    if e != x { PurgePhotos(w, v, x, e); }
    OwnedBytesCover(w, x);
    PurgeBytes(w, v, x, u);
  }

  /** Every step but the deletion of a counted or FAILED photo treats each event and user as wanted. */
  lemma StepCounters(w: World, s: Step, e: EventId, u: UserId)
    requires Protocol(w) && Bounded(w) && !Drops(w, s)
    ensures KeepsBounds(w, Next(w, s), e, u) && KeepsExact(w, Next(w, s), e, u)
  {
    var v := Next(w, s);
    if !Touches(w, s) {
      QuietStep(w, s);
      QuietCounters(w, v, e, u);
    } else if s.Purge? {
      if s.event in w.db.events {
        PurgeShape(w, s);
        PurgeCounters(w, v, s.event, e, u);
      }
    } else if v != w {
      match s
      case SignUp(user) => NewUserCounters(w, v, user, e, u);
      case CreateEvent(x, owner) => NewEventCounters(w, v, x, owner, e, u);
      case CompleteMark(c, _) =>
        MarkShape(w, s);
        MarkCounters(w, v, w.completes[c].photo, e, u);
    }
  }

  lemma BoundedStep(w: World, s: Step)
    requires Protocol(w) && Bounded(w)
    ensures Bounded(Next(w, s))
  {
    var v := Next(w, s);
    if Drops(w, s) { DeleteShape(w, s); }
    forall e ensures EventBounded(v, e) {
      assert EventBounded(w, e);
      if Drops(w, s) { DropEventBounds(w, v, s.photo, e); } else { StepCounters(w, s, e, 0); }
    }
    forall u ensures UserBounded(v.db, u) {
      assert UserBounded(w.db, u);
      if Drops(w, s) { DropUserBounds(w, v, s.photo, u); } else { StepCounters(w, s, 0, u); }
    }
  }

  /** One step from exact counters leads to exact counters unless it is the drifting deletion. */
  lemma ExactStep(w: World, s: Step)
    requires Protocol(w) && Bounded(w) && Exact(w)
    ensures Exact(Next(w, s)) <==> !Drifts(w, s)
  {
    var v := Next(w, s);
    if Drops(w, s) && !Counted(w, s.photo) {
      DeleteShape(w, s);
      DropUncountedExact(w, v, s.photo);
      assert UserBounded(w.db, s.user);
    } else {
      if Drops(w, s) { DeleteShape(w, s); }
      forall e ensures EventExact(v, e) {
        assert EventExact(w, e);
        if Drops(w, s) { DropCountedExact(w, v, s.photo, e, 0); } else { StepCounters(w, s, e, 0); }
      }
      forall u ensures UserExact(v.db, u) {
        assert UserExact(w.db, u);
        if Drops(w, s) { DropCountedExact(w, v, s.photo, 0, u); } else { StepCounters(w, s, 0, u); }
      }
    }
  }

  // ---------------------------------------------------------------- whole runs

  /** Every reachable world satisfies the protocol, and no counter exceeds what was counted. */
  lemma {:induction false} ReachableWorlds(steps: seq<Step>)
    ensures Protocol(Run(EMPTY_WORLD, steps)) && Bounded(Run(EMPTY_WORLD, steps))
    decreases |steps|
  {
    if steps == [] {
      forall u ensures UserBounded(EMPTY_WORLD.db, u) {}
    } else {
      var before, s := Run(EMPTY_WORLD, steps[..|steps| - 1]), steps[|steps| - 1];
      ReachableWorlds(steps[..|steps| - 1]);
      ProtocolStep(before, s);
      BoundedStep(before, s);
    }
  }

  /**
   * Complete calls, aborts, sweeps, workers and deletions may interleave in any way: a photo enters
   * PROCESSING at most once, is added to the counters at most once and with its own size, gets at most
   * one process job, and is PROCESSING or READY only if it was counted.
   */
  lemma CountedAtMostOnce(steps: seq<Step>, p: PhotoId)
    requires p in Run(EMPTY_WORLD, steps).history
    ensures var w := Run(EMPTY_WORLD, steps); var h := w.history[p];
            && h.entered <= 1 && h.jobs <= h.entered
            && (p in w.db.photos ==> h.bytesAdded == h.entered * w.db.photos[p].fileSize)
            && (p in w.db.photos && (w.db.photos[p].status == Processing || w.db.photos[p].status == Ready) ==>
                  h.entered == 1)
  {
    ReachableWorlds(steps);
  }

  /** The world after the first `k` steps. */
  function After(steps: seq<Step>, k: nat): World
    requires k <= |steps|
  {
    Run(EMPTY_WORLD, steps[..k])
  }

  lemma AfterNext(steps: seq<Step>, k: nat)
    requires k < |steps|
    ensures After(steps, k + 1) == Next(After(steps, k), steps[k])
  {
    assert steps[..k + 1][..k] == steps[..k];
  }

  /**
   * The counters are exact after every step of a run if and only if no step of it deletes a FAILED photo
   * that was never counted, of an owner with bytes recorded.
   */
  lemma ExactThroughout(steps: seq<Step>)
    ensures (forall k :: 0 <= k <= |steps| ==> Exact(After(steps, k))) <==>
            (forall k :: 0 <= k < |steps| ==> !Drifts(After(steps, k), steps[k]))
  {
    var good := (k: nat) => k <= |steps| && Exact(After(steps, k));
    var breaks := (k: nat) => k < |steps| && Drifts(After(steps, k), steps[k]);
    NothingCountedYet(steps);
    forall k | 0 <= k < |steps| && good(k) ensures good(k + 1) <==> !breaks(k) {
      ExactAfterNext(steps, k);
    }
    Induction.ThroughoutIff(good, breaks, 0, |steps|);
    assert forall k :: 0 <= k <= |steps| ==> (good(k) <==> Exact(After(steps, k)));
    assert forall k :: 0 <= k < |steps| ==> (breaks(k) <==> Drifts(After(steps, k), steps[k]));
  }

  lemma ExactAfterNext(steps: seq<Step>, k: nat)
    requires k < |steps| && Exact(After(steps, k))
    ensures Exact(After(steps, k + 1)) <==> !Drifts(After(steps, k), steps[k])
  {
    AfterNext(steps, k);
    ReachableWorlds(steps[..k]);
    ExactStep(After(steps, k), steps[k]);
  }

  lemma NothingCountedYet(steps: seq<Step>)
    ensures Exact(After(steps, 0))
  {
    assert steps[..0] == [];
  }

  /** While the counters are exact, deleting a counted photo or purging an event never needs a clamp. */
  lemma ClampsNeverFire(steps: seq<Step>, s: Step)
    requires Exact(Run(EMPTY_WORLD, steps))
    ensures var w := Run(EMPTY_WORLD, steps);
            && (Drops(w, s) && Counted(w, s.photo) ==> Unclamped(w, s.photo))
            && (s.Purge? && s.event in w.db.events ==>
                  w.db.events[s.event].user in w.db.users
                  && w.db.events[s.event].storageBytes <= w.db.users[w.db.events[s.event].user])
  {
    var w := Run(EMPTY_WORLD, steps);
    ReachableWorlds(steps);
    if Drops(w, s) && Counted(w, s.photo) {
      DeleteShape(w, s);
      DropCountedExact(w, Next(w, s), s.photo, 0, 0);
    } else if s.Purge? && s.event in w.db.events {
      OwnedBytesCover(w, s.event);
      assert UserExact(w.db, w.db.events[s.event].user);
    }
  }

  const DRIFT: seq<Step> :=
    [SignUp(1), CreateEvent(1, 1), Initialize(1, 1, 10), Initialize(2, 1, 10), CompleteLoad(1, 1), CompleteMark(1, 10), Abort(2)]

  lemma DriftUploads()
    ensures var w := After(DRIFT, 4);
            && w.db == Db(map[1 := Photo(1, 10, Uploading, 0), 2 := Photo(1, 10, Uploading, 0)], map[1 := Event(1, 0, 0, false)], map[1 := 0])
            && w.history == map[1 := History(0, 0, 0, 0), 2 := History(0, 0, 0, 0)] && w.completes == map[]
  {
    AfterNext(DRIFT, 0);
    AfterNext(DRIFT, 1);
    AfterNext(DRIFT, 2);
    AfterNext(DRIFT, 3);
    assert After(DRIFT, 2).db == Db(map[], map[1 := Event(1, 0, 0, false)], map[1 := 0]);
  }

  lemma DriftLoads()
    ensures After(DRIFT, 5).db == After(DRIFT, 4).db && After(DRIFT, 5).history == After(DRIFT, 4).history
    ensures 1 in After(DRIFT, 5).completes && After(DRIFT, 5).completes[1] == Loaded(1, 10)
  {
    DriftUploads();
    AfterNext(DRIFT, 4);
  }

  lemma DriftCounts()
    ensures var w := After(DRIFT, 6);
            && 2 in w.db.photos && w.db.photos[2] == Photo(1, 10, Uploading, 0) && !Counted(w, 2)
            && 1 in w.db.events && w.db.events[1] == Event(1, 1, 10, false) && 1 in w.db.users && w.db.users[1] == 10
  {
    DriftUploads();
    DriftLoads();
    AfterNext(DRIFT, 5);
    var w := After(DRIFT, 5);
    assert w.db.photos[1] == Photo(1, 10, Uploading, 0);
    assert After(DRIFT, 6) == AfterMark(w, 1, 10);
  }

  /** A never-counted FAILED photo beside a counted one: deleting it makes the event's count too small. */
  lemma DriftHappens()
    ensures Exact(After(DRIFT, 7)) && Drifts(After(DRIFT, 7), Delete(2, 1))
  {
    DriftCounts();
    AfterNext(DRIFT, 6);
    DriftExact();
  }

  lemma DriftExact()
    ensures Exact(After(DRIFT, 7))
  {
    forall k | 0 <= k < 7 ensures !Drifts(After(DRIFT, k), DRIFT[k]) {
      assert !DRIFT[k].Delete?;
    }
    ExactThroughout(DRIFT);
  }
}
