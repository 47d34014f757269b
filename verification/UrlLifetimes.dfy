/**
 How long a presigned URL can outlive its event's row.

 Initialize signs a URL only after finding the event open; whoever asks for a fresh URL for a photo that is still
 UPLOADING gets one without that check. The grace keeps the first kind apart from the purge, not the second.
 */
module UrlLifetimes {
  import opened Wrappers
  import opened ObjectKeys
  import opened PurgeJob
  import opened PurgeRaces
  import Rules = EventRules

  // ---------------------------------------------------------------- how long after the upload the row can go

  /** Since t no date of the event lies before t. */
  predicate OpenSince(w: World, e: Uuid, t: int) {
    e in w.used && t <= w.now &&
    (e in w.state.events ==> (w.state.events[e].deletedAt.Some? ==> t <= w.state.events[e].deletedAt.value)
                             && (w.state.events[e].expiresAt.Some? ==> t <= w.state.events[e].expiresAt.value))
  }

  predicate CheckedSince(w: World, e: Uuid, checked: Option<int>) {
    checked.Some? ==> OpenSince(w, e, checked.value)
  }

  ghost predicate CallFresh(w: World, call: Call) {
    match call
    case Opened(e, at) => OpenSince(w, e, at)
    case Signing(e, k, checked) => UnderEvent(k, e) && CheckedSince(w, e, checked)
    case Putting(_, _) => true
  }

  ghost predicate UrlFresh(w: World, k: string, url: Url) {
    UnderEvent(k, url.event) && url.signedAt <= w.now && CheckedSince(w, url.event, url.checked)
  }

  ghost predicate Fresh(w: World) {
    Inv(w) && (forall c :: c in w.calls ==> CallFresh(w, w.calls[c])) && (forall k :: k in w.urls ==> UrlFresh(w, k, w.urls[k]))
  }

  predicate Honest(w: World, s: Step) {
    s.Rows? ==> forall e :: e in w.state.events && e in s.next.events ==> !Rules.Backdated(w.state.events[e], s.next.events[e], w.now)
  }

  lemma OpenStays(grace: nat, w: World, s: Step, e: Uuid, t: int)
    requires Inv(w) && Honest(w, s) && OpenSince(w, e, t)
    ensures OpenSince(Next(grace, w, s), e, t)
  {
  }

  lemma CallStays(grace: nat, w: World, s: Step, call: Call)
    requires Inv(w) && Honest(w, s) && CallFresh(w, call)
    ensures CallFresh(Next(grace, w, s), call)
  {
    if call.Opened? {
      OpenStays(grace, w, s, call.event, call.at);
    } else if call.Signing? && call.checked.Some? {
      OpenStays(grace, w, s, call.event, call.checked.value);
    }
  }

  lemma NewCall(grace: nat, w: World, s: Step, c: int)
    requires Inv(w) && c in Next(grace, w, s).calls && (c in w.calls ==> CallFresh(w, w.calls[c]) && Next(grace, w, s).calls[c] != w.calls[c])
    ensures CallFresh(w, Next(grace, w, s).calls[c])
  {
    NewKeyUnder(grace, w, s, c);
  }

  lemma UrlStays(grace: nat, w: World, s: Step, k: string, url: Url)
    requires Inv(w) && Honest(w, s) && UrlFresh(w, k, url)
    ensures UrlFresh(Next(grace, w, s), k, url)
  {
    if url.checked.Some? {
      OpenStays(grace, w, s, url.event, url.checked.value);
    }
  }

  lemma NewUrl(grace: nat, w: World, s: Step, k: string)
    requires Fresh(w) && k in Next(grace, w, s).urls && (k in w.urls ==> Next(grace, w, s).urls[k] != w.urls[k])
    ensures UrlFresh(w, k, Next(grace, w, s).urls[k])
  {
    assert s.Act? && CallFresh(w, w.calls[s.c]);
  }

  lemma FreshStep(grace: nat, w: World, s: Step)
    requires Fresh(w) && Honest(w, s)
    ensures Fresh(Next(grace, w, s))
  {
    var v := Next(grace, w, s);
    InvStep(grace, w, s);
    forall c | c in v.calls ensures CallFresh(v, v.calls[c]) {
      if !(c in w.calls && v.calls[c] == w.calls[c]) { NewCall(grace, w, s, c); }
      CallStays(grace, w, s, v.calls[c]);
    }
    forall k | k in v.urls ensures UrlFresh(v, k, v.urls[k]) {
      if !(k in w.urls && v.urls[k] == w.urls[k]) { NewUrl(grace, w, s, k); }
      UrlStays(grace, w, s, k, v.urls[k]);
    }
  }

  /** No call, URL or purge is under way. */
  ghost predicate Quiet(w: World) {
    Inv(w) && w.calls == map[] && w.urls == map[] && w.jobs == map[]
  }

  ghost predicate AllHonest(grace: nat, w: World, steps: seq<Step>)
    decreases |steps|
  {
    steps != [] ==>
      AllHonest(grace, w, steps[..|steps| - 1]) && Honest(Run(grace, w, steps[..|steps| - 1]), steps[|steps| - 1])
  }

  lemma {:induction false} FreshAlways(grace: nat, w: World, steps: seq<Step>)
    requires Quiet(w) && AllHonest(grace, w, steps)
    ensures Fresh(Run(grace, w, steps))
    decreases |steps|
  {
    if steps != [] {
      var before := steps[..|steps| - 1];
      FreshAlways(grace, w, before);
      FreshStep(grace, Run(grace, w, before), steps[|steps| - 1]);
    }
  }

  ghost predicate EndsAt(grace: nat, w: World, steps: seq<Step>, v: World) {
    AllHonest(grace, w, steps) && Run(grace, w, steps) == v
  }

  /** Some run from w that sets no date in the past ends at v. */
  ghost predicate Leads(grace: nat, w: World, v: World) {
    exists steps :: EndsAt(grace, w, steps, v)
  }

  /** The row of e goes next, rightly: it has been purgeable since its listing. */
  predicate DropsRightly(grace: nat, w: World, e: Uuid) {
    CanDrop(w, e) && e in w.state.events && Rules.Purgeable(w.state.events[e], w.jobs[e].start - grace)
  }

  /**
   * In any run that sets no date in the past: when a row rightly goes while a URL for one of its objects is still good, the URL
   * was signed without looking whether the event is open, or at least grace less its life after looking.
   */
  lemma GoodUrlMeans(grace: nat, w: World, v: World, e: Uuid, k: string)
    requires Quiet(w) && Leads(grace, w, v)
    requires DropsRightly(grace, v, e) && Recorded(v.state, e, k) && Good(v, k)
    ensures v.urls[k].checked.Some? ==> v.urls[k].signedAt - v.urls[k].checked.value >= grace - PRESIGN_TTL
  {
    var steps :| EndsAt(grace, w, steps, v);
    FreshAlways(grace, w, steps);
    LapsedUrl(grace, v, e, k);
  }

  lemma LapsedUrl(grace: nat, v: World, e: Uuid, k: string)
    requires Fresh(v) && DropsRightly(grace, v, e) && Recorded(v.state, e, k) && Good(v, k)
    ensures v.urls[k].checked.Some? ==> v.urls[k].signedAt - v.urls[k].checked.value >= grace - PRESIGN_TTL
  {
    RecordedUnder(v.state, e, k);
    assert UrlFresh(v, k, v.urls[k]);
    OneEventPerKey(k, e, v.urls[k].event);
  }

  // ---------------------------------------------------------------- URLs that outlive the row

  /** A URL signed at once when initialize found the event open is still good when the event's row rightly goes. */
  ghost predicate Outlives(grace: nat, w: World, v: World, e: Uuid, k: string) {
    Quiet(w) && Leads(grace, w, v) && DropsRightly(grace, v, e) && Recorded(v.state, e, k)
    && Good(v, k) && v.urls[k].checked == Some(v.urls[k].signedAt)
  }

  /** One event, and perhaps one photo of it, which has the event's id. */
  function Lone(e: Uuid, k: string, status: Rules.Status, expiresAt: Option<int>, deletedAt: Option<int>, photo: bool): State {
    State(map[e := Rules.Event(0, status, expiresAt, deletedAt, None)],
          if photo then map[e := PhotoRow(e, k, "", "", "")] else map[], map[], {})
  }

  predicate IsLone(s: State, e: Uuid, k: string) {
    e in s.events && s == Lone(e, k, s.events[e].status, s.events[e].expiresAt, s.events[e].deletedAt, true)
  }

  lemma HonestNext(grace: nat, w: World, steps: seq<Step>, s: Step)
    requires AllHonest(grace, w, steps) && Honest(Run(grace, w, steps), s)
    ensures AllHonest(grace, w, steps + [s])
  {
    assert (steps + [s])[..|steps|] == steps && (steps + [s])[|steps|] == s;
  }

  lemma LeadsOn(grace: nat, w: World, v: World, s: Step, u: World)
    requires Leads(grace, w, v) && Honest(v, s) && u == Next(grace, v, s)
    ensures Leads(grace, w, u)
  {
    var steps :| EndsAt(grace, w, steps, v);
    HonestNext(grace, w, steps, s);
    RunNext(grace, w, steps, s);
    assert EndsAt(grace, w, steps + [s], u);
  }

  lemma LeadsNowhere(grace: nat, w: World)
    ensures Leads(grace, w, w)
  {
    assert EndsAt(grace, w, [], w);
  }

  lemma LoneOk(s: State, e: Uuid, k: string)
    requires IsLone(s, e, k) && IsOriginal(k, e) && k != ""
    ensures RowsOk(s)
  {
  }

  lemma LoneRecords(s: State, e: Uuid, k: string)
    requires IsLone(s, e, k) && k != ""
    ensures Recorded(s, e, k) && RecordedKeys(s, e) == {k}
  {
    assert PhotoRecords(s, e, e, k);
    assert forall l :: Recorded(s, e, l) <==> l == k;
  }

  // The purge of the event with its one photo.

  function WithJob(v: World, e: Uuid, keys: Option<set<string>>): World {
    v.(jobs := map[e := Job(v.now, keys)])
  }

  lemma LoneListing(grace: nat, w: World, v: World, e: Uuid, k: string)
    requires Leads(grace, w, v) && IsLone(v.state, e, k) && v.jobs == map[] && Rules.Purgeable(v.state.events[e], v.now - grace)
    ensures Leads(grace, w, WithJob(v, e, None))
  {
    LeadsOn(grace, w, v, List(e, v.now), WithJob(v, e, None));
  }

  lemma LoneReading(grace: nat, w: World, v: World, e: Uuid, k: string)
    requires Leads(grace, w, WithJob(v, e, None)) && IsLone(v.state, e, k) && k != ""
    ensures Leads(grace, w, WithJob(v, e, Some({k})))
  {
    LoneRecords(v.state, e, k);
    LeadsOn(grace, w, WithJob(v, e, None), ReadKeys(e), WithJob(v, e, Some({k})));
  }

  lemma LoneDeleting(grace: nat, w: World, v: World, e: Uuid, k: string)
    requires Leads(grace, w, WithJob(v, e, Some({k}))) && IsLone(v.state, e, k)
    ensures Leads(grace, w, WithJob(v, e, Some({})))
  {
    assert WithoutObject(v.state, k) == v.state;
    assert {k} - {k} == {};
    LeadsOn(grace, w, WithJob(v, e, Some({k})), DeleteNext(e, k), WithJob(v, e, Some({})));
  }

  lemma LonePurge(grace: nat, w: World, v: World, e: Uuid, k: string)
    requires Leads(grace, w, v) && IsLone(v.state, e, k) && k != "" && v.jobs == map[] && Rules.Purgeable(v.state.events[e], v.now - grace)
    ensures Leads(grace, w, WithJob(v, e, Some({}))) && DropsRightly(grace, WithJob(v, e, Some({})), e) && Recorded(v.state, e, k)
  {
    LoneListing(grace, w, v, e, k);
    LoneReading(grace, w, v, e, k);
    LoneDeleting(grace, w, v, e, k);
    LoneRecords(v.state, e, k);
  }

  // An upload, signed at once; the owner deletes the event at once; the grace goes by.

  function LoneWorld(e: Uuid, state: State, calls: map<int, Call>, urls: map<string, Url>, now: int): World {
    World(state, {e}, now, urls, calls, map[], {e})
  }

  function Beginning(e: Uuid): World {
    LoneWorld(e, Lone(e, "", Rules.Active, None, None, false), map[], map[], 0)
  }

  function Begun(e: Uuid, k: string, calls: map<int, Call>): World {
    LoneWorld(e, Lone(e, k, Rules.Active, None, None, true), calls, map[], 0)
  }

  function Signed(e: Uuid, k: string, deletedAt: Option<int>, now: int): World {
    LoneWorld(e, Lone(e, k, Rules.Active, None, deletedAt, true), map[], map[k := Url(e, 0, Some(0))], now)
  }

  lemma UploadOpens(grace: nat, e: Uuid)
    ensures Leads(grace, Beginning(e), Beginning(e).(calls := map[0 := Opened(e, 0)]))
  {
    LeadsNowhere(grace, Beginning(e));
    LeadsOn(grace, Beginning(e), Beginning(e), Check(0, e), Beginning(e).(calls := map[0 := Opened(e, 0)]));
  }

  lemma UploadInserts(grace: nat, e: Uuid, k: string)
    requires k == OriginalKey(e, e, e, "a.jpg")
    requires Leads(grace, Beginning(e), Beginning(e).(calls := map[0 := Opened(e, 0)]))
    ensures Leads(grace, Beginning(e), Begun(e, k, map[0 := Signing(e, k, Some(0))]))
  {
    var v := Beginning(e).(calls := map[0 := Opened(e, 0)]);
    InsertedIs(v, e, k);
    LeadsOn(grace, Beginning(e), v, Insert(0, e, e, e, "a.jpg"), Inserted(v, 0, e, k));
  }

  lemma InsertedIs(v: World, e: Uuid, k: string)
    requires v == Beginning(e).(calls := map[0 := Opened(e, 0)])
    ensures Inserted(v, 0, e, k) == Begun(e, k, map[0 := Signing(e, k, Some(0))])
  {
  }

  lemma UploadSigns(grace: nat, e: Uuid, k: string)
    requires Leads(grace, Beginning(e), Begun(e, k, map[0 := Signing(e, k, Some(0))]))
    ensures Leads(grace, Beginning(e), Signed(e, k, None, 0))
  {
    LeadsOn(grace, Beginning(e), Begun(e, k, map[0 := Signing(e, k, Some(0))]), Act(0), Signed(e, k, None, 0));
  }

  lemma UploadDeleted(grace: nat, e: Uuid, k: string)
    requires IsOriginal(k, e) && k != "" && Leads(grace, Beginning(e), Signed(e, k, None, 0))
    ensures Leads(grace, Beginning(e), Signed(e, k, Some(0), 0))
  {
    var deleted := Lone(e, k, Rules.Active, None, Some(0), true);
    LoneOk(deleted, e, k);
    assert {e} + deleted.events.Keys == {e};
    LeadsOn(grace, Beginning(e), Signed(e, k, None, 0), Rows(deleted, {e}), Signed(e, k, Some(0), 0));
  }

  lemma UploadWaits(grace: nat, e: Uuid, k: string)
    requires k == OriginalKey(e, e, e, "a.jpg")
    ensures Leads(grace, Beginning(e), Signed(e, k, Some(0), grace)) && k != ""
  {
    OriginalUnder(k, e, e, e, "a.jpg");
    assert OriginalOf(k, e, e, e, "a.jpg");
    UploadOpens(grace, e);
    UploadInserts(grace, e, k);
    UploadSigns(grace, e, k);
    UploadDeleted(grace, e, k);
    LeadsOn(grace, Beginning(e), Signed(e, k, Some(0), 0), Tick(grace), Signed(e, k, Some(0), grace));
  }

  lemma OutlivesHappens(grace: nat, e: Uuid, k: string)
    requires grace <= PRESIGN_TTL && k != "" && Leads(grace, Beginning(e), Signed(e, k, Some(0), grace))
    ensures Outlives(grace, Beginning(e), WithJob(Signed(e, k, Some(0), grace), e, Some({})), e, k)
  {
    LonePurge(grace, Beginning(e), Signed(e, k, Some(0), grace), e, k);
  }

  const SOME_ID: Uuid := "00000000-0000-4000-8000-000000000000"

  /** A URL signed while the event took uploads can outlive the event's row if and only if the grace is no longer than its life. */
  lemma OutlivesIff(grace: nat)
    ensures (exists w, v, e, k :: Outlives(grace, w, v, e, k)) <==> grace <= PRESIGN_TTL
  {
    if w, v, e, k :| Outlives(grace, w, v, e, k) {
      GoodUrlMeans(grace, w, v, e, k);
    }
    if grace <= PRESIGN_TTL {
      var k := OriginalKey(SOME_ID, SOME_ID, SOME_ID, "a.jpg");
      UploadWaits(grace, SOME_ID, k);
      OutlivesHappens(grace, SOME_ID, k);
    }
  }

  /** … and then the object can return. */
  lemma OutlivesReturns(grace: nat, w: World, v: World, e: Uuid, k: string)
    requires Outlives(grace, w, v, e, k)
    ensures CanReturn(grace, Next(grace, v, DropRow(e)), k)
  {
    var steps :| EndsAt(grace, w, steps, v);
    FreshAlways(grace, w, steps);
    PurgedReturnsIff(grace, v, e, k);
  }

  // An expired event whose photo is still UPLOADING, at the end of its grace: its owner asks for a fresh URL.

  function Abandoned(e: Uuid, k: string, calls: map<int, Call>, urls: map<string, Url>, now: int): World {
    LoneWorld(e, Lone(e, k, Rules.Expired, Some(0), None, true), calls, urls, now)
  }

  lemma AskedSigned(grace: nat, e: Uuid, k: string)
    ensures Leads(grace, Abandoned(e, k, map[], map[], grace), Abandoned(e, k, map[], map[k := Url(e, grace, None)], grace))
  {
    var w := Abandoned(e, k, map[], map[], grace);
    LeadsNowhere(grace, w);
    LeadsOn(grace, w, w, Ask(0, e), Abandoned(e, k, map[0 := Signing(e, k, None)], map[], grace));
    LeadsOn(grace, w, Abandoned(e, k, map[0 := Signing(e, k, None)], map[], grace), Act(0), Abandoned(e, k, map[], map[k := Url(e, grace, None)], grace));
  }

  /** However long the grace, a fresh URL asked for just before the purge can bring an object back when its row has gone. */
  lemma AskedReturns(grace: nat, e: Uuid, k: string)
    requires IsOriginal(k, e) && k != ""
    ensures var w := Abandoned(e, k, map[], map[], grace);
            var v := WithJob(Abandoned(e, k, map[], map[k := Url(e, grace, None)], grace), e, Some({}));
            && Quiet(w) && Leads(grace, w, v) && DropsRightly(grace, v, e)
            && Recorded(v.state, e, k) && CanReturn(grace, Next(grace, v, DropRow(e)), k)
  {
    var v := Abandoned(e, k, map[], map[k := Url(e, grace, None)], grace);
    LoneOk(v.state, e, k);
    AskedSigned(grace, e, k);
    LonePurge(grace, Abandoned(e, k, map[], map[], grace), v, e, k);
    PurgedReturnsIff(grace, WithJob(v, e, Some({})), e, k);
  }
}
