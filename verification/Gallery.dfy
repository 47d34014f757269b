/**
 Signed photo URLs for the public gallery: one at a time, and many in one call.

 Parsing a UUID, checking an unlock token, the owner's plan, signing, and which event a slug finds are parameters.
 */
module Gallery {
  import opened Wrappers
  import Keys = ObjectKeys
  import Names = EntryNames

  type Uuid = Keys.Uuid
  type EventId = string
  type UserId = string

  datatype Error =
    | EventNotFound | Unauthorized | InvalidVariant | NoPhotoIds | TooManyPhotoIds | InvalidPhotoId
    | DownloadDisabled | OriginalDownloadDisabled | PhotoNotFound | VariantUnavailable | Internal

  datatype Visibility = Public | Password | Private

  datatype EventStatus = Upcoming | Active | Completed | Archived | Expired

  datatype Event = Event(id: EventId, owner: UserId, status: EventStatus, deleted: bool, expiresAt: Option<int>)

  datatype Settings = Settings(visibility: Visibility, allowDownload: bool, allowOriginalDownload: bool)

  datatype PhotoStatus = Uploading | Processing | Ready | Failed

  datatype Photo = Photo(event: EventId, status: PhotoStatus, storageKey: string, thumbnailKey: Option<string>,
                         mediumKey: Option<string>, optimizedKey: Option<string>)

  datatype World = World(
    now: int,
    events: map<string, (Event, Settings)>,
    photos: map<Uuid, Photo>,
    parse: string -> Option<Uuid>,
    lower: char -> char,
    unlocks: (string, EventId) -> bool,
    originalDownloads: Option<UserId -> Option<bool>>,
    presign: string -> Option<string>)

  /** A parsed UUID, written out again, parses to itself; small letters stay as they are. */
  ghost predicate IsWorld(w: World) {
    (forall s :: w.parse(s).Some? ==> w.parse(w.parse(s).value) == w.parse(s)) && forall c :: 'a' <= c <= 'z' ==> w.lower(c) == c
  }

  datatype Visible = Visible(event: EventId, allowDownload: bool, allowOriginalDownload: bool)

  // ---------------------------------------------------------------- what may be seen

  /** The event a slug finds: not deleted, not archived, not expired in either way. */
  function EventBySlug(w: World, slug: string): Option<(Event, Settings)> {
    if slug in w.events
      && !w.events[slug].0.deleted && !w.events[slug].0.status.Archived? && !w.events[slug].0.status.Expired?
      && (w.events[slug].0.expiresAt.None? || w.events[slug].0.expiresAt.value > w.now)
    then Some(w.events[slug]) else None
  }

  /** The plan takes away original downloads that the settings allow; None when the plan cannot be read. */
  function EffectiveOriginal(w: World, owner: UserId, s: Settings): Option<bool> {
    if w.originalDownloads.None? || !s.allowOriginalDownload then Some(s.allowOriginalDownload)
    else w.originalDownloads.value(owner)
  }

  function VisibleEvent(w: World, slug: string, unlockToken: string): Result<Visible, Error> {
    var trimmed := Keys.TrimSpace(slug);
    if trimmed == "" then Err(EventNotFound)
    else
      var found := EventBySlug(w, trimmed);
      if found.None? then Err(EventNotFound)
      else
        var (event, settings) := found.value;
        if settings.visibility.Private? then Err(EventNotFound)
        else if settings.visibility.Password? && (unlockToken == "" || !w.unlocks(unlockToken, event.id)) then Err(Unauthorized)
        else
          var original := EffectiveOriginal(w, event.owner, settings);
          if original.None? then Err(Internal)
          else Ok(Visible(event.id, settings.allowDownload, original.value))
  }

  predicate IsVariant(v: string) {
    v == "thumbnail" || v == "medium" || v == "large" || v == "original"
  }

  function Normalized(w: World, variant: string): string {
    Names.Lower(w.lower, Keys.TrimSpace(variant))
  }

  /** The download policy, which concerns originals only. */
  function Denied(e: Visible, v: string): Option<Error> {
    if v != "original" then None
    else if !e.allowDownload then Some(DownloadDisabled)
    else if !e.allowOriginalDownload then Some(OriginalDownloadDisabled)
    else None
  }

  // ---------------------------------------------------------------- signing one photo

  function Deref(key: Option<string>): Option<string> {
    if key.None? || key.value == "" then None else key
  }

  function VariantKey(w: World, p: Photo, variant: string): Option<string> {
    var v := Normalized(w, variant);
    if v == "thumbnail" then Deref(p.thumbnailKey)
    else if v == "medium" then Deref(p.mediumKey)
    else if v == "large" then Deref(p.optimizedKey)
    else if v == "original" then Deref(Some(p.storageKey))
    else None
  }

  /** SignedURLGenerator.URL. */
  function SignedUrl(w: World, p: Photo, variant: string): Result<string, Error> {
    var key := VariantKey(w, p, variant);
    if key.None? then Err(VariantUnavailable)
    else
      var url := w.presign(key.value);
      if url.None? then Err(Internal) else Ok(url.value)
  }

  predicate IsReady(w: World, event: EventId, id: Uuid) {
    id in w.photos && w.photos[id].event == event && w.photos[id].status.Ready?
  }

  /** What a single call answers. */
  function Single(w: World, slug: string, unlockToken: string, photoId: string, variant: string): Result<string, Error> {
    var visible := VisibleEvent(w, slug, unlockToken);
    if visible.Err? then Err(visible.error)
    else
      var v := Normalized(w, variant);
      if !IsVariant(v) then Err(InvalidVariant)
      else
        var denied := Denied(visible.value, v);
        if denied.Some? then Err(denied.value)
        else
          var id := w.parse(photoId);
          if id.None? || !IsReady(w, visible.value.event, id.value) then Err(PhotoNotFound)
          else SignedUrl(w, w.photos[id.value], v)
  }

  /** How many downloads a single call records: one for a signed original. */
  function Recorded(w: World, slug: string, unlockToken: string, photoId: string, variant: string): nat {
    if Single(w, slug, unlockToken, photoId, variant).Ok? && Normalized(w, variant) == "original" then 1 else 0
  }

  // ---------------------------------------------------------------- signing many photos

  const MAX_PHOTO_URL_BATCH := 100

  /** The error every call meets that the event, the variant or the download policy rules out. */
  function Policy(w: World, slug: string, unlockToken: string, variant: string): Option<Error> {
    var visible := VisibleEvent(w, slug, unlockToken);
    if visible.Err? then Some(visible.error)
    else if !IsVariant(Normalized(w, variant)) then Some(InvalidVariant)
    else Denied(visible.value, Normalized(w, variant))
  }

  function ParseTrimmed(w: World, raw: string): Option<Uuid> {
    w.parse(Keys.TrimSpace(raw))
  }

  predicate AllParse(w: World, raws: seq<string>) {
    forall i :: 0 <= i < |raws| ==> ParseTrimmed(w, raws[i]).Some?
  }

  /** The ids asked for, each once, in the order they first come. */
  function Asked(w: World, raws: seq<string>): seq<Uuid>
    requires AllParse(w, raws)
  {
    if raws == [] then []
    else
      var before := Asked(w, raws[..|raws| - 1]);
      var id := ParseTrimmed(w, raws[|raws| - 1]).value;
      if id in before then before else before + [id]
  }

  /** Each id asked for is there exactly once, and nothing else. */
  lemma {:induction false} AskedOnce(w: World, raws: seq<string>, id: Uuid)
    requires AllParse(w, raws)
    ensures id in Asked(w, raws) <==> exists i :: 0 <= i < |raws| && ParseTrimmed(w, raws[i]).value == id
    ensures forall i, j :: 0 <= i < j < |Asked(w, raws)| ==> Asked(w, raws)[i] != Asked(w, raws)[j]
  {
    if raws != [] {
      AskedOnce(w, raws[..|raws| - 1], id);
    }
  }

  lemma {:induction false} AskedCanonical(w: World, raws: seq<string>)
    requires IsWorld(w) && AllParse(w, raws)
    ensures AllCanonical(w, Asked(w, raws))
  {
    if raws != [] {
      AskedCanonical(w, raws[..|raws| - 1]);
    }
  }

  predicate AllCanonical(w: World, ids: seq<Uuid>) {
    forall i :: 0 <= i < |ids| ==> w.parse(ids[i]) == Some(ids[i])
  }

  /** One call, as a client makes it for the whole list. */
  datatype Call = Call(slug: string, unlockToken: string, variant: string)

  function Alone(w: World, c: Call, id: Uuid): Result<string, Error> {
    Single(w, c.slug, c.unlockToken, id, c.variant)
  }

  /** What the single calls for these ids record together. */
  function RecordedTogether(w: World, c: Call, ids: seq<Uuid>): nat {
    if ids == [] then 0
    else RecordedTogether(w, c, ids[..|ids| - 1]) + Recorded(w, c.slug, c.unlockToken, ids[|ids| - 1], c.variant)
  }

  /** The URLs are those the single calls return, for the ids whose single call returns one. */
  ghost predicate UrlsAgree(w: World, c: Call, ids: seq<Uuid>, urls: map<Uuid, string>) {
    (forall id :: id in urls <==> id in ids && Alone(w, c, id).Ok?) &&
    (forall id :: id in urls ==> urls[id] == Alone(w, c, id).value)
  }

  ghost predicate SomeSigningFails(w: World, c: Call, ids: seq<Uuid>) {
    exists i :: 0 <= i < |ids| && Alone(w, c, ids[i]) == Err(Internal)
  }

  function WithDownloads(d: map<EventId, nat>, event: EventId, n: nat): map<EventId, nat> {
    if n == 0 then d else d[event := n + if event in d then d[event] else 0]
  }

  predicate Records(w: World, slug: string, unlockToken: string, before: map<EventId, nat>, after: map<EventId, nat>, n: nat) {
    var visible := VisibleEvent(w, slug, unlockToken);
    visible.Ok? && after == WithDownloads(before, visible.value.event, n)
  }

  class Service {
    const w: World
    var downloads: map<EventId, nat>

    constructor (w: World)
      ensures this.w == w && downloads == map[]
    {
      this.w := w;
      downloads := map[];
    }

    method RecordDownloads(event: EventId, n: nat)
      modifies this
      ensures downloads == WithDownloads(old(downloads), event, n)
    {
      if n > 0 {
        downloads := downloads[event := n + if event in downloads then downloads[event] else 0];
      }
    }

    method PhotoURL(slug: string, unlockToken: string, photoId: string, variant: string) returns (r: Result<string, Error>)
      requires IsWorld(w)
      modifies this
      ensures r == Single(w, slug, unlockToken, photoId, variant)
      ensures r.Err? ==> downloads == old(downloads)
      ensures r.Ok? ==> Records(w, slug, unlockToken, old(downloads), downloads, Recorded(w, slug, unlockToken, photoId, variant))
    {
      var visible := VisibleEvent(w, slug, unlockToken);
      if visible.Err? { return Err(visible.error); }
      var ve := visible.value;
      var v := Normalized(w, variant);
      if !IsVariant(v) { return Err(InvalidVariant); }
      if v == "original" {
        if !ve.allowDownload { return Err(DownloadDisabled); }
        if !ve.allowOriginalDownload { return Err(OriginalDownloadDisabled); }
      }
      var id := w.parse(photoId);
      if id.None? || !IsReady(w, ve.event, id.value) { return Err(PhotoNotFound); }
      r := SignedUrl(w, w.photos[id.value], v);
      if r.Ok? && v == "original" {
        RecordDownloads(ve.event, 1);
      }
    }

    method BatchPhotoURLs(slug: string, unlockToken: string, variant: string, photoIds: seq<string>)
      returns (r: Result<map<Uuid, string>, Error>)
      requires IsWorld(w)
      modifies this
      ensures r.Err? ==> downloads == old(downloads)
      ensures r.Ok? ==> 1 <= |photoIds| <= MAX_PHOTO_URL_BATCH && AllParse(w, photoIds)
      ensures VisibleEvent(w, slug, unlockToken).Err? || !IsVariant(Normalized(w, variant))
        ==> r == Err(Policy(w, slug, unlockToken, variant).value)
      ensures VisibleEvent(w, slug, unlockToken).Ok? && IsVariant(Normalized(w, variant)) && |photoIds| == 0 ==> r == Err(NoPhotoIds)
      ensures VisibleEvent(w, slug, unlockToken).Ok? && IsVariant(Normalized(w, variant)) && |photoIds| > MAX_PHOTO_URL_BATCH
        ==> r == Err(TooManyPhotoIds)
      ensures 1 <= |photoIds| <= MAX_PHOTO_URL_BATCH && !AllParse(w, photoIds) && Policy(w, slug, unlockToken, variant).None?
        ==> r == Err(InvalidPhotoId)
      ensures 1 <= |photoIds| <= MAX_PHOTO_URL_BATCH && Policy(w, slug, unlockToken, variant).Some?
        ==> r == Err(Policy(w, slug, unlockToken, variant).value)
      ensures 1 <= |photoIds| <= MAX_PHOTO_URL_BATCH && AllParse(w, photoIds) && Policy(w, slug, unlockToken, variant).None?
        ==> Agrees(w, Call(slug, unlockToken, variant), Asked(w, photoIds), r)
      ensures r.Ok? ==> Records(w, slug, unlockToken, old(downloads), downloads, RecordedTogether(w, Call(slug, unlockToken, variant), Asked(w, photoIds)))
    {
      var visible := VisibleEvent(w, slug, unlockToken);
      if visible.Err? { return Err(visible.error); }
      var ve := visible.value;
      var v := Normalized(w, variant);
      if !IsVariant(v) { return Err(InvalidVariant); }
      if |photoIds| == 0 { return Err(NoPhotoIds); }
      if |photoIds| > MAX_PHOTO_URL_BATCH { return Err(TooManyPhotoIds); }
      if v == "original" {
        if !ve.allowDownload { return Err(DownloadDisabled); }
        if !ve.allowOriginalDownload { return Err(OriginalDownloadDisabled); }
      }
      var ids := ParseIds(photoIds);
      if ids.None? { return Err(InvalidPhotoId); }
      AskedCanonical(w, photoIds);
      var signed := SignAll(ve, Call(slug, unlockToken, variant), v, ids.value);
      if signed.None? { return Err(Internal); }
      var (urls, count) := signed.value;
      RecordDownloads(ve.event, count);
      return Ok(urls);
    }

    method ParseIds(raws: seq<string>) returns (r: Option<seq<Uuid>>)
      ensures r.Some? <==> AllParse(w, raws)
      ensures r.Some? ==> r.value == Asked(w, raws)
    {
      var ids: seq<Uuid> := [];
      var seen: set<Uuid> := {};
      var i := 0;
      while i < |raws|
        invariant 0 <= i <= |raws| && AllParse(w, raws[..i])
        invariant ids == Asked(w, raws[..i])
        invariant forall id :: id in seen <==> id in ids
      {
        var id := ParseTrimmed(w, raws[i]);
        if id.None? { return None; }
        assert raws[..i + 1][..i] == raws[..i];
        if id.value !in seen {
          seen := seen + {id.value};
          ids := ids + [id.value];
        }
        i := i + 1;
      }
      assert raws[..i] == raws;
      return Some(ids);
    }

    /** ReadyPhotos: the ready photos of the event among the ids. */
    method ReadyPhotos(event: EventId, ids: seq<Uuid>) returns (found: map<Uuid, Photo>)
      ensures forall id :: id in found <==> id in ids && IsReady(w, event, id)
      ensures forall id :: id in found ==> id in w.photos && found[id] == w.photos[id]
    {
      found := map id | id in w.photos && id in ids && IsReady(w, event, id) :: w.photos[id];
    }

    /** One id's turn in the loop. */
    method SignOne(ve: Visible, c: Call, v: string, found: map<Uuid, Photo>, ghost ids: seq<Uuid>, ghost i: nat, id: Uuid,
                   urls0: map<Uuid, string>, count0: nat)
      returns (failed: bool, urls: map<Uuid, string>, count: nat)
      requires i < |ids| && id == ids[i] && w.parse(id) == Some(id) && IsWorld(w)
      requires Allowed(w, c, ve, v) && (id in found <==> IsReady(w, ve.event, id)) && (id in found ==> found[id] == w.photos[id])
      requires SignedSoFar(w, c, ids[..i], urls0, count0)
      ensures failed ==> SomeSigningFails(w, c, ids)
      ensures !failed ==> SignedSoFar(w, c, ids[..i + 1], urls, count)
    {
      urls, count := urls0, count0;
      AloneIs(w, c, ve, id);
      SignOneMore(w, c, ids, i, urls, count);
      if id !in found { return false, urls, count; }
      var result := SignedUrl(w, found[id], v);
      if result.Err? { return result.error != VariantUnavailable, urls, count; }
      urls := urls[id := result.value];
      if v == "original" {
        count := count + 1;
      }
      failed := false;
    }

    method SignAll(ve: Visible, c: Call, v: string, ids: seq<Uuid>) returns (r: Option<(map<Uuid, string>, nat)>)
      requires IsWorld(w) && Allowed(w, c, ve, v) && AllCanonical(w, ids)
      ensures r.None? ==> SomeSigningFails(w, c, ids)
      ensures r.Some? ==> SignedSoFar(w, c, ids, r.value.0, r.value.1)
    {
      var found := ReadyPhotos(ve.event, ids);
      var urls: map<Uuid, string> := map[];
      var count := 0;
      var i := 0;
      while i < |ids|
        invariant 0 <= i <= |ids|
        invariant SignedSoFar(w, c, ids[..i], urls, count)
      {
        var failed;
        failed, urls, count := SignOne(ve, c, v, found, ids, i, ids[i], urls, count);
        if failed { return None; }
        i := i + 1;
      }
      assert ids[..i] == ids;
      return Some((urls, count));
    }
  }

  /** The call gets past the visibility and download policy. */
  predicate Allowed(w: World, c: Call, ve: Visible, v: string) {
    VisibleEvent(w, c.slug, c.unlockToken) == Ok(ve) && v == Normalized(w, c.variant) && Policy(w, c.slug, c.unlockToken, c.variant).None?
  }

  /** How a batch that is allowed stands to the single calls. */
  ghost predicate Agrees(w: World, c: Call, ids: seq<Uuid>, r: Result<map<Uuid, string>, Error>) {
    if SomeSigningFails(w, c, ids) then r == Err(Internal) else r.Ok? && UrlsAgree(w, c, ids, r.value)
  }

  lemma AloneIs(w: World, c: Call, ve: Visible, id: Uuid)
    requires IsWorld(w) && w.parse(id) == Some(id)
    requires VisibleEvent(w, c.slug, c.unlockToken) == Ok(ve) && Policy(w, c.slug, c.unlockToken, c.variant).None?
    ensures Alone(w, c, id) == if IsReady(w, ve.event, id) then SignedUrl(w, w.photos[id], Normalized(w, c.variant)) else Err(PhotoNotFound)
  {
  }

  ghost predicate SignedSoFar(w: World, c: Call, ids: seq<Uuid>, urls: map<Uuid, string>, count: nat) {
    !SomeSigningFails(w, c, ids) && UrlsAgree(w, c, ids, urls) && count == RecordedTogether(w, c, ids)
  }

  lemma SignOneMore(w: World, c: Call, ids: seq<Uuid>, i: nat, urls: map<Uuid, string>, count: nat)
    requires i < |ids| && SignedSoFar(w, c, ids[..i], urls, count)
    ensures var one := Alone(w, c, ids[i]);
            && (one == Err(Internal) ==> SomeSigningFails(w, c, ids))
            && (one.Err? && one != Err(Internal) ==> SignedSoFar(w, c, ids[..i + 1], urls, count))
            && (one.Ok? ==> SignedSoFar(w, c, ids[..i + 1], urls[ids[i] := one.value],
                                        count + if Normalized(w, c.variant) == "original" then 1 else 0))
  {
    OneMoreId(w, c, ids, i, urls);
  }

  lemma OneMoreId(w: World, c: Call, ids: seq<Uuid>, i: nat, urls: map<Uuid, string>)
    requires i < |ids| && UrlsAgree(w, c, ids[..i], urls) && !SomeSigningFails(w, c, ids[..i])
    ensures var one := Alone(w, c, ids[i]);
            && UrlsAgree(w, c, ids[..i + 1], if one.Ok? then urls[ids[i] := one.value] else urls)
            && (one != Err(Internal) ==> !SomeSigningFails(w, c, ids[..i + 1]))
            && RecordedTogether(w, c, ids[..i + 1])
               == RecordedTogether(w, c, ids[..i]) + if one.Ok? && Normalized(w, c.variant) == "original" then 1 else 0
  {
    assert ids[..i + 1][..i] == ids[..i];
    assert ids[..i + 1] == ids[..i] + [ids[i]];
  }

  /** A policy error is the answer to every single call, whatever its id; otherwise only the photo itself can fail. */
  lemma PolicyCoincides(w: World, slug: string, unlockToken: string, photoId: string, variant: string)
    ensures Policy(w, slug, unlockToken, variant).Some?
      ==> Single(w, slug, unlockToken, photoId, variant) == Err(Policy(w, slug, unlockToken, variant).value)
    ensures Policy(w, slug, unlockToken, variant).None? && Single(w, slug, unlockToken, photoId, variant).Err?
      ==> Single(w, slug, unlockToken, photoId, variant).error in {PhotoNotFound, VariantUnavailable, Internal}
  {
  }
}
