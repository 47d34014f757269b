/**
 Who is given which URL: the answers of the single call and of the batch, in the event's row and settings, the token and the
 photo's row.
 */
module GalleryAccess {
  import opened Wrappers
  import opened Gallery
  import Keys = ObjectKeys
  import Names = EntryNames

  /** The gallery is not there for the public: no such slug, or the event is deleted, archived, expired or private. */
  predicate Hidden(w: World, slug: string) {
    var s := Keys.TrimSpace(slug);
    s == "" || s !in w.events ||
    var (e, settings) := w.events[s];
    e.deleted || e.status in {Archived, Expired} || (e.expiresAt.Some? && e.expiresAt.value <= w.now) || settings.visibility == Private
  }

  function EventOf(w: World, slug: string): Event
    requires !Hidden(w, slug)
  {
    w.events[Keys.TrimSpace(slug)].0
  }

  function SettingsOf(w: World, slug: string): Settings
    requires !Hidden(w, slug)
  {
    w.events[Keys.TrimSpace(slug)].1
  }

  /** A password protects the gallery, and the token is empty or does not unlock this event. */
  predicate Locked(w: World, slug: string, token: string)
    requires !Hidden(w, slug)
  {
    SettingsOf(w, slug).visibility == Password && (token == "" || !w.unlocks(token, EventOf(w, slug).id))
  }

  /** Whether originals may be downloaded depends on the owner's plan, and the plan cannot be read. */
  predicate PlanUnknown(w: World, slug: string)
    requires !Hidden(w, slug)
  {
    SettingsOf(w, slug).allowOriginalDownload && w.originalDownloads.Some? && w.originalDownloads.value(EventOf(w, slug).owner) == None
  }

  predicate Visited(w: World, slug: string, token: string) {
    !Hidden(w, slug) && !Locked(w, slug, token) && !PlanUnknown(w, slug)
  }

  /** The variant asked for, in small letters and without blanks around it. */
  function Wanted(w: World, variant: string): string {
    Names.Lower(w.lower, Keys.TrimSpace(variant))
  }

  const VARIANTS: set<string> := {"thumbnail", "medium", "large", "original"}

  /** The settings allow originals, and so does the plan where there is one. */
  predicate OriginalsAllowed(w: World, slug: string)
    requires !Hidden(w, slug)
  {
    SettingsOf(w, slug).allowOriginalDownload && (w.originalDownloads.Some? ==> w.originalDownloads.value(EventOf(w, slug).owner) == Some(true))
  }

  /** Nothing in the event, the token, the variant or the download settings stands in the way. */
  predicate Admitted(w: World, slug: string, token: string, variant: string) {
    Visited(w, slug, token) && Wanted(w, variant) in VARIANTS &&
    (Wanted(w, variant) == "original" ==> SettingsOf(w, slug).allowDownload && OriginalsAllowed(w, slug))
  }

  /** The photo belongs to the event and is ready. */
  predicate Shows(w: World, slug: string, id: Option<Uuid>)
    requires !Hidden(w, slug)
  {
    id.Some? && id.value in w.photos && w.photos[id.value].event == EventOf(w, slug).id && w.photos[id.value].status == Ready
  }

  /** The row's own key for the variant; empty when it has none. */
  function KeyFor(p: Photo, variant: string): string {
    match variant
    case "thumbnail" => OrEmpty(p.thumbnailKey)
    case "medium" => OrEmpty(p.mediumKey)
    case "large" => OrEmpty(p.optimizedKey)
    case _ => p.storageKey
  }

  function OrEmpty(key: Option<string>): string {
    if key.Some? then key.value else ""
  }

  /** The visitor may have the photo's variant, and `url` is the signature of the photo's own key for it. */
  predicate Granted(w: World, slug: string, token: string, id: Option<Uuid>, variant: string, url: string) {
    Admitted(w, slug, token, variant) && Shows(w, slug, id) &&
    KeyFor(w.photos[id.value], Wanted(w, variant)) != "" && w.presign(KeyFor(w.photos[id.value], Wanted(w, variant))) == Some(url)
  }

  // ---------------------------------------------------------------- one photo

  lemma VisibleIff(w: World, slug: string, token: string)
    ensures VisibleEvent(w, slug, token) ==
              if Hidden(w, slug) then Err(EventNotFound)
              else if Locked(w, slug, token) then Err(Unauthorized)
              else if PlanUnknown(w, slug) then Err(Internal)
              else Ok(Visible(EventOf(w, slug).id, SettingsOf(w, slug).allowDownload, OriginalsAllowed(w, slug)))
  {
  }

  /** A URL is given exactly to a visitor who may have that photo's variant, and is the signature of its own key. */
  lemma UrlIff(w: World, slug: string, token: string, photoId: string, variant: string, url: string)
    requires IsWorld(w)
    ensures Single(w, slug, token, photoId, variant) == Ok(url) <==> Granted(w, slug, token, w.parse(photoId), variant, url)
  {
    VisibleIff(w, slug, token);
    if Admitted(w, slug, token, variant) && Shows(w, slug, w.parse(photoId)) {
      SignedIs(w, w.photos[w.parse(photoId).value], variant);
    }
  }

  predicate AllSmall(s: string) {
    forall i :: 0 <= i < |s| ==> 'a' <= s[i] <= 'z'
  }

  lemma VariantsAreSmall(v: string)
    requires v in VARIANTS
    ensures AllSmall(v)
  {
  }

  lemma SmallIsNoSpace(c: char)
    requires 'a' <= c <= 'z'
    ensures !Keys.IsSpace(c)
  {
  }

  lemma TrimKeeps(v: string)
    requires AllSmall(v)
    ensures Keys.TrimSpace(v) == v
  {
    if v != "" {
      SmallIsNoSpace(v[0]);
      SmallIsNoSpace(v[|v| - 1]);
    }
  }

  lemma LowerKeeps(lower: char -> char, v: string)
    requires AllSmall(v) && forall c :: 'a' <= c <= 'z' ==> lower(c) == c
    ensures Names.Lower(lower, v) == v
  {
  }

  lemma SmallStays(w: World, v: string)
    requires IsWorld(w) && AllSmall(v)
    ensures Normalized(w, v) == v
  {
    TrimKeeps(v);
    LowerKeeps(w.lower, v);
  }

  lemma KeyIs(w: World, p: Photo, v: string)
    requires v in VARIANTS && Normalized(w, v) == v
    ensures VariantKey(w, p, v) == if KeyFor(p, v) == "" then None else Some(KeyFor(p, v))
  {
  }

  lemma SignedIs(w: World, p: Photo, variant: string)
    requires IsWorld(w) && Wanted(w, variant) in VARIANTS
    ensures var key := KeyFor(p, Wanted(w, variant));
            SignedUrl(w, p, Wanted(w, variant)) ==
              (if key == "" then Err(VariantUnavailable) else if w.presign(key).Some? then Ok(w.presign(key).value) else Err(Internal))
  {
    var v := Wanted(w, variant);
    VariantsAreSmall(v);
    SmallStays(w, v);
    KeyIs(w, p, v);
  }

  /** Each refusal means one thing, and is given exactly when that is the first thing in the way. */
  lemma RefusalIff(w: World, slug: string, token: string, photoId: string, variant: string)
    requires IsWorld(w)
    ensures var r, v, id := Single(w, slug, token, photoId, variant), Wanted(w, variant), w.parse(photoId);
            && (r == Err(EventNotFound) <==> Hidden(w, slug))
            && (r == Err(Unauthorized) <==> !Hidden(w, slug) && Locked(w, slug, token))
            && (r == Err(InvalidVariant) <==> Visited(w, slug, token) && v !in VARIANTS)
            && (r == Err(DownloadDisabled) <==> Visited(w, slug, token) && v == "original" && !SettingsOf(w, slug).allowDownload)
            && (r == Err(OriginalDownloadDisabled) <==>
                  Visited(w, slug, token) && v == "original" && SettingsOf(w, slug).allowDownload && !OriginalsAllowed(w, slug))
            && (r == Err(PhotoNotFound) <==> Admitted(w, slug, token, variant) && !Shows(w, slug, id))
            && (r == Err(VariantUnavailable) <==>
                  Admitted(w, slug, token, variant) && Shows(w, slug, id) && KeyFor(w.photos[id.value], v) == "")
            && (r == Err(Internal) <==>
                  (!Hidden(w, slug) && !Locked(w, slug, token) && PlanUnknown(w, slug)) ||
                  (Admitted(w, slug, token, variant) && Shows(w, slug, id) && KeyFor(w.photos[id.value], v) != ""
                   && w.presign(KeyFor(w.photos[id.value], v)) == None))
  {
    VisibleIff(w, slug, token);
    if Admitted(w, slug, token, variant) && Shows(w, slug, w.parse(photoId)) {
      SignedIs(w, w.photos[w.parse(photoId).value], variant);
    }
  }

  /** A download is recorded exactly for an original that is given. */
  lemma RecordedIff(w: World, slug: string, token: string, photoId: string, variant: string)
    ensures Recorded(w, slug, token, photoId, variant) ==
              if Single(w, slug, token, photoId, variant).Ok? && Wanted(w, variant) == "original" then 1 else 0
  {
  }

  // ---------------------------------------------------------------- many photos

  /** Each URL of a batch is one its visitor may have, for an id that was asked for; and every such URL is in it. */
  lemma BatchGives(w: World, c: Call, raws: seq<string>, urls: map<Uuid, string>, id: Uuid, url: string)
    requires IsWorld(w) && AllParse(w, raws) && UrlsAgree(w, c, Asked(w, raws), urls)
    ensures id in urls && urls[id] == url <==>
            (exists i :: 0 <= i < |raws| && w.parse(Keys.TrimSpace(raws[i])) == Some(id)) && Granted(w, c.slug, c.unlockToken, Some(id), c.variant, url)
  {
    AskedOnce(w, raws, id);
    if exists i :: 0 <= i < |raws| && w.parse(Keys.TrimSpace(raws[i])) == Some(id) {
      var i :| 0 <= i < |raws| && w.parse(Keys.TrimSpace(raws[i])) == Some(id);
      assert ParseTrimmed(w, raws[i]).value == id;
      UrlIff(w, c.slug, c.unlockToken, id, c.variant, url);
    }
  }

  /** What rules a whole batch out: the same things that rule out a single call before it looks at the photo. */
  lemma BatchRuledOutIff(w: World, slug: string, token: string, variant: string)
    ensures var p, v := Policy(w, slug, token, variant), Wanted(w, variant);
            && (p == None <==> Admitted(w, slug, token, variant))
            && (p == Some(EventNotFound) <==> Hidden(w, slug))
            && (p == Some(Unauthorized) <==> !Hidden(w, slug) && Locked(w, slug, token))
            && (p == Some(Internal) <==> !Hidden(w, slug) && !Locked(w, slug, token) && PlanUnknown(w, slug))
            && (p == Some(InvalidVariant) <==> Visited(w, slug, token) && v !in VARIANTS)
            && (p == Some(DownloadDisabled) <==> Visited(w, slug, token) && v == "original" && !SettingsOf(w, slug).allowDownload)
            && (p == Some(OriginalDownloadDisabled) <==>
                  Visited(w, slug, token) && v == "original" && SettingsOf(w, slug).allowDownload && !OriginalsAllowed(w, slug))
  {
    VisibleIff(w, slug, token);
  }

  /** The batch fails exactly when a URL that its visitor may have cannot be signed. */
  lemma BatchFailsIff(w: World, c: Call, raws: seq<string>)
    requires IsWorld(w) && AllParse(w, raws) && Policy(w, c.slug, c.unlockToken, c.variant) == None
    ensures SomeSigningFails(w, c, Asked(w, raws)) <==> exists id :: id in Asked(w, raws) && Unsignable(w, c, id)
  {
    BatchRuledOutIff(w, c.slug, c.unlockToken, c.variant);
    AskedCanonical(w, raws);
    forall i | 0 <= i < |Asked(w, raws)| ensures Alone(w, c, Asked(w, raws)[i]) == Err(Internal) <==> Unsignable(w, c, Asked(w, raws)[i]) {
      RefusalIff(w, c.slug, c.unlockToken, Asked(w, raws)[i], c.variant);
    }
    if id :| id in Asked(w, raws) && Unsignable(w, c, id) {
      var i :| 0 <= i < |Asked(w, raws)| && Asked(w, raws)[i] == id;
      assert Alone(w, c, Asked(w, raws)[i]) == Err(Internal);
    }
  }

  predicate Unsignable(w: World, c: Call, id: Uuid) {
    Admitted(w, c.slug, c.unlockToken, c.variant) && Shows(w, c.slug, Some(id)) && KeyFor(w.photos[id], Wanted(w, c.variant)) != ""
    && w.presign(KeyFor(w.photos[id], Wanted(w, c.variant))) == None
  }
}
