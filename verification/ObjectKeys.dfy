/**
 The object-store keys of an event, and why two events never share one.

 Strings are sequences of characters; the original counts bytes where a name is cut to 200.
 */
module ObjectKeys {

  type Uuid = s: string | IsUuid(s) witness seq(36, _ => 'a')

  /** The canonical text of a UUID: 36 characters, none of them a separator. */
  predicate IsUuid(s: string) {
    |s| == 36 && forall i :: 0 <= i < |s| ==> s[i] != '/' && s[i] != '.'
  }

  /** A path element that path.Join leaves as it is. */
  predicate IsSegment(s: string) {
    s != "" && s != "." && s != ".." && '/' !in s
  }

  /** path.Join on elements that need no cleaning. */
  function Join(parts: seq<string>): string
    requires forall i :: 0 <= i < |parts| ==> IsSegment(parts[i])
    requires parts != []
  {
    if |parts| == 1 then parts[0] else parts[0] + "/" + Join(parts[1..])
  }

  function BackslashesReplaced(s: string): string {
    seq(|s|, i requires 0 <= i < |s| => if s[i] == '\\' then '/' else s[i])
  }

  function TrimRightSlashes(s: string): string {
    if s != "" && s[|s| - 1] == '/' then TrimRightSlashes(s[..|s| - 1]) else s
  }

  /** What follows the last slash. */
  function AfterLastSlash(s: string): (r: string)
    ensures '/' !in r
  {
    if '/' in s then AfterLastSlash(s[1..]) else s
  }

  /** path.Base. */
  function Base(path: string): (r: string)
    ensures r == "/" || '/' !in r
  {
    if path == "" then "."
    else
      var last := AfterLastSlash(TrimRightSlashes(path));
      if last == "" then "/" else last
  }

  /** Unicode White_Space, as strings.TrimSpace sees it. */
  predicate IsSpace(c: char) {
    '\t' <= c <= '\r' || c == ' ' || c == '\U{85}' || c == '\U{A0}' || c == '\U{1680}' || '\U{2000}' <= c <= '\U{200A}' ||
    c == '\U{2028}' || c == '\U{2029}' || c == '\U{202F}' || c == '\U{205F}' || c == '\U{3000}'
  }

  function TrimSpace(s: string): (r: string)
    ensures forall c :: c in r ==> c in s
  {
    if s == "" then s
    else if IsSpace(s[0]) then TrimSpace(s[1..])
    else if IsSpace(s[|s| - 1]) then TrimSpace(s[..|s| - 1])
    else s
  }

  function TrimLeftDots(s: string): (r: string)
    ensures forall c :: c in r ==> c in s
    ensures r == "" || r[0] != '.'
  {
    if s != "" && s[0] == '.' then TrimLeftDots(s[1..]) else s
  }

  /** A client's file name becomes one path element that cannot climb out of its prefix. */
  function SafeFilename(name: string): (r: string)
    ensures IsSegment(r) && |r| <= 200
  {
    var base := TrimLeftDots(TrimSpace(Base(BackslashesReplaced(name))));
    if base == "" || base == "/" then "upload"
    else if |base| > 200 then base[|base| - 200..]
    else base
  }

  function OriginalKey(user: Uuid, event: Uuid, photo: Uuid, filename: string): string {
    Join(["tenant", user, "events", event, "originals", photo, SafeFilename(filename)])
  }

  function DerivedKey(user: Uuid, event: Uuid, photo: Uuid, kind: string): string
    requires IsSegment(kind)
  {
    Join(["tenant", user, "events", event, kind, photo + ".webp"])
  }

  function ExportKey(user: Uuid, event: Uuid, exportId: Uuid): string {
    Join(["tenant", user, "events", event, "exports", exportId + ".zip"])
  }

  function EventPrefix(user: Uuid, event: Uuid): string {
    "tenant" + "/" + user + "/" + "events" + "/" + event + "/"
  }

  ghost predicate AllSegments(parts: seq<string>) {
    forall i :: 0 <= i < |parts| ==> IsSegment(parts[i])
  }

  lemma JoinCons(first: string, rest: seq<string>)
    requires IsSegment(first) && AllSegments(rest) && rest != []
    ensures AllSegments([first] + rest) && Join([first] + rest) == first + "/" + Join(rest)
  {
    assert ([first] + rest)[1..] == rest;
  }

  /** One more element in front: what follows it is grouped with it. */
  lemma PrefixedBy(first: string, inner: seq<string>, prefix: string, rest: string)
    requires IsSegment(first) && AllSegments(inner) && inner != [] && Join(inner) == prefix + rest
    ensures AllSegments([first] + inner) && Join([first] + inner) == (first + "/" + prefix) + rest
  {
    JoinCons(first, inner);
    Grouped(first + "/", prefix, rest);
  }

  lemma Grouped(a: string, b: string, c: string)
    ensures a + (b + c) == (a + b) + c
  {
  }

  lemma PrefixSpelled(user: Uuid, event: Uuid)
    ensures "tenant" + "/" + (user + "/" + ("events" + "/" + (event + "/"))) == EventPrefix(user, event)
  {
  }

  lemma FourInFront(a: string, b: string, c: string, d: string, rest: seq<string>)
    ensures [a, b, c, d] + rest == [a] + ([b] + ([c] + ([d] + rest)))
  {
  }

  lemma KeyPrefix(user: Uuid, event: Uuid, rest: seq<string>)
    requires AllSegments(rest) && rest != []
    ensures AllSegments(["tenant", user, "events", event] + rest)
    ensures Join(["tenant", user, "events", event] + rest) == EventPrefix(user, event) + Join(rest)
  {
    var inner: seq<string> := [event] + rest;
    var middle: seq<string> := ["events"] + inner;
    var outer: seq<string> := [user] + middle;
    JoinCons(event, rest);
    PrefixedBy("events", inner, event + "/", Join(rest));
    PrefixedBy(user, middle, "events" + "/" + (event + "/"), Join(rest));
    PrefixedBy("tenant", outer, user + "/" + ("events" + "/" + (event + "/")), Join(rest));
    PrefixSpelled(user, event);
    FourInFront("tenant", user, "events", event, rest);
  }

  /** Every key of an event, whatever its last part, starts with the event's own prefix. */
  lemma KeysHavePrefix(user: Uuid, event: Uuid, item: Uuid, filename: string, kind: string)
    requires IsSegment(kind)
    ensures EventPrefix(user, event) <= OriginalKey(user, event, item, filename)
    ensures EventPrefix(user, event) <= DerivedKey(user, event, item, kind)
    ensures EventPrefix(user, event) <= ExportKey(user, event, item)
  {
    ThreePartKey(user, event, "originals", item, SafeFilename(filename));
    TwoPartKey(user, event, kind, item + ".webp");
    TwoPartKey(user, event, "exports", item + ".zip");
  }

  lemma ThreePartKey(user: Uuid, event: Uuid, kind: string, item: string, name: string)
    requires IsSegment(kind) && IsSegment(item) && IsSegment(name)
    ensures AllSegments(["tenant", user, "events", event, kind, item, name])
    ensures EventPrefix(user, event) <= Join(["tenant", user, "events", event, kind, item, name])
  {
    KeyPrefix(user, event, [kind, item, name]);
    assert ["tenant", user, "events", event, kind, item, name] == ["tenant", user, "events", event] + [kind, item, name];
  }

  lemma TwoPartKey(user: Uuid, event: Uuid, kind: string, name: string)
    requires IsSegment(kind) && IsSegment(name)
    ensures AllSegments(["tenant", user, "events", event, kind, name])
    ensures EventPrefix(user, event) <= Join(["tenant", user, "events", event, kind, name])
  {
    KeyPrefix(user, event, [kind, name]);
    assert ["tenant", user, "events", event, kind, name] == ["tenant", user, "events", event] + [kind, name];
  }

  /** A key tells whose it is: two events' prefixes never start the same key. */
  lemma PrefixTellsEvent(key: string, u: Uuid, e: Uuid, u': Uuid, e': Uuid)
    requires EventPrefix(u, e) <= key && EventPrefix(u', e') <= key
    ensures u == u' && e == e'
  {
    assert key[7..43] == u && key[7..43] == u';
    assert key[51..87] == e && key[51..87] == e';
  }
}
