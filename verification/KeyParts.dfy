/** How the object keys of an event are spelled, and that a key tells what it is the key of. */
module KeyParts {
  import opened ObjectKeys

  /** What an object is: a photo's original under a client's name, one of a photo's derived images, or an export. */
  datatype Part = Original(photo: Uuid, filename: string) | Derived(kind: string, photo: Uuid) | Export(id: Uuid)

  predicate IsPart(part: Part) {
    part.Derived? ==> IsSegment(part.kind)
  }

  function KeyOf(user: Uuid, event: Uuid, part: Part): string
    requires IsPart(part)
  {
    match part
    case Original(photo, filename) => OriginalKey(user, event, photo, filename)
    case Derived(kind, photo) => DerivedKey(user, event, photo, kind)
    case Export(id) => ExportKey(user, event, id)
  }

  /** The directory of a part within its event, and what stands in it. */
  function Directory(part: Part): string {
    match part
    case Original(_, _) => "originals"
    case Derived(kind, _) => kind
    case Export(_) => "exports"
  }

  function File(part: Part): string {
    match part
    case Original(photo, filename) => photo + "/" + SafeFilename(filename)
    case Derived(_, photo) => photo + ".webp"
    case Export(id) => id + ".zip"
  }

  lemma TwoSpelled(user: Uuid, event: Uuid, directory: string, file: string)
    requires IsSegment(directory) && IsSegment(file)
    ensures AllSegments(["tenant", user, "events", event, directory, file])
    ensures Join(["tenant", user, "events", event, directory, file]) == EventPrefix(user, event) + (directory + "/" + file)
  {
    JoinCons(directory, [file]);
    KeyPrefix(user, event, [directory] + [file]);
    assert ["tenant", user, "events", event] + ([directory] + [file]) == ["tenant", user, "events", event, directory, file];
  }

  lemma ThreeSpelled(user: Uuid, event: Uuid, directory: string, photo: string, file: string)
    requires IsSegment(directory) && IsSegment(photo) && IsSegment(file)
    ensures AllSegments(["tenant", user, "events", event, directory, photo, file])
    ensures Join(["tenant", user, "events", event, directory, photo, file]) ==
              EventPrefix(user, event) + (directory + "/" + (photo + "/" + file))
  {
    JoinCons(photo, [file]);
    JoinCons(directory, [photo] + [file]);
    KeyPrefix(user, event, [directory] + ([photo] + [file]));
    assert ["tenant", user, "events", event] + ([directory] + ([photo] + [file])) ==
           ["tenant", user, "events", event, directory, photo, file];
  }

  /** A key is the event's prefix, the directory and the file. */
  lemma KeyIs(user: Uuid, event: Uuid, part: Part)
    requires IsPart(part)
    ensures KeyOf(user, event, part) == EventPrefix(user, event) + (Directory(part) + "/" + File(part))
  {
    match part
    case Original(photo, filename) => ThreeSpelled(user, event, "originals", photo, SafeFilename(filename));
    case Derived(kind, photo) => TwoSpelled(user, event, kind, photo + ".webp");
    case Export(id) => TwoSpelled(user, event, "exports", id + ".zip");
  }

  lemma FirstSlash(a: string, b: string, c: string, d: string)
    requires '/' !in a && '/' !in c && a + "/" + b == c + "/" + d
    ensures a == c && b == d
  {
    var s := a + "/" + b;
    assert s[|a|] == '/' && s[|c|] == '/';
    assert forall i :: 0 <= i < |a| ==> s[i] == a[i] && a[i] in a;
    assert forall i :: 0 <= i < |c| ==> s[i] == c[i] && c[i] in c;
    assert s[..|a|] == a && s[..|c|] == c && s[|a| + 1..] == b && s[|c| + 1..] == d;
  }

  /** The same object, up to what becomes of the client's name. */
  predicate SamePart(a: Part, b: Part) {
    match a
    case Original(photo, filename) => b.Original? && b.photo == photo && SafeFilename(b.filename) == SafeFilename(filename)
    case _ => a == b
  }

  /** The file begins with an id, which the character behind it ends. */
  function IdOf(part: Part): Uuid {
    if part.Export? then part.id else part.photo
  }

  function Ending(part: Part): string {
    match part
    case Original(_, filename) => "/" + SafeFilename(filename)
    case Derived(_, _) => ".webp"
    case Export(_) => ".zip"
  }

  lemma FileParts(part: Part)
    ensures File(part) == IdOf(part) + Ending(part)
  {
  }

  lemma EndingTells(a: Part, b: Part)
    requires Ending(a) == Ending(b) && Directory(a) == Directory(b) && IdOf(a) == IdOf(b)
    ensures SamePart(a, b)
  {
    assert |".webp"| != |".zip"| && Ending(a)[0] == Ending(b)[0];
    if a.Original? && b.Original? {
      assert Ending(a)[1..] == SafeFilename(a.filename) && Ending(b)[1..] == SafeFilename(b.filename);
    }
  }

  lemma FilesTell(a: Part, b: Part)
    requires File(a) == File(b) && Directory(a) == Directory(b)
    ensures SamePart(a, b)
  {
    FileParts(a);
    FileParts(b);
    assert File(a)[..36] == IdOf(a) && File(b)[..36] == IdOf(b);
    assert File(a)[36..] == Ending(a) && File(b)[36..] == Ending(b);
    EndingTells(a, b);
  }

  lemma TailsTell(a: Part, b: Part)
    requires IsPart(a) && IsPart(b) && Directory(a) + "/" + File(a) == Directory(b) + "/" + File(b)
    ensures SamePart(a, b)
  {
    FirstSlash(Directory(a), File(a), Directory(b), File(b));
    FilesTell(a, b);
  }

  /** Two keys are equal exactly if they are of the same user's same event and of the same object. */
  lemma KeysTell(user: Uuid, event: Uuid, a: Part, user': Uuid, event': Uuid, b: Part)
    requires IsPart(a) && IsPart(b)
    ensures KeyOf(user, event, a) == KeyOf(user', event', b) <==> user == user' && event == event' && SamePart(a, b)
  {
    KeyIs(user, event, a);
    KeyIs(user', event', b);
    var key := KeyOf(user, event, a);
    if key == KeyOf(user', event', b) {
      PrefixTellsEvent(key, user, event, user', event');
      assert key[|EventPrefix(user, event)|..] == Directory(a) + "/" + File(a);
      assert key[|EventPrefix(user, event)|..] == Directory(b) + "/" + File(b);
      TailsTell(a, b);
    }
  }
}
