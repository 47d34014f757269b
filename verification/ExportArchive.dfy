/** Building an export archive: every ready photo of the event, page by page, under a name of its own. */
module ExportArchive {
  import opened Wrappers
  import opened KeysetPages
  import opened EntryNames
  import Keys = ObjectKeys

  const PHOTO_PAGE_SIZE := 500

  /** What never changes about a photo. */
  datatype PhotoFile = PhotoFile(id: Keys.Uuid, filename: Option<string>, mimeType: string)

  /** What reading a photo's object gives. */
  datatype Read = Found | NotFound | Failure

  datatype Archive = Archive(entries: seq<string>, count: nat)

  function SanitizeEntryName(name: string): (r: string)
    ensures r == "" || Keys.IsSegment(r)
  {
    var base := Keys.TrimLeftDots(Keys.TrimSpace(Keys.Base(Keys.BackslashesReplaced(name))));
    if base == "" || base == "/" then ""
    else if |base| > 200 then base[|base| - 200..]
    else base
  }

  function ExtensionForMime(lower: char -> char, mime: string): (r: string)
    ensures '/' !in r
  {
    var m := Lower(lower, Keys.TrimSpace(mime));
    if m == "image/jpeg" || m == "image/jpg" then ".jpg"
    else if m == "image/png" then ".png"
    else if m == "image/webp" then ".webp"
    else ""
  }

  /** The name a photo asks for: always a plain file name. */
  function EntryName(lower: char -> char, photo: PhotoFile): (r: string)
    ensures Keys.IsSegment(r)
  {
    var name := if photo.filename.Some? then SanitizeEntryName(photo.filename.value) else "";
    if name != "" then name else "photo-" + photo.id + ExtensionForMime(lower, photo.mimeType)
  }

  function Names(lower: char -> char, file: Key -> PhotoFile, rows: seq<Key>): (r: seq<string>)
    ensures |r| == |rows|
  {
    seq(|rows|, i requires 0 <= i < |rows| => EntryName(lower, file(rows[i])))
  }

  /** The entries for the first n names: those whose object was found. */
  function Archived(lower: char -> char, names: seq<string>, outcome: nat -> Read, n: nat): seq<string>
    requires n <= |names|
  {
    if n == 0 then []
    else Archived(lower, names, outcome, n - 1) + if outcome(n - 1).Found? then [Entry(lower, names, n - 1)] else []
  }

  function Tables(dbs: seq<Db>, q: Query): (r: seq<set<Key>>)
    ensures |r| == |dbs|
  {
    seq(|dbs|, i requires 0 <= i < |dbs| => Matching(dbs[i], q))
  }

  ghost function Prepended(rows: seq<Key>, rest: Option<seq<Key>>): Option<seq<Key>> {
    if rest.None? then None else Some(rows + rest.value)
  }

  /** The walk is None when the listing failed. */
  ghost predicate ReadFails(outcome: nat -> Read, walk: Option<seq<Key>>) {
    walk.None? || exists n: nat :: n < |walk.value| && outcome(n).Failure?
  }

  /**
   * The archive loop. dbs[i] is the database when page i is asked for (the listing fails when they run out),
   * outcome(n) the outcome of reading the n-th photo's object. Missing objects are skipped but counted.
   */
  method BuildArchive(dbs: seq<Db>, q: Query, pageSize: nat, lower: char -> char, file: Key -> PhotoFile, outcome: nat -> Read)
    returns (r: Option<Archive>)
    requires pageSize > 0
    ensures r.None? <==> ReadFails(outcome, Walk(Tables(dbs, q), None, pageSize))
    ensures r.Some? ==> ArchiveOf(r.value, Walk(Tables(dbs, q), None, pageSize).value, lower, file, outcome)
  {
    var seen := new SeenNames(lower);
    var entries: seq<string> := [];
    var count: nat := 0;
    var cursor: Option<Key> := None;
    var i := 0;
    ghost var tables := Tables(dbs, q);
    ghost var rows: seq<Key> := [];
    assert tables[0..] == tables;
    PrependedNothing(Walk(tables, None, pageSize));
    while true
      invariant seen.Valid() && seen.lower == lower && fresh(seen)
      invariant i <= |dbs|
      invariant Walk(tables, None, pageSize) == Prepended(rows, Walk(tables[i..], cursor, pageSize))
      invariant SoFar(seen.given, entries, count, rows, lower, file, outcome)
      decreases |dbs| - i
    {
      if i == |dbs| { return None; }
      var repo := new PostgresRepository(dbs[i]);
      var batch := repo.ListByEvent(q, cursor, pageSize);
      ghost var next := NextCursor(batch, pageSize);
      WalkUnfolds(tables, i, cursor, pageSize, rows);
      var failed;
      failed, entries, count := AppendBatch(seen, batch, entries, count, rows, file, outcome);
      if failed {
        FailureShows(outcome, rows, batch, next, tables[i + 1..], pageSize);
        return None;
      }
      rows := rows + batch;
      if |batch| < pageSize {
        return Some(Archive(entries, count));
      }
      cursor := Some(batch[|batch| - 1]);
      i := i + 1;
    }
  }

  /** One page's photos. */
  method AppendBatch(seen: SeenNames, batch: seq<Key>, entries0: seq<string>, count0: nat, ghost rows: seq<Key>,
                     file: Key -> PhotoFile, outcome: nat -> Read)
    returns (failed: bool, entries: seq<string>, count: nat)
    requires seen.Valid() && SoFar(seen.given, entries0, count0, rows, seen.lower, file, outcome)
    modifies seen
    ensures seen.Valid()
    ensures failed ==> exists n: nat :: n < |rows| + |batch| && outcome(n).Failure?
    ensures !failed ==> SoFar(seen.given, entries, count, rows + batch, seen.lower, file, outcome)
  {
    entries, count := entries0, count0;
    var j := 0;
    assert rows + batch[..0] == rows;
    while j < |batch|
      invariant 0 <= j <= |batch| && seen.Valid()
      invariant SoFar(seen.given, entries, count, rows + batch[..j], seen.lower, file, outcome)
    {
      AnotherRow(seen.given, entries, count, rows + batch[..j], batch[j], seen.lower, file, outcome);
      assert rows + batch[..j] + [batch[j]] == rows + batch[..j + 1];
      var name := seen.UniqueEntryName(EntryName(seen.lower, file(batch[j])));
      if outcome(count).Failure? { return true, entries, count; }
      if outcome(count).Found? {
        entries := entries + [name];
      }
      count := count + 1;
      j := j + 1;
    }
    assert batch[..j] == batch;
    failed := false;
  }

  lemma PrependedNothing(walk: Option<seq<Key>>)
    ensures Prepended([], walk) == walk
  {
    if walk.Some? {
      assert [] + walk.value == walk.value;
    }
  }

  /** The finished archive: one entry for each row of the walk whose object was found, in that order. */
  ghost predicate ArchiveOf(a: Archive, rows: seq<Key>, lower: char -> char, file: Key -> PhotoFile, outcome: nat -> Read) {
    a.count == |rows| && a.entries == Archived(lower, Names(lower, file, rows), outcome, |rows|)
  }

  ghost predicate SoFar(given: seq<string>, entries: seq<string>, count: nat, rows: seq<Key>, lower: char -> char,
                        file: Key -> PhotoFile, outcome: nat -> Read) {
    given == Names(lower, file, rows) && ArchiveOf(Archive(entries, count), rows, lower, file, outcome) &&
    forall n: nat :: n < count ==> !outcome(n).Failure?
  }

  ghost function WalkOn(page: seq<Key>, next: Option<Key>, tables: seq<set<Key>>, limit: nat): Option<seq<Key>> {
    if next.None? then Some(page) else Prepended(page, Walk(tables, next, limit))
  }

  lemma WalkUnfolds(tables: seq<set<Key>>, i: nat, cursor: Option<Key>, limit: nat, rows: seq<Key>)
    requires i < |tables|
    ensures var page := Page(tables[i], cursor, limit);
            var next := NextCursor(page, limit);
            && Prepended(rows, Walk(tables[i..], cursor, limit)) == Prepended(rows, WalkOn(page, next, tables[i + 1..], limit))
            && (next.Some? ==> Prepended(rows, WalkOn(page, next, tables[i + 1..], limit)) == Prepended(rows + page, Walk(tables[i + 1..], next, limit)))
  {
    assert tables[i..][1..] == tables[i + 1..];
    var page := Page(tables[i], cursor, limit);
    var rest := Walk(tables[i + 1..], NextCursor(page, limit), limit);
    if rest.Some? {
      assert rows + (page + rest.value) == rows + page + rest.value;
    }
  }

  lemma FailureShows(outcome: nat -> Read, rows: seq<Key>, page: seq<Key>, next: Option<Key>, tables: seq<set<Key>>, limit: nat)
    requires exists n: nat :: n < |rows| + |page| && outcome(n).Failure?
    ensures ReadFails(outcome, Prepended(rows, WalkOn(page, next, tables, limit)))
  {
  }

  /** Which of the first n photos had their object. */
  function FoundBelow(outcome: nat -> Read, n: nat): set<nat> {
    set k: nat | k < n && outcome(k) == Found
  }

  lemma FoundGrows(outcome: nat -> Read, n: nat)
    ensures |FoundBelow(outcome, n + 1)| == |FoundBelow(outcome, n)| + if outcome(n) == Found then 1 else 0
  {
    assert FoundBelow(outcome, n + 1) == FoundBelow(outcome, n) + if outcome(n) == Found then {n} else {};
  }

  /** The archive holds one entry for each object found … */
  lemma {:induction false} AllArchived(lower: char -> char, names: seq<string>, outcome: nat -> Read, n: nat)
    requires n <= |names|
    ensures |Archived(lower, names, outcome, n)| == |FoundBelow(outcome, n)|
  {
    if n > 0 {
      AllArchived(lower, names, outcome, n - 1);
      FoundGrows(outcome, n - 1);
    }
  }

  /** … in the order of the photos. */
  lemma {:induction false} ArchivedAt(lower: char -> char, names: seq<string>, outcome: nat -> Read, n: nat, k: nat)
    requires k < n <= |names| && outcome(k) == Found
    ensures |FoundBelow(outcome, k)| < |Archived(lower, names, outcome, n)|
    ensures Archived(lower, names, outcome, n)[|FoundBelow(outcome, k)|] == Entry(lower, names, k)
  {
    if k < n - 1 {
      ArchivedAt(lower, names, outcome, n - 1, k);
    } else {
      AllArchived(lower, names, outcome, k);
    }
  }

  lemma {:induction false} ArchivedPrefix(lower: char -> char, names: seq<string>, more: seq<string>, outcome: nat -> Read, n: nat)
    requires n <= |names|
    ensures Archived(lower, names + more, outcome, n) == Archived(lower, names, outcome, n)
  {
    if n > 0 {
      ArchivedPrefix(lower, names, more, outcome, n - 1);
      assert (names + more)[..n - 1] == names[..n - 1];
    }
  }

  /** One more name, and one more entry if its object is found. */
  lemma OneMoreEntry(given: seq<string>, entries: seq<string>, count: nat, rows: seq<Key>, row: Key, lower: char -> char,
                     file: Key -> PhotoFile, outcome: nat -> Read)
    requires SoFar(given, entries, count, rows, lower, file, outcome)
    ensures var names := given + [EntryName(lower, file(row))];
            && names == Names(lower, file, rows + [row]) && |given| == count
            && Archived(lower, names, outcome, count + 1) == entries + if outcome(count).Found? then [Entry(lower, names, count)] else []
  {
    ArchivedPrefix(lower, given, [EntryName(lower, file(row))], outcome, count);
  }

  lemma AnotherRow(given: seq<string>, entries: seq<string>, count: nat, rows: seq<Key>, row: Key, lower: char -> char,
                   file: Key -> PhotoFile, outcome: nat -> Read)
    requires SoFar(given, entries, count, rows, lower, file, outcome)
    ensures |given| == count
    ensures var names := given + [EntryName(lower, file(row))];
            && (outcome(count).Found? ==> SoFar(names, entries + [Entry(lower, names, count)], count + 1, rows + [row], lower, file, outcome))
            && (outcome(count).NotFound? ==> SoFar(names, entries, count + 1, rows + [row], lower, file, outcome))
  {
    OneMoreEntry(given, entries, count, rows, row, lower, file, outcome);
  }

  /** Every entry is a plain file name, suffixed or not. */
  lemma {:induction false} EntriesArePlain(lower: char -> char, file: Key -> PhotoFile, rows: seq<Key>, outcome: nat -> Read, n: nat)
    requires n <= |rows|
    ensures forall name :: name in Archived(lower, Names(lower, file, rows), outcome, n) ==> Keys.IsSegment(name)
  {
    if n > 0 {
      EntriesArePlain(lower, file, rows, outcome, n - 1);
      var names := Names(lower, file, rows);
      SuffixedIsPlain(names[n - 1], Count(lower, names[..n - 1], Lower(lower, names[n - 1])) + 1);
    }
  }

  lemma SuffixedIsPlain(name: string, k: nat)
    requires Keys.IsSegment(name)
    ensures Keys.IsSegment(Suffixed(name, k))
  {
    MarkIsPlain(k);
  }
}
