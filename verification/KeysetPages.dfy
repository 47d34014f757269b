/** Listing photos page by page below a cursor (created_at, id), while rows come and go between the pages. */
module KeysetPages {
  import opened Wrappers

  /** What the pages are ordered by; a UUID orders like the number its sixteen bytes write. */
  datatype Key = Key(createdAt: int, id: nat)

  predicate Less(a: Key, b: Key) {
    a.createdAt < b.createdAt || (a.createdAt == b.createdAt && a.id < b.id)
  }

  predicate Below(k: Key, cursor: Option<Key>) {
    cursor.None? || Less(k, cursor.value)
  }

  ghost predicate IsDescending(r: seq<Key>) {
    forall i, j :: 0 <= i < j < |r| ==> Less(r[j], r[i])
  }

  predicate IsGreatest(k: Key, s: set<Key>) {
    k in s && forall x :: x in s ==> x == k || Less(x, k)
  }

  lemma {:induction false} GreatestExists(s: set<Key>)
    requires s != {}
    ensures exists k :: IsGreatest(k, s)
    decreases |s|
  {
    var a :| a in s;
    var rest := s - {a};
    assert s == {a} + rest;
    if rest == {} {
      assert IsGreatest(a, s);
    } else {
      GreatestExists(rest);
      var b :| IsGreatest(b, rest);
      assert IsGreatest(if Less(a, b) then b else a, s);
    }
  }

  ghost function Greatest(s: set<Key>): (k: Key)
    requires s != {}
    ensures IsGreatest(k, s)
  {
    GreatestExists(s);
    var k :| IsGreatest(k, s);
    k
  }

  /** ORDER BY created_at DESC, id DESC. */
  ghost function Descending(s: set<Key>): (r: seq<Key>)
    decreases |s|
  {
    if s == {} then [] else [Greatest(s)] + Descending(s - {Greatest(s)})
  }

  lemma {:induction false} DescendingListsAll(s: set<Key>)
    ensures IsDescending(Descending(s)) && |Descending(s)| == |s|
    ensures forall k :: k in Descending(s) <==> k in s
    decreases |s|
  {
    if s != {} {
      var rest := Descending(s - {Greatest(s)});
      DescendingListsAll(s - {Greatest(s)});
      assert forall i :: 0 <= i < |rest| ==> rest[i] in s - {Greatest(s)};
    }
  }

  /** A set has only one descending listing. */
  lemma {:induction false} OneListing(s: set<Key>, r: seq<Key>)
    requires IsDescending(r) && forall k :: k in r <==> k in s
    ensures r == Descending(s)
    decreases |s|
  {
    if r != [] {
      assert r[0] in r && r[0] in s;
    }
    if s != {} {
      var g := Greatest(s);
      assert g in r;
      assert r[0] == g;
      forall k ensures k in r[1..] <==> k in s - {g} {
        if k in r[1..] {
          var i :| 1 <= i < |r| && r[i] == k;
        }
      }
      OneListing(s - {g}, r[1..]);
    }
  }

  /** The rows a page is taken from. */
  function Rest(s: set<Key>, cursor: Option<Key>): set<Key> {
    set k | k in s && Below(k, cursor)
  }

  function Take<T>(r: seq<T>, limit: nat): seq<T> {
    if |r| <= limit then r else r[..limit]
  }

  ghost function Page(s: set<Key>, cursor: Option<Key>, limit: nat): seq<Key> {
    Take(Descending(Rest(s, cursor)), limit)
  }

  /** A full page is followed from its last row; a short one is the last. */
  function NextCursor(page: seq<Key>, limit: nat): Option<Key> {
    if |page| == limit && limit > 0 then Some(page[|page| - 1]) else None
  }

  // ---------------------------------------------------------------- the table

  type EventId = string
  type UserId = string

  datatype Status = Uploading | Processing | Ready | Failed

  datatype PhotoRow = PhotoRow(event: EventId, createdAt: int, status: Status)

  datatype EventRow = EventRow(owner: UserId, deleted: bool)

  datatype Db = Db(photos: map<nat, PhotoRow>, events: map<EventId, EventRow>)

  datatype Query = Query(event: EventId, user: UserId, status: Option<Status>)

  predicate Matches(db: Db, q: Query, id: nat) {
    id in db.photos && db.photos[id].event == q.event &&
    q.event in db.events && db.events[q.event].owner == q.user && !db.events[q.event].deleted &&
    (q.status.None? || db.photos[id].status == q.status.value)
  }

  function Matching(db: Db, q: Query): set<Key> {
    set id | id in db.photos && Matches(db, q, id) :: Key(db.photos[id].createdAt, id)
  }

  class PostgresRepository {
    var db: Db

    constructor (db: Db)
      ensures this.db == db
    {
      this.db := db;
    }

    method ListByEvent(q: Query, cursor: Option<Key>, limit: nat) returns (page: seq<Key>)
      ensures page == Page(Matching(db, q), cursor, limit)
    {
      page := Select(Rest(Matching(db, q), cursor), limit);
    }
  }

  /** ORDER BY … LIMIT. */
  method Select(rows: set<Key>, limit: nat) returns (page: seq<Key>)
    ensures page == Take(Descending(rows), limit)
  {
    var rest := rows;
    page := [];
    while |page| < limit && rest != {}
      invariant |page| <= limit && page + Descending(rest) == Descending(rows)
      decreases |rest|
    {
      GreatestExists(rest);
      var k :| IsGreatest(k, rest);
      assert k == Greatest(rest);
      page := page + [k];
      rest := rest - {k};
    }
    assert page == Descending(rows)[..|page|];
  }

  const DEFAULT_LIST_LIMIT := 50
  const MAX_LIST_LIMIT := 100

  function NormalizeLimit(limit: int): (n: nat)
    ensures 1 <= n <= MAX_LIST_LIMIT && (1 <= limit <= MAX_LIST_LIMIT ==> n == limit)
  {
    if limit <= 0 then DEFAULT_LIST_LIMIT else if limit > MAX_LIST_LIMIT then MAX_LIST_LIMIT else limit
  }

  /** The owner's listing: one page and the cursor of the next. */
  method List(repo: PostgresRepository, q: Query, cursor: Option<Key>, limit: int) returns (page: seq<Key>, next: Option<Key>)
    ensures page == Page(Matching(repo.db, q), cursor, NormalizeLimit(limit))
    ensures next == NextCursor(page, NormalizeLimit(limit))
  {
    var n := NormalizeLimit(limit);
    page := repo.ListByEvent(q, cursor, n);
    next := None;
    if |page| == n && n > 0 {
      next := Some(page[|page| - 1]);
    }
  }

  // ---------------------------------------------------------------- following the cursor

  /**
   * What a reader collects who asks for page after page until there is no next cursor. `tables` are the
   * matching rows as they stand at each request; None: the requests ran out (or one failed) before the last page.
   */
  ghost function Walk(tables: seq<set<Key>>, cursor: Option<Key>, limit: nat): Option<seq<Key>> {
    if tables == [] then None
    else
      var page := Page(tables[0], cursor, limit);
      var next := NextCursor(page, limit);
      if next.None? then Some(page)
      else
        var rest := Walk(tables[1..], next, limit);
        if rest.None? then None else Some(page + rest.value)
  }

  /** How many pages the walk asks for. */
  ghost function Pages(tables: seq<set<Key>>, cursor: Option<Key>, limit: nat): (n: nat)
    ensures n <= |tables|
  {
    if tables == [] then 0
    else
      var next := NextCursor(Page(tables[0], cursor, limit), limit);
      if next.None? then 1 else 1 + Pages(tables[1..], next, limit)
  }

  /** Where a page ends in the listing it is taken from. */
  lemma TakeIs(all: seq<Key>, limit: nat)
    requires limit > 0 && IsDescending(all)
    ensures IsDescending(Take(all, limit)) && forall k :: k in Take(all, limit) ==> k in all
    ensures NextCursor(Take(all, limit), limit).None? ==> Take(all, limit) == all
    ensures NextCursor(Take(all, limit), limit).Some? ==> CutAt(all, Take(all, limit), NextCursor(Take(all, limit), limit).value)
  {
    var page := Take(all, limit);
    if |page| == limit {
      assert forall i :: 0 <= i < limit ==> all[i] == page[i] && page[i] in page;
      forall k | k in all && k !in page ensures Less(k, page[limit - 1]) {
        var i :| 0 <= i < |all| && all[i] == k;
        assert i >= limit;
      }
    }
  }

  predicate CutAt(all: seq<Key>, page: seq<Key>, cursor: Key) {
    cursor in all && (forall k :: k in page ==> k == cursor || Less(cursor, k)) && (forall k :: k in all && k !in page ==> Less(k, cursor))
  }

  /** A page: its rows are the greatest ones below the cursor, and a short page leaves none out. */
  lemma PageIs(s: set<Key>, cursor: Option<Key>, limit: nat)
    requires limit > 0
    ensures var page, next := Page(s, cursor, limit), NextCursor(Page(s, cursor, limit), limit);
            && IsDescending(page)
            && (forall k :: k in page ==> k in s && Below(k, cursor))
            && (forall k :: k in s && Below(k, cursor) && k !in page ==> next.Some? && Below(k, next))
            && (next.Some? ==> forall k :: k in page ==> k == next.value || Less(next.value, k))
            && (next.Some? ==> Below(next.value, cursor))
  {
    var all := Descending(Rest(s, cursor));
    DescendingListsAll(Rest(s, cursor));
    TakeIs(all, limit);
    assert forall k :: k in all ==> k in Rest(s, cursor);
  }

  /** The photo is one of the event's, which is its owner's and not deleted, and has the status asked for, if one is; the key is its own. */
  predicate IsListed(db: Db, q: Query, k: Key) {
    k.id in db.photos && db.photos[k.id].event == q.event && db.photos[k.id].createdAt == k.createdAt &&
    q.event in db.events && db.events[q.event].owner == q.user && !db.events[q.event].deleted &&
    match q.status
    case None => true
    case Some(status) => db.photos[k.id].status == status
  }

  /** Created earlier, or at the same time with a smaller id. */
  predicate Precedes(k: Key, x: Key) {
    k.createdAt < x.createdAt || (k.createdAt == x.createdAt && k.id < x.id)
  }

  /**
   * A page in terms of the rows: the latest of the photos asked for that precede the cursor, latest first and at most `limit`
   * of them; it leads on exactly when it is full, and then to all that it left out.
   */
  lemma PageShows(db: Db, q: Query, cursor: Option<Key>, limit: nat, k: Key)
    requires limit > 0
    ensures var page, next := Page(Matching(db, q), cursor, limit), NextCursor(Page(Matching(db, q), cursor, limit), limit);
            && |page| <= limit && (next.Some? <==> |page| == limit) && (next.Some? ==> next.value == page[|page| - 1])
            && (forall i, j :: 0 <= i < j < |page| ==> Precedes(page[j], page[i]))
            && (k in page ==> IsListed(db, q, k) && (cursor.Some? ==> Precedes(k, cursor.value)))
            && (k !in page && IsListed(db, q, k) && (cursor.Some? ==> Precedes(k, cursor.value)) ==>
                  |page| == limit && forall x :: x in page ==> Precedes(k, x))
  {
    PageIs(Matching(db, q), cursor, limit);
    IsListedIff(db, q, k);
    assert Below(k, cursor) <==> (cursor.Some? ==> Precedes(k, cursor.value));
  }

  lemma IsListedIff(db: Db, q: Query, k: Key)
    ensures k in Matching(db, q) <==> IsListed(db, q, k)
  {
    if IsListed(db, q, k) {
      assert Matches(db, q, k.id) && k == Key(db.photos[k.id].createdAt, k.id);
    }
  }

  /** A page has 50 rows unless 1 to 100 are asked for; more than 100 are never given. */
  lemma PageSizes(limit: int)
    ensures NormalizeLimit(limit) == if limit <= 0 then 50 else if limit <= 100 then limit else 100
  {
  }

  /** However the table changes between pages, rows come in strictly descending order: none comes twice. */
  lemma {:induction false} WalkDescends(tables: seq<set<Key>>, cursor: Option<Key>, limit: nat)
    requires limit > 0 && Walk(tables, cursor, limit).Some?
    ensures IsDescending(Walk(tables, cursor, limit).value)
    ensures forall k :: k in Walk(tables, cursor, limit).value ==> Below(k, cursor)
  {
    PageIs(tables[0], cursor, limit);
    var page := Page(tables[0], cursor, limit);
    var next := NextCursor(page, limit);
    if next.Some? {
      WalkDescends(tables[1..], next, limit);
      var rest := Walk(tables[1..], next, limit).value;
      assert forall j :: 0 <= j < |rest| ==> rest[j] in rest;
      assert forall i :: 0 <= i < |page| ==> page[i] in page;
    }
  }

  /** Every row that matches at every request is found. */
  lemma {:induction false} WalkFindsWhatStays(tables: seq<set<Key>>, cursor: Option<Key>, limit: nat, k: Key)
    requires limit > 0 && Walk(tables, cursor, limit).Some? && Below(k, cursor)
    requires forall i :: 0 <= i < Pages(tables, cursor, limit) ==> k in tables[i]
    ensures k in Walk(tables, cursor, limit).value
  {
    PageIs(tables[0], cursor, limit);
    var page := Page(tables[0], cursor, limit);
    var next := NextCursor(page, limit);
    assert k in tables[0];
    if k !in page {
      assert forall i :: 0 <= i < Pages(tables[1..], next, limit) ==> tables[1..][i] == tables[i + 1];
      WalkFindsWhatStays(tables[1..], next, limit, k);
    }
  }

  /** Only rows that match at some request are found. */
  lemma {:induction false} WalkFindsOnlyRows(tables: seq<set<Key>>, cursor: Option<Key>, limit: nat, k: Key)
    requires limit > 0 && Walk(tables, cursor, limit).Some? && k in Walk(tables, cursor, limit).value
    ensures exists i :: 0 <= i < Pages(tables, cursor, limit) && k in tables[i]
  {
    PageIs(tables[0], cursor, limit);
    var page := Page(tables[0], cursor, limit);
    var next := NextCursor(page, limit);
    if k in page {
      assert k in tables[0];
    } else {
      WalkFindsOnlyRows(tables[1..], next, limit, k);
      var i :| 0 <= i < Pages(tables[1..], next, limit) && k in tables[1..][i];
      assert k in tables[i + 1];
    }
  }

  /** Together: each row that stays comes exactly once, and no photo comes twice as long as created_at is never changed. */
  lemma EachExactlyOnce(tables: seq<set<Key>>, limit: nat, k: Key)
    requires limit > 0 && Walk(tables, None, limit).Some?
    requires forall i :: 0 <= i < Pages(tables, None, limit) ==> k in tables[i]
    requires forall i, j, a, b :: 0 <= i < |tables| && 0 <= j < |tables| && a in tables[i] && b in tables[j] && a.id == b.id ==> a == b
    ensures var r := Walk(tables, None, limit).value;
            && (exists n :: 0 <= n < |r| && r[n] == k && forall m :: 0 <= m < |r| && r[m] == k ==> m == n)
            && (forall m, n :: 0 <= m < n < |r| ==> r[m].id != r[n].id)
  {
    var r := Walk(tables, None, limit).value;
    WalkDescends(tables, None, limit);
    WalkFindsWhatStays(tables, None, limit, k);
    var n :| 0 <= n < |r| && r[n] == k;
    forall m, n | 0 <= m < n < |r| ensures r[m].id != r[n].id {
      WalkFindsOnlyRows(tables, None, limit, r[m]);
      WalkFindsOnlyRows(tables, None, limit, r[n]);
      assert Less(r[n], r[m]);
    }
  }

  /**
   * On a table of n rows that does not change, p requests with n < p * limit give the whole sorted listing,
   * and no more are made than that needs.
   */
  lemma {:induction false} StaticWalk(s: set<Key>, cursor: Option<Key>, limit: nat, tables: seq<set<Key>>)
    requires limit > 0 && |Rest(s, cursor)| < |tables| * limit
    requires forall i :: 0 <= i < |tables| ==> tables[i] == s
    ensures Walk(tables, cursor, limit) == Some(Descending(Rest(s, cursor)))
    ensures (Pages(tables, cursor, limit) - 1) * limit <= |Rest(s, cursor)| < Pages(tables, cursor, limit) * limit
    decreases |tables|
  {
    var next := NextCursor(Page(s, cursor, limit), limit);
    if next.None? {
      LastPage(s, cursor, limit);
      assert tables[0] == s;
      assert Pages(tables, cursor, limit) == 1;
    } else {
      FullPage(s, cursor, limit);
      OneFewer(|tables|, limit, |Rest(s, cursor)|);
      StaticWalk(s, next, limit, tables[1..]);
      OneMore(Pages(tables[1..], next, limit), limit, |Rest(s, next)|);
      assert tables[0] == s;
      assert Pages(tables, cursor, limit) == 1 + Pages(tables[1..], next, limit);
    }
  }

  lemma LastPage(s: set<Key>, cursor: Option<Key>, limit: nat)
    requires limit > 0 && NextCursor(Page(s, cursor, limit), limit).None?
    ensures Page(s, cursor, limit) == Descending(Rest(s, cursor)) && |Rest(s, cursor)| < limit
  {
    DescendingListsAll(Rest(s, cursor));
  }

  lemma FullPage(s: set<Key>, cursor: Option<Key>, limit: nat)
    requires limit > 0 && NextCursor(Page(s, cursor, limit), limit).Some?
    ensures var next := NextCursor(Page(s, cursor, limit), limit);
            && |Rest(s, cursor)| == limit + |Rest(s, next)|
            && Descending(Rest(s, cursor)) == Page(s, cursor, limit) + Descending(Rest(s, next))
  {
    DescendingListsAll(Rest(s, cursor));
    RestAfterPage(s, cursor, limit);
    DescendingListsAll(Rest(s, NextCursor(Page(s, cursor, limit), limit)));
  }

  lemma OneFewer(p: nat, limit: nat, n: nat)
    requires limit <= n < p * limit
    ensures n - limit < (p - 1) * limit
  {
  }

  lemma OneMore(p: nat, limit: nat, n: nat)
    requires (p - 1) * limit <= n < p * limit
    ensures p * limit <= n + limit < (p + 1) * limit
  {
  }

  lemma RestAfterPage(s: set<Key>, cursor: Option<Key>, limit: nat)
    requires limit > 0 && NextCursor(Page(s, cursor, limit), limit).Some?
    ensures limit <= |Descending(Rest(s, cursor))|
    ensures Descending(Rest(s, NextCursor(Page(s, cursor, limit), limit))) == Descending(Rest(s, cursor))[limit..]
  {
    var all := Descending(Rest(s, cursor));
    DescendingListsAll(Rest(s, cursor));
    var next := all[limit - 1];
    forall k ensures k in all[limit..] <==> k in Rest(s, Some(next)) {
      BelowCut(all, limit, k);
      assert k in all <==> k in Rest(s, cursor);
      assert next in all;
    }
    OneListing(Rest(s, Some(next)), all[limit..]);
  }

  lemma BelowCut(all: seq<Key>, limit: nat, k: Key)
    requires 0 < limit <= |all| && IsDescending(all)
    ensures k in all[limit..] <==> k in all && Less(k, all[limit - 1])
  {
    if k in all {
      var i :| 0 <= i < |all| && all[i] == k;
      assert i >= limit ==> all[limit..][i - limit] == k;
    }
  }
}
