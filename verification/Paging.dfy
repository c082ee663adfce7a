/** Listing page by page: one row more than the page is fetched, and the last id
    of a full page is the cursor of the next. The usage service checks every
    catalog page its authority returns before it serves it. */
module Paging {
  import opened Options
  import opened Ordering

  /** A workspace as the authority reports it. */
  datatype Entry = Entry(id: string, known: bool, authorized: bool, status: string)

  datatype Catalog = Catalog(revision: string, entries: seq<Entry>)

  datatype Error = PageSizeInvalid | CatalogInvalid | ScopeInvalid

  /** The cursor of the next page holds the last id and the catalog revision. */
  datatype Cursor = Cursor(after: string, revision: string)

  datatype Page = Page(ids: seq<string>, next: Option<Cursor>)

  datatype Result = Ok(page: Page) | Err(error: Error)

  const DEFAULT_PAGE_SIZE := 50
  const MAX_PAGE_SIZE := 100

  const FIRST := Cursor("", "")

  function PageSize(requested: int): (size: Option<nat>)
    ensures size == None <==> requested < 0 || requested > 100
    ensures size.Some? ==> 1 <= size.value <= 100 && size.value == if requested == 0 then 50 else requested
  {
    if requested == 0 then Some(DEFAULT_PAGE_SIZE)
    else if requested < 1 || requested > MAX_PAGE_SIZE then None
    else Some(requested)
  }

  function Ids(entries: seq<Entry>): (ids: seq<string>)
    ensures |ids| == |entries| && forall i :: 0 <= i < |ids| ==> ids[i] == entries[i].id
  {
    seq(|entries|, i requires 0 <= i < |entries| => entries[i].id)
  }

  /** Strictly ascending, and all of it after `after`. */
  ghost predicate Ascending(after: string, ids: seq<string>) {
    && (forall i :: 0 <= i < |ids| ==> StringLess(after, ids[i]))
    && (forall i, j :: 0 <= i < j < |ids| ==> StringLess(ids[i], ids[j]))
  }

  predicate Usable(named: string -> bool, e: Entry) {
    e.known && e.authorized && e.status == "active" && e.id != "" && named(e.id)
  }

  predicate RightSize(catalog: Catalog, limit: nat, expected: string) {
    catalog.revision != "" && |catalog.entries| <= limit && (expected != "" ==> catalog.revision == expected)
  }

  ghost predicate Valid(named: string -> bool, catalog: Catalog, cursor: Cursor, limit: nat) {
    RightSize(catalog, limit, cursor.revision) && InScope(named, cursor.after, catalog.entries)
  }

  /** Usable entries, in ascending order behind `after`. */
  ghost predicate InScope(named: string -> bool, after: string, entries: seq<Entry>) {
    (forall i :: 0 <= i < |entries| ==> Usable(named, entries[i])) && Ascending(after, Ids(entries))
  }

  lemma StringLessTransitive(a: string, b: string, c: string)
    requires StringLess(a, b) && StringLess(b, c)
    ensures StringLess(a, c)
  {
    StringLeTransitive(a, b, c);
    if a == c { StringLeTotal(a, b); }
  }

  lemma AscendingNext(after: string, ids: seq<string>, id: string)
    requires Ascending(after, ids)
    ensures Ascending(after, ids + [id]) <==> StringLess(if ids == [] then after else ids[|ids| - 1], id)
  {
    var more := ids + [id];
    if StringLess(if ids == [] then after else ids[|ids| - 1], id) {
      forall i | 0 <= i < |ids| ensures StringLess(ids[i], id) {
        if i < |ids| - 1 { StringLessTransitive(ids[i], ids[|ids| - 1], id); }
      }
      if ids != [] { StringLessTransitive(after, ids[0], id); }
    } else if ids == [] {
      assert more[0] == id;
    } else {
      assert more[|ids| - 1] == ids[|ids| - 1] && more[|ids|] == id;
    }
  }

  /** One entry more is in scope exactly if it is usable and behind the last one;
      otherwise no list that begins like this is. */
  lemma InScopeNext(named: string -> bool, after: string, entries: seq<Entry>, i: nat)
    requires i < |entries| && InScope(named, after, entries[..i])
    ensures InScope(named, after, entries[..i + 1]) <==>
      Usable(named, entries[i]) && StringLess(if i == 0 then after else entries[i - 1].id, entries[i].id)
    ensures InScope(named, after, entries) ==> InScope(named, after, entries[..i + 1])
  {
    hide StringLess, Ascending, Usable;
    var before, more := entries[..i], entries[..i + 1];
    AscendingNext(after, Ids(before), entries[i].id);
    assert Ids(more) == Ids(before) + [entries[i].id];
    assert more[i] == entries[i] && forall k :: 0 <= k < i ==> more[k] == before[k];
    AscendingPrefix(after, Ids(entries), Ids(more));
  }

  /** An entry that may not be shown, or does not come after the one before it. */
  ghost predicate OutOfPlace(named: string -> bool, catalog: Catalog, cursor: Cursor, i: int)
    requires 0 <= i < |catalog.entries|
  {
    var e := catalog.entries[i];
    !e.known || !e.authorized || e.status != "active" || e.id == "" || !named(e.id)
    || !StringLess(if i == 0 then cursor.after else catalog.entries[i - 1].id, e.id)
  }

  lemma NotUsable(named: string -> bool, e: Entry)
    ensures !Usable(named, e) <==> !e.known || !e.authorized || e.status != "active" || e.id == "" || !named(e.id)
  {
  }

  lemma InScopeShows(named: string -> bool, after: string, entries: seq<Entry>, e: Entry)
    requires InScope(named, after, entries) && e in entries
    ensures e.known && e.authorized && e.status == "active" && e.id != "" && named(e.id) && StringLess(after, e.id)
  {
    var i :| 0 <= i < |entries| && entries[i] == e;
    assert StringLess(after, Ids(entries)[i]);
  }

  /** `named` is the workspace-id check. One pass, remembering the previous id. */
  method ValidateCatalog(named: string -> bool, catalog: Catalog, cursor: Cursor, limit: nat)
    returns (error: Option<Error>)
    ensures error == None <==> Valid(named, catalog, cursor, limit)
    ensures error.Some? ==>
      error.value == if RightSize(catalog, limit, cursor.revision) then ScopeInvalid else CatalogInvalid
    ensures var fits := catalog.revision != "" && |catalog.entries| <= limit
                        && (cursor.revision != "" ==> catalog.revision == cursor.revision);
      && (error == Some(CatalogInvalid) <==> !fits)
      && (error == None ==> fits && forall e :: e in catalog.entries ==>
            e.known && e.authorized && e.status == "active" && e.id != "" && named(e.id)
            && StringLess(cursor.after, e.id))
      && (error == Some(ScopeInvalid)
          ==> exists i :: 0 <= i < |catalog.entries| && OutOfPlace(named, catalog, cursor, i))
  {
    if !RightSize(catalog, limit, cursor.revision) { return Some(CatalogInvalid); }
    var previous := cursor.after;
    var entries := catalog.entries;
    for i := 0 to |entries|
      invariant InScope(named, cursor.after, entries[..i])
      invariant previous == if i == 0 then cursor.after else entries[i - 1].id
    {
      hide StringLess, Usable, InScope;
      var e := entries[i];
      InScopeNext(named, cursor.after, entries, i);
      if !Usable(named, e) || !StringLess(previous, e.id) {
        assert OutOfPlace(named, catalog, cursor, i) by { NotUsable(named, e); }
        return Some(ScopeInvalid);
      }
      previous := e.id;
    }
    assert entries[..|entries|] == entries;
    forall e | e in entries
      ensures e.known && e.authorized && e.status == "active" && e.id != "" && named(e.id)
      ensures StringLess(cursor.after, e.id)
    {
      InScopeShows(named, cursor.after, entries, e);
    }
    return None;
  }

  lemma AscendingPrefix(after: string, ids: seq<string>, prefix: seq<string>)
    requires prefix <= ids
    ensures Ascending(after, ids) ==> Ascending(after, prefix)
  {
  }

  // ---------------------------------------------------------------------
  // One page
  // ---------------------------------------------------------------------

  /** Of at most one row more than the page, the page keeps its size. */
  function Cut(catalog: Catalog, size: nat): Page
    requires size >= 1
  {
    var ids := Ids(catalog.entries);
    if |ids| > size then Page(ids[..size], Some(Cursor(ids[size - 1], catalog.revision))) else Page(ids, None)
  }

  method List(named: string -> bool, requested: int, cursor: Cursor, catalog: Catalog) returns (result: Result)
    ensures match PageSize(requested)
      case None => result == Err(PageSizeInvalid)
      case Some(size) =>
        if Valid(named, catalog, cursor, size + 1) then result == Ok(Cut(catalog, size))
        else result == Err(if RightSize(catalog, size + 1, cursor.revision) then ScopeInvalid else CatalogInvalid)
  {
    var size := PageSize(requested);
    if size == None { return Err(PageSizeInvalid); }
    var error := ValidateCatalog(named, catalog, cursor, size.value + 1);
    if error.Some? { return Err(error.value); }
    var selected := catalog.entries;
    var hasNext := |selected| > size.value;
    if hasNext { selected := selected[..size.value]; }
    var page := Page(Ids(selected), None);
    if hasNext {
      page := page.(next := Some(Cursor(page.ids[|page.ids| - 1], catalog.revision)));
    }
    return Ok(page);
  }

  // ---------------------------------------------------------------------
  // Any walk
  // ---------------------------------------------------------------------

  /** One request of a walk: the page size asked for and the catalog returned. */
  datatype Visit = Visit(size: nat, catalog: Catalog)

  /** Each visit was served, and each but the last followed the cursor of the
      one before. The catalogs are whatever the authority returned. */
  ghost predicate Walked(named: string -> bool, cursor: Cursor, visits: seq<Visit>)
    decreases |visits|
  {
    visits == [] ||
    var v := visits[0];
    && v.size >= 1 && Valid(named, v.catalog, cursor, v.size + 1)
    && (|visits| > 1 ==> Cut(v.catalog, v.size).next.Some?
                         && Walked(named, Cut(v.catalog, v.size).next.value, visits[1..]))
  }

  ghost function Listed(visits: seq<Visit>): seq<string> {
    if visits == [] then []
    else (if visits[0].size >= 1 then Cut(visits[0].catalog, visits[0].size).ids else []) + Listed(visits[1..])
  }

  lemma AscendingJoin(after: string, a: seq<string>, b: seq<string>)
    requires Ascending(after, a)
    requires Ascending(if a == [] then after else a[|a| - 1], b)
    ensures Ascending(after, a + b)
  {
    if a != [] {
      var last := a[|a| - 1];
      forall j | 0 <= j < |b| ensures StringLess(after, b[j]) { StringLessTransitive(after, last, b[j]); }
      forall i, j | 0 <= i < |a| && 0 <= j < |b| ensures StringLess(a[i], b[j]) {
        if i < |a| - 1 { StringLessTransitive(a[i], last, b[j]); }
      }
    } else {
      assert a + b == b;
    }
  }

  /** What one served page lists, and where its cursor stands. */
  lemma PageAscends(named: string -> bool, cursor: Cursor, v: Visit)
    requires v.size >= 1 && Valid(named, v.catalog, cursor, v.size + 1)
    ensures var page := Cut(v.catalog, v.size);
      && Ascending(cursor.after, page.ids)
      && (cursor.revision != "" ==> v.catalog.revision == cursor.revision)
      && (page.next.Some? ==> page.ids != [] && page.next.value.revision == v.catalog.revision != ""
                              && page.next.value.after == page.ids[|page.ids| - 1])
  {
    AscendingPrefix(cursor.after, Ids(v.catalog.entries), Cut(v.catalog, v.size).ids);
  }

  /** Whatever the authority returns, the ids that a walk lists ascend strictly
      across all its pages: none is listed twice. All pages but the first are
      of the revision of the first. */
  lemma {:induction false} WalkAscends(named: string -> bool, cursor: Cursor, visits: seq<Visit>)
    requires Walked(named, cursor, visits)
    ensures Ascending(cursor.after, Listed(visits)) && Distinct(Listed(visits))
    ensures visits != [] && cursor.revision != "" ==> visits[0].catalog.revision == cursor.revision
    ensures forall i :: 0 <= i < |visits| ==> visits[i].catalog.revision == visits[0].catalog.revision
    decreases |visits|
  {
    hide Valid, Cut, Ascending;
    if visits == [] {
      NothingAscends(cursor.after);
    } else {
      var page, rest := Cut(visits[0].catalog, visits[0].size), visits[1..];
      PageAscends(named, cursor, visits[0]);
      if rest == [] {
        assert Listed(rest) == [] && page.ids + [] == page.ids;
      } else {
        WalkAscends(named, page.next.value, rest);
        forall i | 0 < i < |visits| ensures visits[i].catalog.revision == visits[0].catalog.revision {
          assert rest[i - 1] == visits[i];
        }
        AscendingJoin(cursor.after, page.ids, Listed(rest));
      }
    }
    AscendingDistinct(cursor.after, Listed(visits));
  }

  lemma NothingAscends(after: string)
    ensures Ascending(after, [])
  {
  }

  lemma AscendingDistinct(after: string, ids: seq<string>)
    requires Ascending(after, ids)
    ensures Distinct(ids)
  {
  }

  // ---------------------------------------------------------------------
  // A source that tells the truth
  // ---------------------------------------------------------------------

  /** How many ids stand before the first that is greater than the given one. */
  function Behind(ids: seq<string>, after: string): (n: nat)
    ensures n <= |ids|
  {
    if ids == [] || StringLess(after, ids[0]) then 0 else 1 + Behind(ids[1..], after)
  }

  /** Where a walk stands after `n` ids: at the start, or at the n-th id. */
  function Place(ids: seq<string>, n: nat): string
    requires n <= |ids|
  {
    if n == 0 then "" else ids[n - 1]
  }

  /** Behind the n-th of ascending ids there are the first n. */
  lemma {:induction false} BehindPlace(ids: seq<string>, n: nat)
    requires Ascending("", ids) && n <= |ids|
    ensures Behind(ids, Place(ids, n)) == n
  {
    hide StringLess;
    if n > 0 { BehindId(ids, n - 1); } else if ids != [] { assert StringLess("", ids[0]); }
  }

  lemma {:induction false} BehindId(ids: seq<string>, k: nat)
    requires k < |ids| && forall i, j :: 0 <= i < j < |ids| ==> StringLess(ids[i], ids[j])
    ensures Behind(ids, ids[k]) == k + 1
    decreases k
  {
    NotLess(ids[0], ids[k]) by { assert k > 0 ==> StringLess(ids[0], ids[k]); }
    hide StringLess;
    var rest := ids[1..];
    if k > 0 {
      assert rest[k - 1] == ids[k];
      BehindId(rest, k - 1);
    } else if rest != [] {
      assert StringLess(ids[0], ids[1]);
    }
  }

  lemma NotLess(a: string, b: string)
    requires a == b || StringLess(a, b)
    ensures !StringLess(b, a)
  {
    StringLeTotal(a, b);
  }

  /** The rows after a given id, of rows in ascending order. */
  function Following(rows: seq<Entry>, after: string): seq<Entry> {
    rows[Behind(Ids(rows), after)..]
  }

  /** The next rows after the cursor, up to the limit. */
  function Fetch(rows: seq<Entry>, revision: string, after: string, limit: nat): Catalog {
    var rest := Following(rows, after);
    Catalog(revision, if |rest| > limit then rest[..limit] else rest)
  }

  /** Rows that a catalog may hold, in ascending order. */
  ghost predicate Rows(named: string -> bool, rows: seq<Entry>) {
    (forall i :: 0 <= i < |rows| ==> Usable(named, rows[i])) && Ascending("", Ids(rows))
  }

  /** The visits of a walk over the rows from the n-th on. */
  function Visits(rows: seq<Entry>, revision: string, size: nat, n: nat): (visits: seq<Visit>)
    requires size >= 1 && n <= |rows|
    ensures visits != []
    decreases |rows| - n
  {
    var visit := Visit(size, Fetch(rows, revision, Place(Ids(rows), n), size + 1));
    if n + size < |rows| then [visit] + Visits(rows, revision, size, n + size) else [visit]
  }

  lemma AscendingBehind(ids: seq<string>, n: nat, m: nat)
    requires Ascending("", ids) && n <= m <= |ids|
    ensures Ascending(Place(ids, n), ids[n..m])
  {
    hide StringLess;
    var part := ids[n..m];
    forall i | 0 <= i < |part| ensures StringLess(Place(ids, n), part[i]) {
      assert part[i] == ids[n + i];
      if n > 0 { assert StringLess(ids[n - 1], ids[n + i]); }
    }
  }

  /** What is fetched after the n-th row: the page, and one row more if there is one. */
  lemma FetchedRows(rows: seq<Entry>, revision: string, size: nat, n: nat)
    requires Ascending("", Ids(rows)) && size >= 1 && n <= |rows|
    ensures Fetch(rows, revision, Place(Ids(rows), n), size + 1) == Catalog(revision, rows[n..EndOf(rows, size, n)])
  {
    hide Behind, Ascending, Place, Ids;
    BehindPlace(Ids(rows), n);
    if n + size < |rows| { assert rows[n..][..size + 1] == rows[n..n + size + 1]; }
  }

  function EndOf(rows: seq<Entry>, size: nat, n: nat): (m: nat)
    requires n <= |rows|
    ensures n <= m <= |rows|
  {
    if n + size < |rows| then n + size + 1 else |rows|
  }

  lemma PartIsValid(named: string -> bool, rows: seq<Entry>, size: nat, n: nat, cursor: Cursor, revision: string)
    requires Rows(named, rows) && revision != "" && size >= 1 && n <= |rows|
    requires cursor.after == Place(Ids(rows), n) && (cursor.revision == "" || cursor.revision == revision)
    ensures Valid(named, Catalog(revision, rows[n..EndOf(rows, size, n)]), cursor, size + 1)
  {
    hide Ascending, Place, Usable;
    var m := EndOf(rows, size, n);
    IdsPart(rows, n, m);
    AscendingBehind(Ids(rows), n, m);
  }

  lemma PartIsCut(rows: seq<Entry>, size: nat, n: nat, revision: string)
    requires size >= 1 && n <= |rows|
    ensures Cut(Catalog(revision, rows[n..EndOf(rows, size, n)]), size) ==
      if n + size < |rows| then Page(Ids(rows[n..n + size]), Some(Cursor(Place(Ids(rows), n + size), revision)))
      else Page(Ids(rows[n..]), None)
  {
    var m := EndOf(rows, size, n);
    IdsPart(rows, n, m);
    if n + size < |rows| {
      IdsPart(rows, n, n + size);
      assert Ids(rows)[n..m][..size] == Ids(rows)[n..n + size];
    }
  }

  lemma IdsPart(rows: seq<Entry>, n: nat, m: nat)
    requires n <= m <= |rows|
    ensures Ids(rows[n..m]) == Ids(rows)[n..m]
    ensures m == |rows| ==> rows[n..m] == rows[n..]
  {
  }

  /** The number of pages that `n` rows fill: at least one. */
  function Pages(n: nat, size: nat): nat
    requires size >= 1
  {
    if n == 0 then 1 else (n + size - 1) / size
  }

  lemma QuotientIs(x: int, k: int, d: int)
    requires d >= 1 && k * d <= x < k * d + d
    ensures x / d == k
  {
    var q := x / d;
    assert x == q * d + x % d;
    if q + 1 <= k { Times(q + 1, k, d); }
    if k + 1 <= q { Times(k + 1, q, d); }
  }

  lemma Times(a: int, b: int, d: int)
    requires a <= b && d >= 1
    ensures a * d <= b * d
  {
  }

  lemma PagesNext(n: nat, size: nat)
    requires 1 <= size < n
    ensures Pages(n, size) == 1 + Pages(n - size, size)
  {
    var m := n - 1;
    var q := m / size;
    assert m == q * size + m % size;
    assert (q + 1) * size == q * size + size;
    QuotientIs(m + size, q + 1, size);
    assert n + size - 1 == m + size && n - size + size - 1 == m;
  }

  lemma LastPage(n: nat, size: nat)
    requires size >= 1 && n <= size
    ensures Pages(n, size) == 1
  {
    if n > 0 { QuotientIs(n + size - 1, 1, size); }
  }

  /** The walk is served, lists these ids on this many pages, and has ended. */
  ghost predicate Complete(named: string -> bool, cursor: Cursor, visits: seq<Visit>, ids: seq<string>, pages: nat) {
    && Walked(named, cursor, visits) && Listed(visits) == ids && |visits| == pages && pages > 0
    && visits[|visits| - 1].size >= 1 && Cut(visits[|visits| - 1].catalog, visits[|visits| - 1].size).next == None
  }

  lemma CompleteOne(named: string -> bool, cursor: Cursor, v: Visit)
    requires v.size >= 1 && Valid(named, v.catalog, cursor, v.size + 1) && Cut(v.catalog, v.size).next == None
    ensures Complete(named, cursor, [v], Cut(v.catalog, v.size).ids, 1)
  {
    assert Listed([v][1..]) == [];
  }

  lemma CompleteMore(named: string -> bool, cursor: Cursor, v: Visit, rest: seq<Visit>, ids: seq<string>, pages: nat)
    requires v.size >= 1 && Valid(named, v.catalog, cursor, v.size + 1) && Cut(v.catalog, v.size).next.Some?
    requires Complete(named, Cut(v.catalog, v.size).next.value, rest, ids, pages)
    ensures Complete(named, cursor, [v] + rest, Cut(v.catalog, v.size).ids + ids, 1 + pages)
  {
    hide Valid, Cut;
    var visits := [v] + rest;
    assert visits[1..] == rest && visits[|visits| - 1] == rest[|rest| - 1];
  }

  lemma VisitsBegin(rows: seq<Entry>, revision: string, size: nat, n: nat)
    requires size >= 1 && n <= |rows|
    ensures var visit := Visit(size, Fetch(rows, revision, Place(Ids(rows), n), size + 1));
      Visits(rows, revision, size, n)
        == if n + size < |rows| then [visit] + Visits(rows, revision, size, n + size) else [visit]
  {
  }

  /** The visit after the n-th row is served with the next rows of the list. */
  lemma Served(named: string -> bool, rows: seq<Entry>, size: nat, n: nat, cursor: Cursor, revision: string)
    requires Rows(named, rows) && revision != "" && size >= 1 && n <= |rows|
    requires cursor.after == Place(Ids(rows), n) && (cursor.revision == "" || cursor.revision == revision)
    ensures var catalog := Fetch(rows, revision, Place(Ids(rows), n), size + 1);
      && Valid(named, catalog, cursor, size + 1)
      && Cut(catalog, size) ==
           if n + size < |rows| then Page(Ids(rows[n..n + size]), Some(Cursor(Place(Ids(rows), n + size), revision)))
           else Page(Ids(rows[n..]), None)
  {
    assert Ascending("", Ids(rows));
    hide *;
    FetchedRows(rows, revision, size, n);
    PartIsValid(named, rows, size, n, cursor, revision);
    PartIsCut(rows, size, n, revision);
  }

  lemma {:induction false} VisitsFrom(named: string -> bool, rows: seq<Entry>, revision: string, size: nat, n: nat,
                                      expected: string)
    requires Rows(named, rows) && revision != "" && size >= 1 && n <= |rows|
    requires expected == "" || expected == revision
    ensures Complete(named, Cursor(Place(Ids(rows), n), expected), Visits(rows, revision, size, n),
                     Ids(rows[n..]), Pages(|rows| - n, size))
    decreases |rows| - n
  {
    hide *;
    var visit := Visit(size, Fetch(rows, revision, Place(Ids(rows), n), size + 1));
    var cursor := Cursor(Place(Ids(rows), n), expected);
    Served(named, rows, size, n, cursor, revision);
    VisitsBegin(rows, revision, size, n);
    if n + size < |rows| {
      var rest := Visits(rows, revision, size, n + size);
      VisitsFrom(named, rows, revision, size, n + size, revision);
      CompleteMore(named, cursor, visit, rest, Ids(rows[n + size..]), Pages(|rows| - n - size, size));
      PagesNext(|rows| - n, size);
      IdsSplit(rows, n, n + size);
    } else {
      LastPage(|rows| - n, size);
      CompleteOne(named, cursor, visit);
    }
  }

  lemma IdsSplit(rows: seq<Entry>, n: nat, m: nat)
    requires n <= m <= |rows|
    ensures Ids(rows[n..]) == Ids(rows[n..m]) + Ids(rows[m..])
  {
  }

  /** When the source returns the next rows after the cursor, a walk is served
      throughout, lists every row once and in order, and ends after as many
      pages as the rows fill. */
  lemma HonestWalkListsAll(named: string -> bool, rows: seq<Entry>, revision: string, requested: int)
    requires Rows(named, rows) && revision != "" && PageSize(requested).Some?
    ensures var size := PageSize(requested).value;
      Complete(named, FIRST, Visits(rows, revision, size, 0), Ids(rows),
               Pages(|rows|, size))
  {
    hide Pages, Complete, Visits, Rows, PageSize, Ids;
    VisitsFrom(named, rows, revision, PageSize(requested).value, 0, "");
    assert rows[0..] == rows;
  }
}
