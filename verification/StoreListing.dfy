/** Listing stores page by page. The cursor of the next page is the encoded id of
    the last store listed, and nothing but the decoder checks it on the way back. */
module StoreListing {
  import opened Options
  import opened Ordering
  import opened StoreCursor
  import Paging

  datatype Error = PageSizeInvalid | CursorInvalid

  /** No next cursor is the empty text. */
  datatype Result = Page(ids: seq<string>, next: string) | Refused(error: Error)

  /** The ids of the stores within the caller's scope, in order. */
  ghost predicate Stores(ids: seq<string>) {
    Paging.Ascending("", ids) && forall i :: 0 <= i < |ids| ==> Trimmed(ids[i])
  }

  function Fetch(ids: seq<string>, after: string, limit: nat): seq<string> {
    var rest := ids[Paging.Behind(ids, after)..];
    if |rest| > limit then rest[..limit] else rest
  }

  function PageOf(items: seq<string>, size: nat): Result
    requires size >= 1
  {
    if |items| > size then Page(items[..size], Encode(items[size - 1])) else Page(items, "")
  }

  function List(ids: seq<string>, requested: int, cursor: string): Result {
    match Paging.PageSize(requested)
    case None => Refused(PageSizeInvalid)
    case Some(size) =>
      match Decode(cursor)
      case InvalidCursor => Refused(CursorInvalid)
      case After(after) => PageOf(Fetch(ids, after, size + 1), size)
  }

  // ---------------------------------------------------------------------
  // A walk along the next cursors
  // ---------------------------------------------------------------------

  predicate More(r: Result) {
    r.Page? && r.next != ""
  }

  /** The answers to up to `requests` requests, until one has no next cursor. */
  function Walk(ids: seq<string>, requested: int, cursor: string, requests: nat): seq<Result>
    decreases requests
  {
    if requests == 0 then []
    else
      var r := List(ids, requested, cursor);
      [r] + if More(r) then Walk(ids, requested, r.next, requests - 1) else []
  }

  function Listed(answers: seq<Result>): seq<string> {
    if answers == [] then []
    else (if answers[0].Page? then answers[0].ids else []) + Listed(answers[1..])
  }

  predicate Ended(answers: seq<Result>) {
    answers != [] && answers[|answers| - 1].Page? && answers[|answers| - 1].next == ""
  }

  predicate CutOff(answers: seq<Result>) {
    answers != [] && answers[|answers| - 1] == Refused(CursorInvalid)
  }

  /** An id whose cursor is accepted when it comes back. */
  predicate Fits(id: string) {
    |Utf8(id)| <= ID_LIMIT && |Encode(id)| <= CURSOR_LIMIT
  }

  /** The last id of every page but the last fits into a cursor. */
  predicate PageEndsFit(ids: seq<string>, size: nat)
    requires size >= 1
  {
    |ids| > size ==> Fits(ids[size - 1]) && PageEndsFit(ids[size..], size)
  }

  /** Either everything is listed, on as many pages as it fills, or a cursor that
      the service handed out itself is refused and the rest is never listed. */
  ghost predicate Outcome(ids: seq<string>, size: nat, answers: seq<Result>)
    requires size >= 1
  {
    if PageEndsFit(ids, size) then Ended(answers) && Listed(answers) == ids && |answers| == Paging.Pages(|ids|, size)
    else CutOff(answers) && Listed(answers) < ids && |answers| <= Paging.Pages(|ids|, size)
  }

  lemma CursorReads(id: string)
    requires Trimmed(id) && id != ""
    ensures Encode(id) != ""
    ensures Decode(Encode(id)) == if Fits(id) then After(id) else InvalidCursor
  {
    hide Decode, Encode, Utf8, Trim;
    RoundTrip(id);
    TrimTrims(id);
    EncodedSize(id);
  }

  /** The page after the n-th id. */
  lemma PageAfter(ids: seq<string>, size: nat, n: nat)
    requires Paging.Ascending("", ids) && n <= |ids| && size >= 1
    ensures PageOf(Fetch(ids, Paging.Place(ids, n), size + 1), size) ==
      if n + size < |ids| then Page(ids[n..n + size], Encode(ids[n + size - 1])) else Page(ids[n..], "")
  {
    hide Encode, Paging.Place, Paging.Behind, Paging.Ascending;
    Paging.BehindPlace(ids, n);
    if n + size < |ids| { assert ids[n..][..size + 1][..size] == ids[n..n + size]; }
  }

  lemma ListAfter(ids: seq<string>, requested: int, cursor: string, after: string)
    requires Paging.PageSize(requested).Some? && Decode(cursor) == After(after)
    ensures var size := Paging.PageSize(requested).value;
      List(ids, requested, cursor) == PageOf(Fetch(ids, after, size + 1), size)
  {
    hide Decode, Encode, PageOf, Fetch;
  }

  lemma LastAnswer(ids: seq<string>, size: nat)
    requires size >= 1 && |ids| <= size
    ensures Outcome(ids, size, [Page(ids, "")])
  {
    Paging.LastPage(|ids|, size);
    ListedOne(Page(ids, ""), []);
  }

  lemma ListedOne(r: Result, rest: seq<Result>)
    ensures Listed([r] + rest) == (if r.Page? then r.ids else []) + Listed(rest)
  {
    assert ([r] + rest)[1..] == rest;
  }

  lemma NextAnswer(ids: seq<string>, size: nat, next: string, rest: seq<Result>)
    requires 1 <= size < |ids|
    requires if Fits(ids[size - 1]) then Outcome(ids[size..], size, rest) else rest == [Refused(CursorInvalid)]
    ensures Outcome(ids, size, [Page(ids[..size], next)] + rest)
  {
    hide Fits, Paging.Pages;
    Paging.PagesNext(|ids|, size);
    ListedOne(Page(ids[..size], next), rest);
    assert ids[..size] + ids[size..] == ids;
    if !Fits(ids[size - 1]) {
      ListedOne(rest[0], []);
      PagesPositive(|ids| - size, size);
      assert ids[..size] + [] == ids[..size];
    } else if !PageEndsFit(ids[size..], size) {
      PrefixBehind(ids[..size], Listed(rest), ids[size..]);
    }
  }

  lemma PagesPositive(n: nat, size: nat)
    requires size >= 1
    ensures Paging.Pages(n, size) >= 1
  {
    if n > size { Paging.PagesNext(n, size); } else { Paging.LastPage(n, size); }
  }

  lemma PrefixBehind<T>(a: seq<T>, b: seq<T>, c: seq<T>)
    requires b < c
    ensures a + b < a + c
  {
    assert c == b + c[|b|..];
    assert a + c == (a + b) + c[|b|..];
  }

  lemma {:induction false} WalkFrom(ids: seq<string>, requested: int, n: nat, cursor: string, requests: nat)
    requires Stores(ids) && n <= |ids| && Paging.PageSize(requested).Some?
    requires Decode(cursor) == After(Paging.Place(ids, n))
    requires requests >= Paging.Pages(|ids| - n, Paging.PageSize(requested).value)
    ensures Outcome(ids[n..], Paging.PageSize(requested).value, Walk(ids, requested, cursor, requests))
    decreases |ids| - n
  {
    hide Decode, Encode, Fits, Outcome, Paging.Pages, Paging.PageSize, Paging.Ascending, List, PageOf, Fetch;
    var size := Paging.PageSize(requested).value;
    var all := ids[n..];
    PagesPositive(|all|, size);
    ListAfter(ids, requested, cursor, Paging.Place(ids, n));
    PageAfter(ids, size, n);
    if n + size < |ids| {
      var id, next := ids[n + size - 1], Encode(ids[n + size - 1]);
      Paging.PagesNext(|all|, size);
      PagesPositive(|all| - size, size);
      NotBlank(ids, n + size - 1);
      CursorReads(id);
      assert all[..size] == ids[n..n + size] && all[size..] == ids[n + size..] && all[size - 1] == id;
      if Fits(id) {
        WalkFrom(ids, requested, n + size, next, requests - 1);
      } else {
        RefusedNext(ids, requested, next);
      }
      NextAnswer(all, size, next, Walk(ids, requested, next, requests - 1));
    } else {
      LastAnswer(all, size);
      assert Walk(ids, requested, cursor, requests) == [Page(all, "")];
    }
  }

  lemma NotBlank(ids: seq<string>, k: nat)
    requires Stores(ids) && k < |ids|
    ensures Trimmed(ids[k]) && ids[k] != ""
  {
    assert StringLess("", ids[k]);
  }

  lemma RefusedNext(ids: seq<string>, requested: int, cursor: string)
    requires Paging.PageSize(requested).Some? && Decode(cursor) == InvalidCursor
    ensures List(ids, requested, cursor) == Refused(CursorInvalid)
  {
  }

  /** A walk with enough requests lists every store once and in order, on
      max(1, ceil(n / size)) pages, if and only if the last id of every page but
      the last fits into a cursor. */
  lemma WalkListsAllIff(ids: seq<string>, requested: int, requests: nat)
    requires Stores(ids) && Paging.PageSize(requested).Some?
    requires requests >= Paging.Pages(|ids|, Paging.PageSize(requested).value)
    ensures Outcome(ids, Paging.PageSize(requested).value, Walk(ids, requested, "", requests))
  {
    hide Outcome, Paging.Pages, Walk, Paging.PageSize;
    assert Decode("") == After(Paging.Place(ids, 0));
    WalkFrom(ids, requested, 0, "", requests);
    assert ids[0..] == ids;
  }

  lemma {:induction false} ShortIdsFit(ids: seq<string>, size: nat)
    requires size >= 1
    requires forall i :: 0 <= i < |ids| ==> Trimmed(ids[i]) && ids[i] != "" && |Utf8(ids[i])| <= 252
    ensures PageEndsFit(ids, size)
  {
    hide Encode, Utf8, Fits, Trimmed;
    if |ids| > size {
      ShortIdFits(ids[size - 1]);
      ShortIdsFit(ids[size..], size);
    }
  }

  lemma {:induction false} ShortIdFits(id: string)
    requires Trimmed(id) && id != "" && |Utf8(id)| <= 252
    ensures Fits(id)
  {
    ShortIdsComeBack(id);
    CursorReads(id);
  }

  /** Ids of at most 252 bytes are all listed. */
  lemma ShortIdsAreAllListed(ids: seq<string>, requested: int, requests: nat)
    requires Stores(ids) && Paging.PageSize(requested).Some?
    requires forall i :: 0 <= i < |ids| ==> |Utf8(ids[i])| <= 252
    requires requests >= Paging.Pages(|ids|, Paging.PageSize(requested).value)
    ensures var answers := Walk(ids, requested, "", requests);
      Ended(answers) && Listed(answers) == ids && |answers| == Paging.Pages(|ids|, Paging.PageSize(requested).value)
  {
    hide Walk, Utf8, Fits, Stores, Paging.Pages, Paging.PageSize;
    WalkListsAllIff(ids, requested, requests);
    forall i | 0 <= i < |ids| ensures Trimmed(ids[i]) && ids[i] != "" { NotBlank(ids, i); }
    ShortIdsFit(ids, Paging.PageSize(requested).value);
  }

  /** The smallest failing case: with one store a page, the list stops behind a
      store whose id is 253 control characters. */
  lemma LongIdCutsOff(id: string, requests: nat)
    requires |id| == 253 && (forall i :: 0 <= i < |id| ==> id[i] == '\U{1}') && requests >= 2
    ensures Stores([id, "a"]) && CutOff(Walk([id, "a"], 1, "", requests))
      && Listed(Walk([id, "a"], 1, "", requests)) < [id, "a"]
  {
    hide Walk, Listed, Encode, Utf8, Decode;
    var ids := [id, "a"];
    LongerIdMayNotComeBack(id);
    assert StringLess("", id) && StringLess("", "a") && StringLess(id, "a");
    assert Stores(ids);
    assert Paging.Pages(2, 1) == 2;
    WalkListsAllIff(ids, 1, requests);
    assert !Fits(ids[0]);
  }
}
