/** The API's two ways of paging through a search. */
module Paging {
  import opened Domain
  import opened Tables
  import opened Pipeline
  import opened Search
  import opened SearchPaging

  /* ---- requests and responses ---- */

  function SearchPage(c: SearchCriteria, db: Database): seq<Row>
    requires ValidPaging(c)
  {
    Evaluate(BuildQuery(c), db)
  }

  /** `next_after` of a cursor page: the last id, or nothing after an empty page. */
  function NextAfter(page: seq<Row>): Option<int> {
    if page == [] then None else Some(page[|page| - 1].videoId)
  }

  datatype PageApiResponse<T> = PageApiResponse(
    content: seq<T>, page: Option<nat>, size: nat, totalElements: nat,
    totalPages: Option<nat>, first: Option<bool>, last: Option<bool>, nextAfter: Option<int>)

  function TotalPages(total: nat, size: nat): nat {
    if size > 0 then (total + size - 1) / size else 0
  }

  function PageOf<T>(items: seq<T>, total: nat, page: nat, size: nat): PageApiResponse<T> {
    var totalPages := TotalPages(total, size);
    PageApiResponse(items, Some(page), size, total, Some(totalPages), Some(page <= 1), Some(page >= totalPages), None)
  }

  function PageOfCursor<T>(items: seq<T>, size: nat, lastId: Option<int>): PageApiResponse<T> {
    PageApiResponse(items, None, size, 0, None, None, None, lastId)
  }

  /** The request after validation: refused with both a cursor and a page, and
      otherwise left with exactly one of them: the given one, or page 1. */
  function Validated(c: SearchCriteria): (r: Option<SearchCriteria>)
    ensures r.None? <==> c.page.Some? && c.after.Some?
    ensures r.Some? ==> (r.value.page.Some? <==> r.value.after.None?) && r.value.after == c.after
    ensures r.Some? && (c.page.Some? || c.after.Some?) ==> r.value == c
    ensures r.Some? && c.page.None? && c.after.None? ==> r.value.page == Some(1) && r.value.(page := None) == c
    ensures r.Some? && ValidPaging(c) ==> ValidPaging(r.value)
  {
    if c.page.Some? && c.after.Some? then None
    else if c.page.None? && c.after.None? then Some(c.(page := Some(1)))
    else Some(c)
  }

  /** The response to a search request. */
  function SearchData(c: SearchCriteria, db: Database): PageApiResponse<Row>
    requires ValidPaging(c) && (c.after.Some? || c.page.Some?)
  {
    var rows := SearchPage(c, db);
    if c.after.Some? then PageOfCursor(rows, c.size, NextAfter(rows))
    else PageOf(rows, EvaluateCount(BuildCountQuery(c), db), c.page.value, c.size)
  }

  /* ---- cursor paging ---- */

  function WithCursor(c: SearchCriteria, after: int): SearchCriteria {
    c.(after := Some(after), page := None)
  }

  function IdsIn(rows: seq<Row>): set<int> {
    set r | r in rows :: r.videoId
  }

  /** The ids behind the cursor that the criteria select. */
  function IdsBehind(c: SearchCriteria, db: Database, after: int): set<int> {
    set s | s in db.selections && Multiplicity(c, s, db) > 0 && s.videoId > after :: s.videoId
  }

  /** The answer behind a cursor; the page is its beginning. */
  lemma CursorPage(c: SearchCriteria, db: Database, after: int)
    requires c.size >= 1
    ensures ValidPaging(WithCursor(c, after))
    ensures SearchPage(WithCursor(c, after), db) == Slice(Answer(c, Some(after), db), 0, Some(c.size))
  {
    var c' := WithCursor(c, after);
    QueriesGiveTheAnswer(c', db);
    SameMatches(c, c', Some(after), db.selections, db);
    hide Matched;
  }

  /** Paging fields have no say in what matches. */
  lemma {:induction false} SameMeetingOdds(c: SearchCriteria, c': SearchCriteria, id: int, odds: seq<Row>)
    requires c' == c.(after := c'.after, page := c'.page, size := c'.size)
    ensures MeetingOdds(c', id, odds) == MeetingOdds(c, id, odds)
    decreases |odds|
  {
    if odds != [] {
      SameMeetingOdds(c, c', id, odds[..|odds| - 1]);
    }
  }

  lemma SameMultiplicity(c: SearchCriteria, c': SearchCriteria, s: Row, db: Database)
    requires c' == c.(after := c'.after, page := c'.page, size := c'.size)
    ensures Multiplicity(c', s, db) == Multiplicity(c, s, db)
  {
    SameMeetingOdds(c, c', s.videoId, db.oddTags);
    assert forall l :: LabelMeets(c', s.videoId, l) == LabelMeets(c, s.videoId, l);
    hide LabelMeets;
  }

  lemma {:induction false} SameMatches(
      c: SearchCriteria, c': SearchCriteria, after: Option<int>, selections: seq<Row>, db: Database)
    requires c' == c.(after := c'.after, page := c'.page, size := c'.size)
    ensures Matched(c', after, selections, db) == Matched(c, after, selections, db)
    decreases |selections|
  {
    hide Multiplicity;
    if selections != [] {
      var n := |selections| - 1;
      SameMatches(c, c', after, selections[..n], db);
      SameMultiplicity(c, c', selections[n], db);
    }
  }

  lemma IdsOfAnswer(c: SearchCriteria, db: Database, after: int)
    requires UniqueKeys(db.selections)
    ensures IdsIn(Answer(c, Some(after), db)) == IdsBehind(c, db, after)
    ensures SortedById(Answer(c, Some(after), db))
  {
    hide Multiplicity, Answer;
    var rows := Answer(c, Some(after), db);
    forall s ensures s in rows <==> s in db.selections && s.videoId > after && Multiplicity(c, s, db) > 0 {
      AnswerIsExact(c, Some(after), db, s);
    }
    AnswerIsExact(c, Some(after), db, Selection(0, [], 0, 0.0, false, None, false, []));
  }

  /** The first rows of a sorted sequence hold exactly the ids up to their last one. */
  lemma PrefixHoldsIdsUpToLast(rows: seq<Row>, k: nat)
    requires SortedById(rows) && 0 < k <= |rows|
    ensures var last := rows[k - 1].videoId;
      last in IdsIn(rows) && IdsIn(rows[..k]) == set id | id in IdsIn(rows) && id <= last
  {
    var last := rows[k - 1].videoId;
    assert rows[k - 1] in rows && rows[..k][k - 1] in rows[..k];
    forall id | id in IdsIn(rows) && id <= last ensures id in IdsIn(rows[..k]) {
      var j :| 0 <= j < |rows| && rows[j].videoId == id;
      if j < k {
        assert rows[..k][j] in rows[..k];
      }
    }
    forall id | id in IdsIn(rows[..k]) ensures id in IdsIn(rows) && id <= last {
      var j :| 0 <= j < k && rows[..k][j].videoId == id;
      assert rows[j] in rows;
    }
  }

  lemma IdsBehindLater(c: SearchCriteria, db: Database, after: int, later: int)
    requires after <= later
    ensures IdsBehind(c, db, later) == set id | id in IdsBehind(c, db, after) && id > later
  {
    hide Multiplicity;
  }

  lemma EmptyPage(rows: seq<Row>, size: nat)
    requires size >= 1
    ensures var k := if size <= |rows| then size else |rows|;
      Slice(rows, 0, Some(size)) == rows[..k] && (k == 0 <==> rows == [])
  {
    assert rows[0..] == rows;
  }

  /** A page takes the ids up to its last one, and leaves those beyond. */
  lemma PageSplitsIds(c: SearchCriteria, db: Database, after: int)
    requires c.size >= 1 && UniqueKeys(db.selections)
    ensures ValidPaging(WithCursor(c, after))
    ensures var page := SearchPage(WithCursor(c, after), db);
      if page == [] then IdsBehind(c, db, after) == {}
      else
        var last := NextAfter(page).value;
        && IdsIn(page) == (set id | id in IdsBehind(c, db, after) && id <= last)
        && IdsBehind(c, db, last) == (set id | id in IdsBehind(c, db, after) && id > last)
        && last in IdsBehind(c, db, after) && last > after
  {
    CursorPage(c, db, after);
    IdsOfAnswer(c, db, after);
    var rows := Answer(c, Some(after), db);
    EmptyPage(rows, c.size);
    hide Multiplicity, Answer, SearchPage, Slice, SortedById, WithCursor;
    var k := if c.size <= |rows| then c.size else |rows|;
    if k > 0 {
      PrefixHoldsIdsUpToLast(rows, k);
      IdsBehindLater(c, db, after, rows[k - 1].videoId);
    }
  }

  /** Following `next_after` until a page comes back empty. */
  function Walk(c: SearchCriteria, db: Database, after: int): seq<seq<Row>>
    requires c.size >= 1 && UniqueKeys(db.selections)
    decreases |IdsBehind(c, db, after)|
  {
    FewerIdsBehind(c, db, after);
    var r := SearchData(WithCursor(c, after), db);
    if r.nextAfter == None then [] else [r.content] + Walk(c, db, r.nextAfter.value)
  }

  lemma FewerIdsBehind(c: SearchCriteria, db: Database, after: int)
    requires c.size >= 1 && UniqueKeys(db.selections)
    ensures ValidPaging(WithCursor(c, after))
    ensures var page := SearchPage(WithCursor(c, after), db);
      page != [] ==> |IdsBehind(c, db, NextAfter(page).value)| < |IdsBehind(c, db, after)|
  {
    PageSplitsIds(c, db, after);
    hide SearchPage, IdsIn, IdsBehind, WithCursor;
    var page := SearchPage(WithCursor(c, after), db);
    if page != [] {
      var last := NextAfter(page).value;
      SubsetIsNoLarger(IdsBehind(c, db, last), IdsBehind(c, db, after) - {last});
    }
  }

  /** The pages hold exactly `ids`, and no id of a page reaches a later page. */
  ghost predicate Covers(pages: seq<seq<Row>>, ids: set<int>) {
    && (forall id :: id in ids <==> exists i :: 0 <= i < |pages| && id in IdsIn(pages[i]))
    && (forall i, j, x, y :: 0 <= i < j < |pages| && x in IdsIn(pages[i]) && y in IdsIn(pages[j]) ==> x < y)
  }

  lemma CoversOneMore(page: seq<Row>, rest: seq<seq<Row>>, ids: set<int>, beyond: set<int>, last: int)
    requires IdsIn(page) == set id | id in ids && id <= last
    requires beyond == set id | id in ids && id > last
    requires Covers(rest, beyond)
    ensures Covers([page] + rest, ids)
  {
    hide IdsIn;
    var pages := [page] + rest;
    assert pages[0] == page && forall i :: 0 < i < |pages| ==> pages[i] == rest[i - 1];
    forall id | id in ids ensures exists i :: 0 <= i < |pages| && id in IdsIn(pages[i]) {
      if id <= last {
        assert id in IdsIn(pages[0]);
      } else {
        assert id in beyond;
        var i :| 0 <= i < |rest| && id in IdsIn(rest[i]);
        assert id in IdsIn(pages[i + 1]);
      }
    }
    forall i, id | 0 < i < |pages| && id in IdsIn(pages[i]) ensures id in ids && id > last {
      assert id in IdsIn(rest[i - 1]) && id in beyond;
    }
    forall i, j, x, y | 0 <= i < j < |pages| && x in IdsIn(pages[i]) && y in IdsIn(pages[j]) ensures x < y {
      assert y in IdsIn(rest[j - 1]);
      if i > 0 {
        assert x in IdsIn(rest[i - 1]);
      } else {
        assert x in IdsIn(page) && y in beyond;
      }
    }
  }

  /** The cursor walk over fixed tables: it ends after at most one page per id,
      its pages hold exactly the matching ids behind the start, and every id of
      a page is below every id of a later one, so that no id is in two pages.
      This holds although the odd tag join repeats rows. */
  lemma {:induction false} CursorWalkCoversEachIdOnce(c: SearchCriteria, db: Database, after: int)
    requires c.size >= 1 && UniqueKeys(db.selections)
    ensures Covers(Walk(c, db, after), IdsBehind(c, db, after))
    ensures |Walk(c, db, after)| <= |IdsBehind(c, db, after)|
    decreases |IdsBehind(c, db, after)|
  {
    PageSplitsIds(c, db, after);
    FewerIdsBehind(c, db, after);
    hide SearchPage, IdsIn, IdsBehind, WithCursor;
    var page := SearchPage(WithCursor(c, after), db);
    if page == [] {
      assert Walk(c, db, after) == [];
    } else {
      var last := NextAfter(page).value;
      CursorWalkCoversEachIdOnce(c, db, last);
      CoversOneMore(page, Walk(c, db, last), IdsBehind(c, db, after), IdsBehind(c, db, last), last);
    }
  }

  /* ---- offset paging ---- */

  /** Page `p` of the whole answer. */
  function PageAt(rows: seq<Row>, p: nat, size: nat): seq<Row>
    requires p >= 1
  {
    Slice(rows, (p - 1) * size, Some(size))
  }

  function FirstPages(rows: seq<Row>, k: nat, size: nat): seq<Row> {
    if k == 0 then [] else FirstPages(rows, k - 1, size) + PageAt(rows, k, size)
  }

  lemma {:induction false} FirstPagesArePrefix(rows: seq<Row>, k: nat, size: nat)
    requires size >= 1
    ensures FirstPages(rows, k, size) == if k * size <= |rows| then rows[..k * size] else rows
  {
    if k > 0 {
      FirstPagesArePrefix(rows, k - 1, size);
      assert k * size == (k - 1) * size + size;
    }
  }

  /** `TotalPages` is the ceiling of total / size. */
  lemma CeilingOfPages(total: nat, size: nat)
    requires size >= 1
    ensures var t := TotalPages(total, size);
      t * size >= total && (t > 0 ==> (t - 1) * size < total)
  {
    var x := total + size - 1;
    var t := x / size;
    assert x == t * size + x % size;
    if t > 0 {
      assert (t - 1) * size == t * size - size;
    } else {
      assert t * size == 0;
    }
  }

  lemma PagesBefore(total: nat, size: nat, p: nat)
    requires size >= 1 && p >= 1
    ensures p <= TotalPages(total, size) <==> (p - 1) * size < total
    ensures p >= TotalPages(total, size) <==> p * size >= total
  {
    var t := TotalPages(total, size);
    CeilingOfPages(total, size);
    if p <= t {
      Monotone(p - 1, t - 1, size);
    } else {
      Monotone(t, p - 1, size);
    }
    if p >= t {
      Monotone(t, p, size);
    } else {
      Monotone(p, t - 1, size);
    }
  }

  lemma Monotone(a: nat, b: nat, size: nat)
    requires a <= b
    ensures a * size <= b * size
  {
    assert b * size == a * size + (b - a) * size;
  }

  lemma SliceIsEmpty(rows: seq<Row>, offset: nat, size: nat)
    requires size >= 1
    ensures Slice(rows, offset, Some(size)) != [] <==> offset < |rows|
  {
  }

  /** What an offset request answers, in terms of the whole answer. */
  lemma OffsetResponse(c: SearchCriteria, db: Database)
    requires ValidPaging(c) && c.after.None? && c.page.Some?
    ensures var rows := Answer(c, None, db);
      SearchData(c, db) == PageOf(PageAt(rows, c.page.value, c.size), |rows|, c.page.value, c.size)
  {
    QueriesGiveTheAnswer(c, db);
    hide Answer, Evaluate, BuildQuery, BuildCountQuery, EvaluateCount, TotalPages, Slice;
  }

  lemma PagesOfSequence(rows: seq<Row>, p: nat, size: nat)
    requires size >= 1 && p >= 1
    ensures PageAt(rows, p, size) != [] <==> p <= TotalPages(|rows|, size)
    ensures p >= TotalPages(|rows|, size) <==> |rows| <= p * size
    ensures FirstPages(rows, TotalPages(|rows|, size), size) == rows
  {
    PagesBefore(|rows|, size, p);
    SliceIsEmpty(rows, (p - 1) * size, size);
    CeilingOfPages(|rows|, size);
    FirstPagesArePrefix(rows, TotalPages(|rows|, size), size);
    hide TotalPages, FirstPages, Slice;
    assert rows[..|rows|] == rows;
  }

  /** Offset paging: page `p` of a search is the `p`-th piece of the whole
      answer and is non-empty exactly up to `totalPages`, `last` is true exactly
      when no row lies beyond the page, and all pages together are the answer. */
  lemma OffsetPagesCoverTheAnswer(request: SearchCriteria, db: Database)
    requires ValidPaging(request) && request.after.None?
    ensures var c := Validated(request).value;
      var rows := Answer(c, None, db);
      var r := SearchData(c, db);
      var p := c.page.value;
      && r.content == PageAt(rows, p, c.size)
      && r.totalElements == |rows| && r.nextAfter == None
      && (r.content != [] <==> p <= r.totalPages.value)
      && (r.last.value <==> |rows| <= p * c.size)
      && FirstPages(rows, r.totalPages.value, c.size) == rows
  {
    var c := Validated(request).value;
    OffsetResponse(c, db);
    PagesOfSequence(Answer(c, None, db), c.page.value, c.size);
    hide Answer, SearchData, TotalPages, FirstPages, PageAt, Slice;
  }
}
