/** The cursor walk row by row: when following the cursor yields the whole answer,
    although the odd tag join repeats rows. */
module CursorRows {
  import opened Domain
  import opened Tables
  import opened Pipeline
  import opened Search
  import opened SearchPaging
  import opened Paging

  /* ---- the answer behind a later cursor ---- */

  /** The rows with an id above `last`. */
  function Beyond(rows: seq<Row>, last: int): seq<Row> {
    if rows == [] then []
    else
      var n := |rows| - 1;
      Beyond(rows[..n], last) + (if rows[n].videoId > last then [rows[n]] else [])
  }

  lemma {:induction false} BeyondConcat(a: seq<Row>, b: seq<Row>, last: int)
    ensures Beyond(a + b, last) == Beyond(a, last) + Beyond(b, last)
    decreases |b|
  {
    if b == [] {
      assert a + b == a;
    } else {
      var n := |b| - 1;
      BeyondConcat(a, b[..n], last);
      var c := a + b;
      assert c[..|c| - 1] == a + b[..n] && c[|c| - 1] == b[n];
    }
  }

  lemma {:induction false} BeyondCopies(s: Row, k: nat, last: int)
    ensures Beyond(Copies(s, k), last) == if s.videoId > last then Copies(s, k) else []
  {
    if k > 0 {
      BeyondCopies(s, k - 1, last);
      assert Copies(s, k)[..k - 1] == Copies(s, k - 1);
    }
  }

  lemma {:induction false} MatchedBeyond(
      c: SearchCriteria, after: int, last: int, selections: seq<Row>, db: Database)
    requires after <= last
    ensures Matched(c, Some(last), selections, db) == Beyond(Matched(c, Some(after), selections, db), last)
    decreases |selections|
  {
    hide Multiplicity, Copies, Beyond;
    if selections == [] {
      NothingBeyond(last);
    } else {
      var n := |selections| - 1;
      var s := selections[n];
      MatchedBeyond(c, after, last, selections[..n], db);
      BeyondConcat(Matched(c, Some(after), selections[..n], db),
                   if s.videoId > after then Copies(s, Multiplicity(c, s, db)) else [], last);
      BeyondCopies(s, Multiplicity(c, s, db), last);
      NothingBeyond(last);
    }
  }

  lemma NothingBeyond(last: int)
    ensures Beyond([], last) == []
  {
  }

  lemma {:induction false} BeyondContent(rows: seq<Row>, last: int)
    ensures forall r :: r in Beyond(rows, last) ==> r in rows && r.videoId > last
    decreases |rows|
  {
    if rows == [] {
    } else {
      BeyondContent(rows[..|rows| - 1], last);
    }
  }

  lemma BeyondLast(rows: seq<Row>, r: Row, last: int)
    ensures Beyond(rows + [r], last) == Beyond(rows, last) + if r.videoId > last then [r] else []
  {
    assert (rows + [r])[..|rows|] == rows;
  }

  lemma InsertBeforeLast(sorted: seq<Row>, x: Row, r: Row)
    requires r.videoId < x.videoId
    ensures InsertById(sorted + [x], r) == InsertById(sorted, r) + [x]
  {
    assert (sorted + [x])[..|sorted|] == sorted;
  }

  lemma InsertBeyondBefore(sorted: seq<Row>, x: Row, r: Row, last: int)
    requires r.videoId < x.videoId
    requires Beyond(InsertById(sorted, r), last) ==
      if r.videoId > last then InsertById(Beyond(sorted, last), r) else Beyond(sorted, last)
    ensures Beyond(InsertById(sorted + [x], r), last) ==
      if r.videoId > last then InsertById(Beyond(sorted + [x], last), r) else Beyond(sorted + [x], last)
  {
    hide *;
    BeyondLast(sorted, x, last);
    InsertBeforeLast(sorted, x, r);
    BeyondLast(InsertById(sorted, r), x, last);
    InsertBeforeLast(Beyond(sorted, last), x, r);
  }

  lemma {:induction false} InsertBeyond(sorted: seq<Row>, r: Row, last: int)
    requires SortedById(sorted)
    ensures Beyond(InsertById(sorted, r), last) ==
      if r.videoId > last then InsertById(Beyond(sorted, last), r) else Beyond(sorted, last)
    decreases |sorted|
  {
    var n := |sorted| - 1;
    if sorted == [] || sorted[n].videoId <= r.videoId {
      InsertBeyondLast(sorted, r, last);
    } else {
      SortedBefore(sorted);
      hide *;
      assert sorted == sorted[..n] + [sorted[n]];
      InsertBeyond(sorted[..n], r, last);
      InsertBeyondBefore(sorted[..n], sorted[n], r, last);
    }
  }

  lemma SortedBefore(sorted: seq<Row>)
    requires SortedById(sorted) && sorted != []
    ensures SortedById(sorted[..|sorted| - 1])
  {
  }

  lemma InsertBeyondLast(sorted: seq<Row>, r: Row, last: int)
    requires SortedById(sorted) && (sorted == [] || sorted[|sorted| - 1].videoId <= r.videoId)
    ensures Beyond(InsertById(sorted, r), last) ==
      if r.videoId > last then InsertById(Beyond(sorted, last), r) else Beyond(sorted, last)
  {
    assert InsertById(sorted, r) == sorted + [r];
    hide Beyond, InsertById, SortedById;
    BeyondLast(sorted, r, last);
    InsertAtEnd(Beyond(sorted, last), sorted, r, last);
  }

  lemma InsertAtEnd(beyond: seq<Row>, sorted: seq<Row>, r: Row, last: int)
    requires SortedById(sorted) && (sorted == [] || sorted[|sorted| - 1].videoId <= r.videoId)
    requires beyond == Beyond(sorted, last)
    ensures InsertById(beyond, r) == beyond + [r]
  {
    BeyondContent(sorted, last);
    if beyond != [] {
      assert beyond[|beyond| - 1] in sorted;
    }
  }

  lemma {:induction false} SortBeyond(rows: seq<Row>, last: int)
    ensures SortById(Beyond(rows, last)) == Beyond(SortById(rows), last)
    decreases |rows|
  {
    if rows == [] {
    } else {
      var n := |rows| - 1;
      SortBeyond(rows[..n], last);
      SortKeepsRows(rows[..n]);
      InsertBeyond(SortById(rows[..n]), rows[n], last);
      var before := Beyond(rows[..n], last);
      if rows[n].videoId > last {
        assert (before + [rows[n]])[..|before|] == before;
      } else {
        assert Beyond(rows, last) == before;
      }
    }
  }

  lemma AnswerBeyond(c: SearchCriteria, after: int, last: int, db: Database)
    requires after <= last
    ensures Answer(c, Some(last), db) == Beyond(Answer(c, Some(after), db), last)
  {
    MatchedBeyond(c, after, last, db.selections, db);
    SortBeyond(Matched(c, Some(after), db.selections, db), last);
    hide Matched, SortById, Beyond;
  }

  lemma {:induction false} NoneBeyond(rows: seq<Row>, last: int)
    requires forall i :: 0 <= i < |rows| ==> rows[i].videoId <= last
    ensures Beyond(rows, last) == []
    decreases |rows|
  {
    if rows != [] {
      NoneBeyond(rows[..|rows| - 1], last);
    }
  }

  lemma {:induction false} AllBeyond(rows: seq<Row>, last: int)
    requires forall i :: 0 <= i < |rows| ==> rows[i].videoId > last
    ensures Beyond(rows, last) == rows
    decreases |rows|
  {
    if rows != [] {
      var n := |rows| - 1;
      AllBeyond(rows[..n], last);
      assert rows == rows[..n] + [rows[n]];
    }
  }

  lemma {:induction false} PlaceBeyond(rows: seq<Row>, last: int) returns (j: nat)
    requires SortedById(rows)
    ensures j <= |rows| && forall i :: 0 <= i < |rows| ==> (rows[i].videoId > last <==> i >= j)
    decreases |rows|
  {
    if rows == [] || rows[|rows| - 1].videoId <= last {
      j := |rows|;
    } else {
      j := PlaceBeyond(rows[..|rows| - 1], last);
    }
  }

  /** In sorted rows, those beyond an id are the end, from some place on. */
  lemma BeyondIsSuffix(rows: seq<Row>, last: int) returns (j: nat)
    requires SortedById(rows)
    ensures j <= |rows| && Beyond(rows, last) == rows[j..]
    ensures forall i :: 0 <= i < |rows| ==> (rows[i].videoId > last <==> i >= j)
  {
    hide Beyond;
    j := PlaceBeyond(rows, last);
    hide SortedById;
    NoneBeyond(rows[..j], last);
    AllBeyond(rows[j..], last);
    BeyondConcat(rows[..j], rows[j..], last);
    assert rows == rows[..j] + rows[j..];
  }

  /* ---- one page size ---- */

  /** The rows of all pages, one after the other. */
  function Flat(pages: seq<seq<Row>>): seq<Row> {
    if pages == [] then [] else pages[0] + Flat(pages[1..])
  }

  /** Cutting the rows into pages of `size` never separates two rows of one id. */
  ghost predicate NoPageEndsInside(rows: seq<Row>, size: nat)
    requires size >= 1
  {
    forall i :: 0 < i < |rows| && i % size == 0 ==> rows[i - 1].videoId != rows[i].videoId
  }

  lemma OnePageHasNoCut(rows: seq<Row>, size: nat)
    requires size >= 1 && |rows| <= size
    ensures NoPageEndsInside(rows, size)
  {
    forall i | 0 < i < |rows| ensures i % size == i {
    }
  }

  lemma NextPlace(i: nat, size: nat)
    requires size >= 1
    ensures (i + size) % size == i % size && size % size == 0
  {
    var d := 1 + i / size - (i + size) / size;
    assert (i + size) % size - i % size == d * size;
    if d > 0 {
      assert d * size == size + (d - 1) * size;
    }
  }

  lemma CutsBehindFirstPage(rows: seq<Row>, size: nat)
    requires 1 <= size < |rows|
    ensures NoPageEndsInside(rows, size) <==>
      rows[size - 1].videoId != rows[size].videoId && NoPageEndsInside(rows[size..], size)
  {
    var rest := rows[size..];
    NextPlace(0, size);
    if NoPageEndsInside(rows, size) {
      forall i | 0 < i < |rest| && i % size == 0 ensures rest[i - 1].videoId != rest[i].videoId {
        NextPlace(i, size);
        assert rest[i - 1] == rows[i + size - 1] && rest[i] == rows[i + size];
      }
    }
    if rows[size - 1].videoId != rows[size].videoId && NoPageEndsInside(rest, size) {
      forall i | 0 < i < |rows| && i % size == 0 ensures rows[i - 1].videoId != rows[i].videoId {
        if i < size {
          OnePageHasNoCut(rows[..size], size);
        } else if i > size {
          NextPlace(i - size, size);
          assert rest[i - size - 1] == rows[i - 1] && rest[i - size] == rows[i];
        }
      }
    }
  }

  /** What pages of `size` show of the rows: all of them if no page ends inside,
      and otherwise fewer. */
  ghost predicate ShowsExactly(shown: seq<Row>, rows: seq<Row>, size: nat)
    requires size >= 1
  {
    if NoPageEndsInside(rows, size) then shown == rows else |shown| < |rows|
  }

  /** What the cursor leaves after `k` rows: the others, unless the next one
      has the id of the last. */
  lemma BehindPage(rows: seq<Row>, k: nat) returns (j: nat)
    requires SortedById(rows) && 0 < k <= |rows|
    ensures k <= j <= |rows| && Beyond(rows, rows[k - 1].videoId) == rows[j..]
    ensures k < |rows| ==> (j == k <==> rows[k - 1].videoId != rows[k].videoId)
  {
    hide Beyond;
    j := BeyondIsSuffix(rows, rows[k - 1].videoId);
  }

  /** A first page, and what is shown of the rows beyond its last id. */
  lemma PageThenRest(page: seq<Row>, shown: seq<Row>, rows: seq<Row>, size: nat)
    requires size >= 1 && page != [] && SortedById(rows)
    requires page == rows[..if size <= |rows| then size else |rows|]
    requires ShowsExactly(shown, Beyond(rows, page[|page| - 1].videoId), size)
    ensures ShowsExactly(page + shown, rows, size)
  {
    hide NoPageEndsInside, Beyond, SortedById;
    var k := |page|;
    var j := BehindPage(rows, k);
    assert rows == page + rows[k..];
    if k == |rows| {
      OnePageHasNoCut(rows, size);
      assert shown == [];
    } else {
      CutsBehindFirstPage(rows, size);
      if j == size {
        assert page + shown == rows <==> shown == rows[k..];
      }
    }
  }

  /** The first page is the beginning of the answer, and ends behind the cursor. */
  lemma FirstPageOf(c: SearchCriteria, db: Database, after: int)
    requires c.size >= 1 && UniqueKeys(db.selections)
    ensures ValidPaging(WithCursor(c, after)) && SortedById(Answer(c, Some(after), db))
    ensures var rows := Answer(c, Some(after), db);
      var page := SearchPage(WithCursor(c, after), db);
      && page == rows[..if c.size <= |rows| then c.size else |rows|]
      && (page == [] <==> rows == [])
      && (page != [] ==> page[|page| - 1].videoId > after)
  {
    hide SearchPage, IdsBehind, WithCursor, Answer, Slice, SortedById;
    PageSplitsIds(c, db, after);
    CursorPage(c, db, after);
    IdsOfAnswer(c, db, after);
    EmptyPage(Answer(c, Some(after), db), c.size);
  }

  lemma NothingShown(c: SearchCriteria, db: Database, after: int)
    requires c.size >= 1 && UniqueKeys(db.selections) && ValidPaging(WithCursor(c, after))
    requires SearchPage(WithCursor(c, after), db) == [] && Answer(c, Some(after), db) == []
    ensures ShowsExactly(Flat(Walk(c, db, after)), Answer(c, Some(after), db), c.size)
  {
    hide SearchPage, Answer;
    FewerIdsBehind(c, db, after);
    assert Walk(c, db, after) == [];
  }

  lemma PageShown(c: SearchCriteria, db: Database, after: int)
    requires c.size >= 1 && UniqueKeys(db.selections) && ValidPaging(WithCursor(c, after))
    requires SearchPage(WithCursor(c, after), db) != []
    ensures var page := SearchPage(WithCursor(c, after), db);
      Flat(Walk(c, db, after)) == page + Flat(Walk(c, db, page[|page| - 1].videoId))
  {
    hide SearchPage;
    FewerIdsBehind(c, db, after);
    var page := SearchPage(WithCursor(c, after), db);
    var rest := Walk(c, db, page[|page| - 1].videoId);
    assert ([page] + rest)[1..] == rest;
  }

  lemma ShowsOneMore(c: SearchCriteria, db: Database, after: int, page: seq<Row>)
    requires c.size >= 1 && UniqueKeys(db.selections) && ValidPaging(WithCursor(c, after))
    requires page == SearchPage(WithCursor(c, after), db) && page != []
    requires ShowsExactly(Flat(Walk(c, db, page[|page| - 1].videoId)),
                          Answer(c, Some(page[|page| - 1].videoId), db), c.size)
    ensures ShowsExactly(Flat(Walk(c, db, after)), Answer(c, Some(after), db), c.size)
  {
    hide *;
    FirstPageOf(c, db, after);
    var last := page[|page| - 1].videoId;
    AnswerBeyond(c, after, last, db);
    PageThenRest(page, Flat(Walk(c, db, last)), Answer(c, Some(after), db), c.size);
    PageShown(c, db, after);
  }

  lemma {:induction false} WalkShowsExactly(c: SearchCriteria, db: Database, after: int)
    requires c.size >= 1 && UniqueKeys(db.selections)
    ensures ShowsExactly(Flat(Walk(c, db, after)), Answer(c, Some(after), db), c.size)
    decreases |IdsBehind(c, db, after)|
  {
    hide Flat, Walk, SearchPage, Answer, ShowsExactly, SortedById, WithCursor, IdsBehind, IdsIn;
    FirstPageOf(c, db, after);
    FewerIdsBehind(c, db, after);
    var page := SearchPage(WithCursor(c, after), db);
    if page == [] {
      NothingShown(c, db, after);
    } else {
      WalkShowsExactly(c, db, page[|page| - 1].videoId);
      ShowsOneMore(c, db, after, page);
    }
  }

  /** Following the cursor shows the whole answer, row by row, exactly when no
      page ends between two rows of one selection; else some rows are lost. */
  lemma WalkGivesTheAnswerExactly(c: SearchCriteria, db: Database, after: int)
    requires c.size >= 1 && UniqueKeys(db.selections)
    ensures Flat(Walk(c, db, after)) == Answer(c, Some(after), db) <==>
      NoPageEndsInside(Answer(c, Some(after), db), c.size)
    ensures !NoPageEndsInside(Answer(c, Some(after), db), c.size) ==>
      |Flat(Walk(c, db, after))| < |Answer(c, Some(after), db)|
  {
    hide Flat, Walk, Answer, NoPageEndsInside;
    WalkShowsExactly(c, db, after);
  }

  /* ---- every page size ---- */

  lemma {:induction false} DistinctIdsCountOnce(rows: seq<Row>, s: Row)
    requires SortedById(rows) && NoPageEndsInside(rows, 1)
    ensures multiset(rows)[s] <= 1
    decreases |rows|
  {
    if rows != [] {
      var n := |rows| - 1;
      DistinctIdsCountOnce(rows[..n], s);
      assert rows == rows[..n] + [rows[n]];
      if s in rows[..n] && n > 0 {
        assert n % 1 == 0 && rows[n - 1].videoId < rows[n].videoId;
      }
    }
  }

  lemma TwoPlacesCountTwice(rows: seq<Row>, i: nat, j: nat)
    requires i < j < |rows| && rows[i] == rows[j]
    ensures multiset(rows)[rows[i]] > 1
  {
    assert rows == rows[..j] + rows[j..];
    assert rows[..j][i] in multiset(rows[..j]) && rows[j..][0] in multiset(rows[j..]);
  }

  lemma NoCutWithoutRepeats(c: SearchCriteria, db: Database, after: int, size: nat)
    requires size >= 1 && UniqueKeys(db.selections) && forall s :: s in db.selections ==> s.Selection?
    requires forall s :: s in db.selections && s.videoId > after ==> Multiplicity(c, s, db) <= 1
    ensures NoPageEndsInside(Answer(c, Some(after), db), size)
  {
    hide Answer, Multiplicity, SortedById;
    var rows := Answer(c, Some(after), db);
    forall i | 0 < i < |rows| ensures rows[i - 1].videoId != rows[i].videoId {
      AnswerIsExact(c, Some(after), db, rows[i - 1]);
      AnswerIsExact(c, Some(after), db, rows[i]);
      if rows[i - 1].videoId == rows[i].videoId {
        assert KeyOf(rows[i - 1]) == KeyOf(rows[i]);
        TwoPlacesCountTwice(rows, i - 1, i);
      }
    }
  }

  /** The answer does not depend on the page size. */
  lemma WalkOfSize(c: SearchCriteria, db: Database, after: int, size: nat)
    requires size >= 1 && UniqueKeys(db.selections)
    ensures Flat(Walk(c.(size := size), db, after)) == Answer(c, Some(after), db) <==>
      NoPageEndsInside(Answer(c, Some(after), db), size)
  {
    hide Walk, Matched, NoPageEndsInside, Flat;
    WalkGivesTheAnswerExactly(c.(size := size), db, after);
    SameMatches(c, c.(size := size), Some(after), db.selections, db);
  }

  /** Some selection twice in the answer: pages of one row cut it. */
  lemma RepeatsAreCut(c: SearchCriteria, db: Database, after: int, s: Row)
    requires UniqueKeys(db.selections)
    requires s in db.selections && s.videoId > after && Multiplicity(c, s, db) > 1
    ensures !NoPageEndsInside(Answer(c, Some(after), db), 1)
  {
    hide Answer, Multiplicity, NoPageEndsInside, SortedById;
    AnswerIsExact(c, Some(after), db, s);
    if NoPageEndsInside(Answer(c, Some(after), db), 1) {
      DistinctIdsCountOnce(Answer(c, Some(after), db), s);
    }
  }

  lemma AtMostOnceWithoutOdds(c: SearchCriteria, db: Database, s: Row)
    requires !OddActive(c)
    ensures Multiplicity(c, s, db) <= 1
  {
  }

  /** Following the cursor shows the whole answer for every page size exactly
      when no selection behind the cursor is in it twice; so always without an
      odd condition. */
  lemma EveryWalkGivesTheAnswerExactly(c: SearchCriteria, db: Database, after: int)
    requires UniqueKeys(db.selections) && forall s :: s in db.selections ==> s.Selection?
    ensures (forall size: nat :: size >= 1 ==>
                Flat(Walk(c.(size := size), db, after)) == Answer(c, Some(after), db)) <==>
            (forall s :: s in db.selections && s.videoId > after ==> Multiplicity(c, s, db) <= 1)
    ensures !OddActive(c) && c.size >= 1 ==> Flat(Walk(c, db, after)) == Answer(c, Some(after), db)
  {
    hide *;
    var rows := Answer(c, Some(after), db);
    forall size: nat | size >= 1
      ensures Flat(Walk(c.(size := size), db, after)) == rows <==> NoPageEndsInside(rows, size)
    {
      WalkOfSize(c, db, after, size);
    }
    if !OddActive(c) {
      forall s ensures Multiplicity(c, s, db) <= 1 {
        AtMostOnceWithoutOdds(c, db, s);
      }
    }
    assert c == c.(size := c.size);
    if forall s :: s in db.selections && s.videoId > after ==> Multiplicity(c, s, db) <= 1 {
      forall size: nat | size >= 1 ensures NoPageEndsInside(rows, size) {
        NoCutWithoutRepeats(c, db, after, size);
      }
    } else {
      var s :| s in db.selections && s.videoId > after && Multiplicity(c, s, db) > 1;
      RepeatsAreCut(c, db, after, s);
      assert Flat(Walk(c.(size := 1), db, after)) != rows;
    }
  }
}
