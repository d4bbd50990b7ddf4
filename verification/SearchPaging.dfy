/** The rows a search returns, its count, and the two ways to page through them. */
module SearchPaging {
  import opened Domain
  import opened Tables
  import opened Pipeline
  import opened Search

  /* ---- the whole answer ---- */

  predicate IsAfter(after: Option<int>, s: Row) {
    after.Some? ==> s.videoId > after.value
  }

  /** The selections behind the cursor, each as often as the criteria say, in
      table order. */
  function Matched(c: SearchCriteria, after: Option<int>, selections: seq<Row>, db: Database): seq<Row> {
    if selections == [] then []
    else
      var n := |selections| - 1;
      Matched(c, after, selections[..n], db) +
      (if IsAfter(after, selections[n]) then Copies(selections[n], Multiplicity(c, selections[n], db)) else [])
  }

  /** The unpaged answer, by id. */
  function Answer(c: SearchCriteria, after: Option<int>, db: Database): seq<Row> {
    SortById(Matched(c, after, db.selections, db))
  }

  function AfterCondition(after: Option<int>, q: Select): Select {
    if after.Some? then q.Where(Compare(SelId, Gt, IntCell(after.value))) else q
  }

  lemma {:induction false} OddMatchesAfter(q: Select, after: int, s: Row, odds: seq<Row>, labels: seq<Row>)
    requires q.join.Some?
    ensures OddMatches(AfterCondition(Some(after), q), s, odds, labels) ==
      if s.videoId > after then OddMatches(q, s, odds, labels) else 0
    decreases |odds|
  {
    hide AllHold;
    if odds == [] {
    } else {
      var n := |odds| - 1;
      OddMatchesAfter(q, after, s, odds[..n], labels);
      WhereHolds(q.conds, Compare(SelId, Gt, IntCell(after)), Env(s, Some(odds[n]), None), labels);
    }
  }

  lemma ContributionAfter(q: Select, after: Option<int>, s: Row, db: Database)
    ensures Contribution(AfterCondition(after, q), s, db) == if IsAfter(after, s) then Contribution(q, s, db) else 0
  {
    hide AllHold;
    if after.Some? {
      if q.join.Some? {
        OddMatchesAfter(q, after.value, s, db.oddTags, db.labels);
      } else {
        WhereHolds(q.conds, Compare(SelId, Gt, IntCell(after.value)), Env(s, None, None), db.labels);
      }
    }
  }

  lemma {:induction false} FilteredIsMatched(c: SearchCriteria, after: Option<int>, selections: seq<Row>, db: Database)
    ensures Filtered(AfterCondition(after, ApplyConditions(c, Plain())), selections, db) ==
      Matched(c, after, selections, db)
    decreases |selections|
  {
    hide AfterCondition, ApplyConditions, Contribution, Multiplicity;
    if selections == [] {
    } else {
      var n := |selections| - 1;
      FilteredIsMatched(c, after, selections[..n], db);
      ContributionAfter(ApplyConditions(c, Plain()), after, selections[n], db);
      CompiledQueryMeansTheCriteria(c, selections[n], db);
    }
  }

  /** The built queries: a page is a slice of the sorted answer, and the count
      query gives the length of the whole one. */
  lemma QueriesGiveTheAnswer(c: SearchCriteria, db: Database)
    requires ValidPaging(c)
    ensures EvaluateCount(BuildCountQuery(c), db) == |Answer(c, None, db)|
    ensures c.after.Some? ==> Evaluate(BuildQuery(c), db) == Slice(Answer(c, c.after, db), 0, Some(c.size))
    ensures c.after.None? && c.page.Some? ==>
      Evaluate(BuildQuery(c), db) == Slice(Answer(c, None, db), (c.page.value - 1) * c.size, Some(c.size))
    ensures c.after.None? && c.page.None? ==> Evaluate(BuildQuery(c), db) == Slice(Answer(c, None, db), 0, Some(c.size))
  {
    var q := ApplyConditions(c, Plain());
    FilteredIsMatched(c, None, db.selections, db);
    FilteredIsMatched(c, c.after, db.selections, db);
    BuiltQuery(c);
    hide ApplyConditions, Matched, Filtered, SortById, BuildQuery;
    SameRows(AfterCondition(c.after, q), BuildQuery(c), db.selections, db);
    SortKeepsRows(Matched(c, None, db.selections, db));
  }

  lemma BuiltQuery(c: SearchCriteria)
    requires ValidPaging(c)
    ensures var q := AfterCondition(c.after, ApplyConditions(c, Plain()));
      var offset := if c.after.None? && c.page.Some? then (c.page.value - 1) * c.size else 0;
      BuildQuery(c) == Select(q.join, q.conds, true, offset, Some(c.size))
  {
    ConditionsKeepOffset(c);
    hide ApplyConditions;
  }

  lemma ConditionsKeepOffset(c: SearchCriteria)
    ensures ApplyConditions(c, Plain()).offset == 0
  {
    var q1 := ApplySelectionConditions(c, Plain());
    assert q1.offset == 0;
    hide ApplySelectionConditions;
    assert ApplyOddConditions(c, q1).offset == 0;
  }

  lemma {:induction false} SameOddMatches(a: Select, b: Select, s: Row, odds: seq<Row>, labels: seq<Row>)
    requires a.join.Some? && a.join == b.join && a.conds == b.conds
    ensures OddMatches(a, s, odds, labels) == OddMatches(b, s, odds, labels)
    decreases |odds|
  {
    if odds != [] {
      SameOddMatches(a, b, s, odds[..|odds| - 1], labels);
    }
  }

  /** Order, offset and limit have no say in FROM and WHERE. */
  lemma {:induction false} SameRows(a: Select, b: Select, selections: seq<Row>, db: Database)
    requires a.join == b.join && a.conds == b.conds
    ensures Filtered(a, selections, db) == Filtered(b, selections, db)
    decreases |selections|
  {
    if selections != [] {
      var n := |selections| - 1;
      SameRows(a, b, selections[..n], db);
      if a.join.Some? {
        SameOddMatches(a, b, selections[n], db.oddTags, db.labels);
      }
    }
  }

  /* ---- sorting ---- */

  ghost predicate SortedById(rows: seq<Row>) {
    forall i, j :: 0 <= i <= j < |rows| ==> rows[i].videoId <= rows[j].videoId
  }

  lemma {:induction false} InsertKeepsRows(sorted: seq<Row>, r: Row)
    ensures multiset(InsertById(sorted, r)) == multiset(sorted) + multiset{r}
    decreases |sorted|
  {
    if sorted == [] {
    } else {
      var n := |sorted| - 1;
      assert sorted == sorted[..n] + [sorted[n]];
      if sorted[n].videoId > r.videoId {
        InsertKeepsRows(sorted[..n], r);
      }
    }
  }

  lemma {:induction false} InsertSorts(sorted: seq<Row>, r: Row)
    requires SortedById(sorted)
    ensures SortedById(InsertById(sorted, r))
    decreases |sorted|
  {
    if sorted == [] {
    } else {
      var n := |sorted| - 1;
      if sorted[n].videoId > r.videoId {
        InsertSorts(sorted[..n], r);
        InsertKeepsRows(sorted[..n], r);
        var before := InsertById(sorted[..n], r);
        forall i | 0 <= i < |before| ensures before[i].videoId <= sorted[n].videoId {
          assert before[i] in multiset(before);
        }
        SortedWithLast(before, sorted[n]);
      } else {
        SortedWithLast(sorted, r);
      }
    }
  }

  lemma SortedWithLast(rows: seq<Row>, last: Row)
    requires SortedById(rows) && forall i :: 0 <= i < |rows| ==> rows[i].videoId <= last.videoId
    ensures SortedById(rows + [last])
  {
  }

  lemma {:induction false} SortKeepsRows(rows: seq<Row>)
    ensures SortedById(SortById(rows)) && multiset(SortById(rows)) == multiset(rows) && |SortById(rows)| == |rows|
    decreases |rows|
  {
    if rows == [] {
    } else {
      var n := |rows| - 1;
      SortKeepsRows(rows[..n]);
      InsertSorts(SortById(rows[..n]), rows[n]);
      InsertKeepsRows(SortById(rows[..n]), rows[n]);
      assert rows == rows[..n] + [rows[n]];
      assert |multiset(SortById(rows))| == |multiset(rows)|;
    }
  }

  /* ---- content of the answer ---- */

  lemma {:induction false} CopiesCount(s: Row, k: nat)
    ensures multiset(Copies(s, k)) == multiset{}[s := k]
  {
    if k > 0 {
      CopiesCount(s, k - 1);
      assert Copies(s, k) == Copies(s, k - 1) + [s];
    } else {
      assert Copies(s, k) == [];
    }
  }

  lemma {:induction false} MatchedContent(
      c: SearchCriteria, after: Option<int>, selections: seq<Row>, db: Database, s: Row)
    requires UniqueKeys(selections)
    ensures multiset(Matched(c, after, selections, db))[s] ==
      if s in selections && IsAfter(after, s) then Multiplicity(c, s, db) else 0
    decreases |selections|
  {
    hide Multiplicity;
    if selections == [] {
    } else {
      var n := |selections| - 1;
      MatchedContent(c, after, selections[..n], db, s);
      CopiesCount(selections[n], Multiplicity(c, selections[n], db));
      assert selections == selections[..n] + [selections[n]];
      if s == selections[n] {
        assert s !in selections[..n];
      }
    }
  }

  /** The answer contains exactly the matching selections, each exactly as often
      as the criteria say, in ascending order of id. */
  lemma AnswerIsExact(c: SearchCriteria, after: Option<int>, db: Database, s: Row)
    requires UniqueKeys(db.selections)
    ensures SortedById(Answer(c, after, db))
    ensures multiset(Answer(c, after, db))[s] ==
      if s in db.selections && IsAfter(after, s) then Multiplicity(c, s, db) else 0
    ensures s in Answer(c, after, db) <==> s in db.selections && IsAfter(after, s) && Multiplicity(c, s, db) > 0
  {
    hide Multiplicity, Matched;
    SortKeepsRows(Matched(c, after, db.selections, db));
    MatchedContent(c, after, db.selections, db, s);
    assert s in Answer(c, after, db) <==> s in multiset(Answer(c, after, db));
  }
}
