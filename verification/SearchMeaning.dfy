/** What a search returns, on the stored columns: one label for all label
    conditions, one odd tag for all odd conditions, and which tables have no say. */
module SearchMeaning {
  import opened Domain
  import opened Tables
  import opened Pipeline
  import opened Search
  import opened SearchPaging

  /** The selection is wanted: it meets its own conditions, some one odd tag of its
      video meets all odd conditions if there are any, and some one label all label
      conditions, if there are others than minimums of zero. */
  ghost predicate IsWanted(c: SearchCriteria, s: Row, db: Database) {
    && SelectionMeets(c, s)
    && (c.weather.Some? || c.timeOfDay.Some? || c.roadSurface.Some? ==>
          exists o :: o in db.oddTags && OddMeets(c, s.videoId, o))
    && (c.objectClass.Some? || c.minObjCount !in {None, Some(0)} || c.minConfidence !in {None, Some(0.0)} ==>
          exists l :: l in db.labels && LabelMeets(c, s.videoId, l))
  }

  /** The places of the odd tags that meet all odd conditions. */
  function MeetingTags(c: SearchCriteria, s: Row, odds: seq<Row>): set<int> {
    set i | 0 <= i < |odds| && OddMeets(c, s.videoId, odds[i])
  }

  lemma {:induction false} MeetingTagsCount(c: SearchCriteria, s: Row, odds: seq<Row>)
    ensures MeetingOdds(c, s.videoId, odds) == |MeetingTags(c, s, odds)|
    ensures MeetingOdds(c, s.videoId, odds) > 0 <==> exists o :: o in odds && OddMeets(c, s.videoId, o)
    decreases |odds|
  {
    hide OddMeets;
    if odds == [] {
      assert MeetingTags(c, s, odds) == {};
    } else {
      var n := |odds| - 1;
      MeetingTagsCount(c, s, odds[..n]);
      assert odds == odds[..n] + [odds[n]];
      var earlier := MeetingTags(c, s, odds[..n]);
      if OddMeets(c, s.videoId, odds[n]) {
        assert MeetingTags(c, s, odds) == earlier + {n} && n !in earlier && odds[n] in odds;
      } else {
        assert MeetingTags(c, s, odds) == earlier;
      }
    }
  }

  /** A wanted selection is in the answer once for each odd tag that meets the odd
      conditions, or once without any, and others are not in it. */
  lemma MultiplicityMeans(c: SearchCriteria, s: Row, db: Database)
    ensures Multiplicity(c, s, db) > 0 <==> IsWanted(c, s, db)
    ensures Multiplicity(c, s, db) ==
      if !IsWanted(c, s, db) then 0
      else if c.weather.Some? || c.timeOfDay.Some? || c.roadSurface.Some? then |MeetingTags(c, s, db.oddTags)|
      else 1
  {
    hide SelectionMeets, OddMeets, LabelMeets, MeetingOdds;
    MeetingTagsCount(c, s, db.oddTags);
  }

  /* ---- the rows returned ---- */

  lemma CopiesOf(s: Row, k: nat, r: Row)
    ensures r in Copies(s, k) <==> r == s && k > 0
  {
    if k > 0 {
      assert Copies(s, k)[0] == s;
    }
  }

  lemma {:induction false} MatchedRows(
      c: SearchCriteria, after: Option<int>, selections: seq<Row>, db: Database, s: Row)
    ensures s in Matched(c, after, selections, db) <==>
      s in selections && IsAfter(after, s) && Multiplicity(c, s, db) > 0
    decreases |selections|
  {
    hide Multiplicity, Copies;
    if selections == [] {
    } else {
      var n := |selections| - 1;
      MatchedRows(c, after, selections[..n], db, s);
      CopiesOf(selections[n], Multiplicity(c, selections[n], db), s);
      assert selections == selections[..n] + [selections[n]];
    }
  }

  /** The unpaged answer: the wanted selections behind the cursor. */
  lemma AnswerIsWanted(c: SearchCriteria, after: Option<int>, db: Database, s: Row)
    ensures s in Answer(c, after, db) <==>
      s in db.selections && (after.Some? ==> s.videoId > after.value) && IsWanted(c, s, db)
  {
    var rows := Matched(c, after, db.selections, db);
    MatchedRows(c, after, db.selections, db, s);
    MultiplicityMeans(c, s, db);
    SortKeepsRows(rows);
    hide Multiplicity, IsWanted, Matched;
    assert s in SortById(rows) <==> s in multiset(SortById(rows));
    assert s in rows <==> s in multiset(rows);
  }

  lemma SliceRows(rows: seq<Row>, offset: nat, size: nat, s: Row)
    ensures s in Slice(rows, offset, Some(size)) ==> s in rows
    ensures offset == 0 && |Slice(rows, 0, Some(size))| < size ==> Slice(rows, 0, Some(size)) == rows
  {
  }

  /** The selection is stored, wanted and behind the cursor. */
  ghost predicate IsSought(c: SearchCriteria, s: Row, db: Database) {
    s in db.selections && (c.after.Some? ==> s.videoId > c.after.value) && IsWanted(c, s, db)
  }

  lemma PageOfAnswer(c: SearchCriteria, db: Database) returns (offset: nat)
    requires ValidPaging(c)
    ensures Evaluate(BuildQuery(c), db) == Slice(Answer(c, c.after, db), offset, Some(c.size))
    ensures c.page.None? || c.page == Some(1) ==> offset == 0
  {
    hide Evaluate, BuildQuery, BuildCountQuery, EvaluateCount, Answer, Slice;
    QueriesGiveTheAnswer(c, db);
    offset := if c.after.None? && c.page.Some? then (c.page.value - 1) * c.size else 0;
  }

  /** The page of a search shows only sought selections; and all of them, if it is a
      first page that is not full. */
  lemma ReturnedRowsAreWanted(c: SearchCriteria, db: Database, s: Row)
    requires ValidPaging(c)
    ensures s in Evaluate(BuildQuery(c), db) ==> IsSought(c, s, db)
    ensures (c.page.None? || c.page == Some(1)) && |Evaluate(BuildQuery(c), db)| < c.size && IsSought(c, s, db) ==>
              s in Evaluate(BuildQuery(c), db)
  {
    hide Evaluate, BuildQuery, Answer, IsWanted, Slice;
    AnswerIsWanted(c, c.after, db, s);
    var offset := PageOfAnswer(c, db);
    SliceRows(Answer(c, c.after, db), offset, c.size, s);
  }

  /* ---- the tables without a say ---- */

  lemma {:induction false} SameMultiplicities(
      c: SearchCriteria, after: Option<int>, selections: seq<Row>, a: Database, b: Database)
    requires forall s :: Multiplicity(c, s, a) == Multiplicity(c, s, b)
    ensures Matched(c, after, selections, a) == Matched(c, after, selections, b)
    decreases |selections|
  {
    hide Multiplicity;
    if selections != [] {
      SameMultiplicities(c, after, selections[..|selections| - 1], a, b);
    }
  }

  lemma SameSearch(c: SearchCriteria, a: Database, b: Database)
    requires ValidPaging(c) && a.selections == b.selections
    requires forall s :: Multiplicity(c, s, a) == Multiplicity(c, s, b)
    ensures Evaluate(BuildQuery(c), a) == Evaluate(BuildQuery(c), b)
    ensures EvaluateCount(BuildCountQuery(c), a) == EvaluateCount(BuildCountQuery(c), b)
  {
    QueriesGiveTheAnswer(c, a);
    QueriesGiveTheAnswer(c, b);
    hide Evaluate, BuildQuery, BuildCountQuery, EvaluateCount, Matched, Multiplicity, SortById, Slice;
    SameMultiplicities(c, None, a.selections, a, b);
    SameMultiplicities(c, c.after, a.selections, a, b);
  }

  /** Without a label condition, or with minimums of zero alone, the labels have no
      say in a search. */
  lemma LabelsHaveNoSay(c: SearchCriteria, db: Database, labels: seq<Row>)
    requires ValidPaging(c)
    requires c.objectClass == None && c.minObjCount in {None, Some(0)} && c.minConfidence in {None, Some(0.0)}
    ensures Evaluate(BuildQuery(c), db.(labels := labels)) == Evaluate(BuildQuery(c), db)
    ensures EvaluateCount(BuildCountQuery(c), db.(labels := labels)) == EvaluateCount(BuildCountQuery(c), db)
  {
    var other := db.(labels := labels);
    forall s ensures Multiplicity(c, s, other) == Multiplicity(c, s, db) {
      MultiplicityMeans(c, s, db);
      MultiplicityMeans(c, s, other);
      hide Multiplicity, MeetingTags, SelectionMeets, OddMeets, LabelMeets;
    }
    hide Multiplicity, Evaluate, BuildQuery, EvaluateCount, BuildCountQuery;
    SameSearch(c, other, db);
  }

  /** Without an odd condition, the odd tags have none. */
  lemma TagsHaveNoSay(c: SearchCriteria, db: Database, odds: seq<Row>)
    requires ValidPaging(c)
    requires c.weather == None && c.timeOfDay == None && c.roadSurface == None
    ensures Evaluate(BuildQuery(c), db.(oddTags := odds)) == Evaluate(BuildQuery(c), db)
    ensures EvaluateCount(BuildCountQuery(c), db.(oddTags := odds)) == EvaluateCount(BuildCountQuery(c), db)
  {
    var other := db.(oddTags := odds);
    forall s ensures Multiplicity(c, s, other) == Multiplicity(c, s, db) {
      MultiplicityMeans(c, s, db);
      MultiplicityMeans(c, s, other);
      hide Multiplicity, MeetingTags, SelectionMeets, OddMeets, LabelMeets;
    }
    hide Multiplicity, Evaluate, BuildQuery, EvaluateCount, BuildCountQuery;
    SameSearch(c, other, db);
  }
}
