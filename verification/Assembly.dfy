/** Putting a result page together: the batched lookups of odd tags and labels
    agree with looking them up video by video. */
module Assembly {
  import opened Domain
  import opened Tables
  import opened Pipeline
  import opened Search
  import opened SearchPaging
  import opened Paging
  import Worker

  datatype SearchResult = SearchResult(selection: Row, oddTag: Option<Row>, labels: seq<Row>)

  /** SELECT ... WHERE video_id IN (ids), in table order. */
  function WithVideoIn(table: seq<Row>, ids: set<int>): seq<Row> {
    if table == [] then []
    else
      var n := |table| - 1;
      WithVideoIn(table[..n], ids) + (if table[n].videoId in ids then [table[n]] else [])
  }

  /** SELECT ... WHERE video_id = id, in table order; the labels'
      `find_all_by_video_id`. */
  function WithVideo(table: seq<Row>, id: int): seq<Row> {
    WithVideoIn(table, {id})
  }

  /** `scalar_one_or_none`: several rows are an error. */
  datatype Lookup = OneOrNone(row: Option<Row>) | MultipleResults

  function FindByVideoId(odds: seq<Row>, id: int): Lookup {
    var rows := WithVideo(odds, id);
    if |rows| >= 2 then MultipleResults else OneOrNone(if rows == [] then None else Some(rows[0]))
  }

  ghost predicate AtMostOneTagPerVideo(odds: seq<Row>) {
    forall i, j :: 0 <= i < j < |odds| ==> odds[i].videoId != odds[j].videoId
  }

  /** What a search result shows for a selection. */
  ghost predicate Shows(db: Database, s: Row, r: SearchResult) {
    && r.selection == s
    && r.labels == WithVideo(db.labels, s.videoId)
    && r.oddTag == LastOf(WithVideo(db.oddTags, s.videoId))
  }

  ghost predicate PageShown(db: Database, page: seq<Row>, results: seq<SearchResult>) {
    |results| == |page| && forall i :: 0 <= i < |page| ==> Shows(db, page[i], results[i])
  }

  function LastOf(rows: seq<Row>): Option<Row> {
    if rows == [] then None else Some(rows[|rows| - 1])
  }

  class SqlDataSearchRepository {
    const session: Worker.MySqlSession

    constructor (session: Worker.MySqlSession)
      ensures this.session == session
    {
      this.session := session;
    }

    /** A page of results with the number of all results. Each selection of the
        page comes, in order, with all its labels and one odd tag. */
    method Search(c: SearchCriteria) returns (results: seq<SearchResult>, total: nat)
      requires ValidPaging(c)
      ensures total == |Answer(c, None, session.working)|
      ensures PageShown(session.working, SearchPage(c, session.working), results)
    {
      var db := session.working;
      QueriesGiveTheAnswer(c, db);
      hide Answer, Evaluate, BuildQuery, EvaluateCount, BuildCountQuery;
      total := EvaluateCount(BuildCountQuery(c), db);
      var page := SearchPage(c, db);
      hide SearchPage;
      if page == [] {
        return [], total;
      }
      results := Assemble(page);
    }

    /** The part after the page query. */
    method Assemble(page: seq<Row>) returns (results: seq<SearchResult>)
      ensures PageShown(session.working, page, results)
    {
      hide WithVideoIn, WithVideo, LastOf;
      var db := session.working;
      var videoIds := set s | s in page :: s.videoId;
      var oddMap := TagsByVideo(WithVideoIn(db.oddTags, videoIds));
      var labelMap := LabelsByVideo(WithVideoIn(db.labels, videoIds));
      results := [];
      for i := 0 to |page|
        invariant |results| == i && forall k :: 0 <= k < i ==> Shows(db, page[k], results[k])
      {
        var id := page[i].videoId;
        InPage(db, page, i, videoIds);
        var oddTag := if id in oddMap then Some(oddMap[id]) else None;
        var labels := if id in labelMap then labelMap[id] else [];
        results := results + [SearchResult(page[i], oddTag, labels)];
      }
    }

    /** A later tag of the same video takes the place of an earlier one. */
    method TagsByVideo(odds: seq<Row>) returns (oddMap: map<int, Row>)
      ensures forall id :: (if id in oddMap then Some(oddMap[id]) else None) == LastOf(WithVideo(odds, id))
    {
      oddMap := map[];
      for i := 0 to |odds|
        invariant forall id :: (if id in oddMap then Some(oddMap[id]) else None) == LastOf(WithVideo(odds[..i], id))
      {
        OneMoreRowWithVideo(odds, i);
        hide WithVideoIn;
        oddMap := oddMap[odds[i].videoId := odds[i]];
      }
      assert odds[..|odds|] == odds;
    }

    method LabelsByVideo(labels: seq<Row>) returns (labelMap: map<int, seq<Row>>)
      ensures forall id :: (if id in labelMap then labelMap[id] else []) == WithVideo(labels, id)
    {
      labelMap := map[];
      for i := 0 to |labels|
        invariant forall id :: (if id in labelMap then labelMap[id] else []) == WithVideo(labels[..i], id)
      {
        OneMoreRowWithVideo(labels, i);
        hide WithVideoIn;
        var id := labels[i].videoId;
        if id !in labelMap {
          labelMap := labelMap[id := []];
        }
        labelMap := labelMap[id := labelMap[id] + [labels[i]]];
      }
      assert labels[..|labels|] == labels;
    }
  }

  lemma InPage(db: Database, page: seq<Row>, i: nat, videoIds: set<int>)
    requires i < |page| && videoIds == set s | s in page :: s.videoId
    ensures WithVideo(WithVideoIn(db.oddTags, videoIds), page[i].videoId) == WithVideo(db.oddTags, page[i].videoId)
    ensures WithVideo(WithVideoIn(db.labels, videoIds), page[i].videoId) == WithVideo(db.labels, page[i].videoId)
  {
    assert page[i] in page;
    FilterTwice(db.oddTags, videoIds, page[i].videoId);
    FilterTwice(db.labels, videoIds, page[i].videoId);
  }

  lemma WithVideoInLast(rows: seq<Row>, r: Row, ids: set<int>)
    ensures WithVideoIn(rows + [r], ids) == WithVideoIn(rows, ids) + (if r.videoId in ids then [r] else [])
  {
    assert (rows + [r])[..|rows|] == rows;
  }

  lemma OneMoreRowWithVideo(table: seq<Row>, i: nat)
    requires i < |table|
    ensures forall id ::
      WithVideo(table[..i + 1], id) == WithVideo(table[..i], id) + (if id == table[i].videoId then [table[i]] else [])
  {
    assert table[..i + 1] == table[..i] + [table[i]];
    forall id {
      WithVideoInLast(table[..i], table[i], {id});
    }
  }

  lemma {:induction false} FilterTwice(table: seq<Row>, ids: set<int>, id: int)
    requires id in ids
    ensures WithVideo(WithVideoIn(table, ids), id) == WithVideo(table, id)
    decreases |table|
  {
    if table == [] {
    } else {
      var n := |table| - 1;
      FilterTwice(table[..n], ids, id);
      var before := WithVideoIn(table[..n], ids);
      WithVideoInLast(before, table[n], {id});
      assert WithVideoIn(table, ids) == if table[n].videoId in ids then before + [table[n]] else before;
    }
  }

  /* ---- batched against one-by-one ---- */

  lemma {:induction false} OccurrenceIsCounted(table: seq<Row>, i: nat, id: int)
    requires i < |table| && table[i].videoId == id
    ensures |WithVideo(table, id)| >= 1
    ensures (exists j :: i < j < |table| && table[j].videoId == id) ==> |WithVideo(table, id)| >= 2
    decreases |table|
  {
    var n := |table| - 1;
    if i < n {
      OccurrenceIsCounted(table[..n], i, id);
      if j :| i < j < |table| && table[j].videoId == id {
        assert j < n ==> table[..n][j].videoId == id;
      }
    }
  }

  lemma {:induction false} CountedIsOccurrence(table: seq<Row>, id: int) returns (i: nat, j: nat)
    requires |WithVideo(table, id)| >= 1
    ensures i <= j < |table| && table[i].videoId == table[j].videoId == id
    ensures |WithVideo(table, id)| >= 2 ==> i < j
    decreases |table|
  {
    var n := |table| - 1;
    if |WithVideo(table[..n], id)| >= 1 {
      i, j := CountedIsOccurrence(table[..n], id);
      if table[n].videoId == id {
        j := n;
      }
    } else {
      i, j := n, n;
    }
  }

  ghost predicate SeveralTags(odds: seq<Row>, id: int) {
    exists i, j :: 0 <= i < j < |odds| && odds[i].videoId == odds[j].videoId == id
  }

  ghost predicate AgreesWithLookups(db: Database, page: seq<Row>, results: seq<SearchResult>)
    requires |results| == |page|
  {
    forall i :: 0 <= i < |page| ==> FindByVideoId(db.oddTags, page[i].videoId) == OneOrNone(results[i].oddTag)
  }

  lemma LookupOfOne(db: Database, s: Row, r: SearchResult)
    requires Shows(db, s, r)
    ensures FindByVideoId(db.oddTags, s.videoId) ==
      if SeveralTags(db.oddTags, s.videoId) then MultipleResults else OneOrNone(r.oddTag)
  {
    hide WithVideo;
    var odds := db.oddTags;
    if i, j :| 0 <= i < j < |odds| && odds[i].videoId == odds[j].videoId == s.videoId {
      OccurrenceIsCounted(odds, i, s.videoId);
    } else if |WithVideo(odds, s.videoId)| >= 2 {
      var i, j := CountedIsOccurrence(odds, s.videoId);
      assert false;
    }
  }

  /** For every selection of a result page, the tag shown is the one that
      `find_by_video_id` finds, unless the video has several, where that fails. So
      the page agrees with the single lookups exactly when no video on it has two
      tags, and every page does when no video has. */
  lemma BatchedLookupAgrees(db: Database, page: seq<Row>, results: seq<SearchResult>)
    requires PageShown(db, page, results)
    ensures forall i :: 0 <= i < |page| ==>
      FindByVideoId(db.oddTags, page[i].videoId) ==
        if SeveralTags(db.oddTags, page[i].videoId) then MultipleResults else OneOrNone(results[i].oddTag)
    ensures AgreesWithLookups(db, page, results) <==>
      forall i :: 0 <= i < |page| ==> !SeveralTags(db.oddTags, page[i].videoId)
    ensures AtMostOneTagPerVideo(db.oddTags) ==> AgreesWithLookups(db, page, results)
  {
    hide FindByVideoId;
    forall i | 0 <= i < |page|
      ensures FindByVideoId(db.oddTags, page[i].videoId) ==
        if SeveralTags(db.oddTags, page[i].videoId) then MultipleResults else OneOrNone(results[i].oddTag)
    {
      LookupOfOne(db, page[i], results[i]);
    }
  }
}
