/** The search query as a syntax tree with an evaluator, the builder that
    compiles search criteria into it, and the proof that the compiled query
    means what the criteria say. */
module Search {
  import opened Domain
  import opened Tables
  import opened Pipeline

  datatype SearchCriteria = SearchCriteria(
    taskId: Option<string>,
    recordedFrom: Option<int>, recordedTo: Option<int>,
    minTemperature: Option<real>, maxTemperature: Option<real>,
    headlightsOn: Option<bool>,
    weather: Option<Weather>, timeOfDay: Option<TimeOfDay>, roadSurface: Option<RoadSurface>,
    objectClass: Option<ObjectClass>, minObjCount: Option<int>, minConfidence: Option<real>,
    page: Option<nat>, size: nat, after: Option<int>)

  /* ---- the query language ---- */

  datatype Column =
    | SelId | SelTask | SelRecordedAt | SelTemperature | SelHeadlights
    | OddVideo | OddWeather | OddTime | OddRoad
    | LabelVideo | LabelClass | LabelCount | LabelConfidence

  datatype Cell =
    | NoCell
    | IntCell(i: int) | RealCell(r: real) | TextCell(s: string) | BoolCell(b: bool)
    | WeatherCell(w: Weather) | TimeCell(t: TimeOfDay) | RoadCell(road: RoadSurface) | ClassCell(c: ObjectClass)

  datatype Op = Eq | Ge | Le | Gt

  /** `Exists` ranges over the labels, in the row at hand. */
  datatype Cond =
    | Compare(col: Column, op: Op, value: Cell)
    | SameValue(a: Column, b: Column)
    | Exists(conds: seq<Cond>)

  /** A SELECT from selections, perhaps joined with the odd tags; evaluated for
      its rows or for their number. */
  datatype Select = Select(join: Option<Cond>, conds: seq<Cond>, ordered: bool, offset: nat, limit: Option<nat>)
  {
    function Where(c: Cond): Select {
      this.(conds := conds + [c])
    }

    /** The comparison is added when there is a value to compare with. */
    function WhereGiven(col: Column, op: Op, value: Option<Cell>): Select {
      if value.Some? then Where(Compare(col, op, value.value)) else this
    }
  }

  /** One row of the FROM clause, with the label an EXISTS is looking at. */
  datatype Env = Env(selection: Row, oddTag: Option<Row>, labelRow: Option<Row>)

  function Value(e: Env, col: Column): Cell {
    match col
    case SelId => IntCell(e.selection.videoId)
    case SelTask => TextCell(e.selection.taskId)
    case SelRecordedAt => if e.selection.Selection? then IntCell(e.selection.recordedAt) else NoCell
    case SelTemperature => if e.selection.Selection? then RealCell(e.selection.temperature) else NoCell
    case SelHeadlights => if e.selection.Selection? then BoolCell(e.selection.headlightsOn) else NoCell
    case OddVideo => if e.oddTag.Some? then IntCell(e.oddTag.value.videoId) else NoCell
    case OddWeather => if HasOdd(e) then WeatherCell(e.oddTag.value.weather) else NoCell
    case OddTime => if HasOdd(e) then TimeCell(e.oddTag.value.timeOfDay) else NoCell
    case OddRoad => if HasOdd(e) then RoadCell(e.oddTag.value.roadSurface) else NoCell
    case LabelVideo => if e.labelRow.Some? then IntCell(e.labelRow.value.videoId) else NoCell
    case LabelClass => if HasLabel(e) then ClassCell(e.labelRow.value.objectClass) else NoCell
    case LabelCount => if HasLabel(e) then IntCell(e.labelRow.value.objCount) else NoCell
    case LabelConfidence => if HasLabel(e) then RealCell(e.labelRow.value.confidence) else NoCell
  }

  predicate HasOdd(e: Env) {
    e.oddTag.Some? && e.oddTag.value.OddTag?
  }

  predicate HasLabel(e: Env) {
    e.labelRow.Some? && e.labelRow.value.Label?
  }

  predicate Compares(op: Op, a: Cell, b: Cell) {
    match op
    case Eq => a == b && a != NoCell
    case Ge => (a.IntCell? && b.IntCell? && a.i >= b.i) || (a.RealCell? && b.RealCell? && a.r >= b.r)
    case Le => (a.IntCell? && b.IntCell? && a.i <= b.i) || (a.RealCell? && b.RealCell? && a.r <= b.r)
    case Gt => (a.IntCell? && b.IntCell? && a.i > b.i) || (a.RealCell? && b.RealCell? && a.r > b.r)
  }

  predicate Holds(c: Cond, e: Env, labels: seq<Row>)
    decreases c, 0
  {
    match c
    case Compare(col, op, value) => Compares(op, Value(e, col), value)
    case SameValue(a, b) => Compares(Eq, Value(e, a), Value(e, b))
    case Exists(conds) => exists l :: l in labels && AllHold(conds, e.(labelRow := Some(l)), labels)
  }

  predicate AllHold(conds: seq<Cond>, e: Env, labels: seq<Row>)
    decreases conds, |conds|
  {
    conds == [] || (AllHold(conds[..|conds| - 1], e, labels) && Holds(conds[|conds| - 1], e, labels))
  }

  /** The rows one selection contributes: one per joined odd tag that satisfies
      every condition, or at most one without a join. */
  function OddMatches(q: Select, s: Row, odds: seq<Row>, labels: seq<Row>): nat
    requires q.join.Some?
  {
    if odds == [] then 0
    else
      var n := |odds| - 1;
      var e := Env(s, Some(odds[n]), None);
      OddMatches(q, s, odds[..n], labels) +
      (if Holds(q.join.value, e, labels) && AllHold(q.conds, e, labels) then 1 else 0)
  }

  function Contribution(q: Select, s: Row, db: Database): nat {
    if q.join.Some? then OddMatches(q, s, db.oddTags, db.labels)
    else if AllHold(q.conds, Env(s, None, None), db.labels) then 1 else 0
  }

  function Copies(s: Row, k: nat): seq<Row> {
    seq(k, _ => s)
  }

  /** FROM and WHERE, in table order. */
  function Filtered(q: Select, selections: seq<Row>, db: Database): seq<Row> {
    if selections == [] then []
    else
      var n := |selections| - 1;
      Filtered(q, selections[..n], db) + Copies(selections[n], Contribution(q, selections[n], db))
  }

  function InsertById(sorted: seq<Row>, r: Row): seq<Row> {
    if sorted == [] then [r]
    else
      var n := |sorted| - 1;
      if sorted[n].videoId <= r.videoId then sorted + [r] else InsertById(sorted[..n], r) + [sorted[n]]
  }

  function SortById(rows: seq<Row>): seq<Row> {
    if rows == [] then [] else InsertById(SortById(rows[..|rows| - 1]), rows[|rows| - 1])
  }

  function Slice(rows: seq<Row>, offset: nat, limit: Option<nat>): seq<Row> {
    var rest := if offset <= |rows| then rows[offset..] else [];
    if limit.Some? && limit.value <= |rest| then rest[..limit.value] else rest
  }

  function Evaluate(q: Select, db: Database): seq<Row> {
    var rows := Filtered(q, db.selections, db);
    Slice(if q.ordered then SortById(rows) else rows, q.offset, q.limit)
  }

  function EvaluateCount(q: Select, db: Database): nat {
    |Filtered(q, db.selections, db)|
  }

  /* ---- the builder ---- */

  function Ints(o: Option<int>): Option<Cell> {
    if o.Some? then Some(IntCell(o.value)) else None
  }

  function Reals(o: Option<real>): Option<Cell> {
    if o.Some? then Some(RealCell(o.value)) else None
  }

  function Texts(o: Option<string>): Option<Cell> {
    if o.Some? then Some(TextCell(o.value)) else None
  }

  function Bools(o: Option<bool>): Option<Cell> {
    if o.Some? then Some(BoolCell(o.value)) else None
  }

  function ApplySelectionConditions(c: SearchCriteria, q: Select): Select {
    q.WhereGiven(SelTask, Eq, Texts(c.taskId))
     .WhereGiven(SelRecordedAt, Ge, Ints(c.recordedFrom))
     .WhereGiven(SelRecordedAt, Le, Ints(c.recordedTo))
     .WhereGiven(SelTemperature, Ge, Reals(c.minTemperature))
     .WhereGiven(SelTemperature, Le, Reals(c.maxTemperature))
     .WhereGiven(SelHeadlights, Eq, Bools(c.headlightsOn))
  }

  /** Any odd condition set? */
  predicate OddActive(c: SearchCriteria) {
    c.weather.Some? || c.timeOfDay.Some? || c.roadSurface.Some?
  }

  function ApplyOddConditions(c: SearchCriteria, q: Select): Select {
    if !OddActive(c) then q
    else
      var q0 := q.(join := Some(SameValue(SelId, OddVideo)));
      var q1 := if c.weather.Some? then q0.Where(Compare(OddWeather, Eq, WeatherCell(c.weather.value))) else q0;
      var q2 := if c.timeOfDay.Some? then q1.Where(Compare(OddTime, Eq, TimeCell(c.timeOfDay.value))) else q1;
      if c.roadSurface.Some? then q2.Where(Compare(OddRoad, Eq, RoadCell(c.roadSurface.value))) else q2
  }

  /** Python truth: a minimum of zero alone does not count as a condition. */
  predicate LabelActive(c: SearchCriteria) {
    || c.objectClass.Some?
    || (c.minObjCount.Some? && c.minObjCount.value != 0)
    || (c.minConfidence.Some? && c.minConfidence.value != 0.0)
  }

  function LabelConditions(c: SearchCriteria): seq<Cond> {
    var cs0 := [SameValue(LabelVideo, SelId)];
    var cs1 := if c.objectClass.Some? then cs0 + [Compare(LabelClass, Eq, ClassCell(c.objectClass.value))] else cs0;
    var cs2 := if c.minObjCount.Some? then cs1 + [Compare(LabelCount, Ge, IntCell(c.minObjCount.value))] else cs1;
    if c.minConfidence.Some? then cs2 + [Compare(LabelConfidence, Ge, RealCell(c.minConfidence.value))] else cs2
  }

  function ApplyLabelConditions(c: SearchCriteria, q: Select): Select {
    if LabelActive(c) then q.Where(Exists(LabelConditions(c))) else q
  }

  /** The API accepts pages from 1. */
  predicate ValidPaging(c: SearchCriteria) {
    c.size >= 1 && (c.page.Some? ==> c.page.value >= 1)
  }

  function ApplyPagination(c: SearchCriteria, q: Select): Select
    requires ValidPaging(c)
  {
    var q0 := q.(ordered := true);
    var q1 :=
      if c.after.Some? then q0.Where(Compare(SelId, Gt, IntCell(c.after.value)))
      else if c.page.Some? then q0.(offset := (c.page.value - 1) * c.size)
      else q0;
    q1.(limit := Some(c.size))
  }

  function ApplyConditions(c: SearchCriteria, q: Select): Select {
    ApplyLabelConditions(c, ApplyOddConditions(c, ApplySelectionConditions(c, q)))
  }

  /** SELECT FROM selections, before any condition. */
  function Plain(): Select {
    Select(None, [], false, 0, None)
  }

  function BuildQuery(c: SearchCriteria): Select
    requires ValidPaging(c)
  {
    ApplyPagination(c, ApplyConditions(c, Plain()))
  }

  function BuildCountQuery(c: SearchCriteria): Select {
    ApplyConditions(c, Plain())
  }

  /* ---- what the criteria say ---- */

  predicate SelectionMeets(c: SearchCriteria, s: Row) {
    && (c.taskId.Some? ==> s.taskId == c.taskId.value)
    && (c.recordedFrom.Some? ==> s.Selection? && s.recordedAt >= c.recordedFrom.value)
    && (c.recordedTo.Some? ==> s.Selection? && s.recordedAt <= c.recordedTo.value)
    && (c.minTemperature.Some? ==> s.Selection? && s.temperature >= c.minTemperature.value)
    && (c.maxTemperature.Some? ==> s.Selection? && s.temperature <= c.maxTemperature.value)
    && (c.headlightsOn.Some? ==> s.Selection? && s.headlightsOn == c.headlightsOn.value)
  }

  /** This odd tag belongs to the video and meets every odd condition. */
  predicate OddMeets(c: SearchCriteria, id: int, o: Row) {
    && o.videoId == id
    && (c.weather.Some? ==> o.OddTag? && o.weather == c.weather.value)
    && (c.timeOfDay.Some? ==> o.OddTag? && o.timeOfDay == c.timeOfDay.value)
    && (c.roadSurface.Some? ==> o.OddTag? && o.roadSurface == c.roadSurface.value)
  }

  /** This one label belongs to the video and meets every label condition. */
  predicate LabelMeets(c: SearchCriteria, id: int, l: Row) {
    && l.videoId == id
    && (c.objectClass.Some? ==> l.Label? && l.objectClass == c.objectClass.value)
    && (c.minObjCount.Some? ==> l.Label? && l.objCount >= c.minObjCount.value)
    && (c.minConfidence.Some? ==> l.Label? && l.confidence >= c.minConfidence.value)
  }

  function MeetingOdds(c: SearchCriteria, id: int, odds: seq<Row>): nat {
    if odds == [] then 0
    else MeetingOdds(c, id, odds[..|odds| - 1]) + (if OddMeets(c, id, odds[|odds| - 1]) then 1 else 0)
  }

  /** How often a selection belongs in the answer. */
  function Multiplicity(c: SearchCriteria, s: Row, db: Database): nat {
    if SelectionMeets(c, s) && (LabelActive(c) ==> exists l :: l in db.labels && LabelMeets(c, s.videoId, l))
    then if OddActive(c) then MeetingOdds(c, s.videoId, db.oddTags) else 1
    else 0
  }

  /* ---- the compiled query means what the criteria say ---- */

  lemma WhereHolds(conds: seq<Cond>, c: Cond, e: Env, labels: seq<Row>)
    ensures AllHold(conds + [c], e, labels) <==> AllHold(conds, e, labels) && Holds(c, e, labels)
  {
    assert (conds + [c])[..|conds|] == conds;
  }

  lemma GivenHolds(q: Select, col: Column, op: Op, value: Option<Cell>, e: Env, labels: seq<Row>)
    ensures q.WhereGiven(col, op, value).join == q.join
    ensures AllHold(q.WhereGiven(col, op, value).conds, e, labels) <==>
      AllHold(q.conds, e, labels) && (value.Some? ==> Compares(op, Value(e, col), value.value))
  {
    if value.Some? {
      WhereHolds(q.conds, Compare(col, op, value.value), e, labels);
    }
  }

  lemma SelectionConditionsMean(c: SearchCriteria, q: Select, e: Env, labels: seq<Row>)
    ensures AllHold(ApplySelectionConditions(c, q).conds, e, labels) <==>
      AllHold(q.conds, e, labels) && SelectionMeets(c, e.selection)
    ensures ApplySelectionConditions(c, q).join == q.join
  {
    hide AllHold, Select.WhereGiven;
    var q1 := q.WhereGiven(SelTask, Eq, Texts(c.taskId));
    var q2 := q1.WhereGiven(SelRecordedAt, Ge, Ints(c.recordedFrom));
    var q3 := q2.WhereGiven(SelRecordedAt, Le, Ints(c.recordedTo));
    var q4 := q3.WhereGiven(SelTemperature, Ge, Reals(c.minTemperature));
    var q5 := q4.WhereGiven(SelTemperature, Le, Reals(c.maxTemperature));
    GivenHolds(q, SelTask, Eq, Texts(c.taskId), e, labels);
    GivenHolds(q1, SelRecordedAt, Ge, Ints(c.recordedFrom), e, labels);
    GivenHolds(q2, SelRecordedAt, Le, Ints(c.recordedTo), e, labels);
    GivenHolds(q3, SelTemperature, Ge, Reals(c.minTemperature), e, labels);
    GivenHolds(q4, SelTemperature, Le, Reals(c.maxTemperature), e, labels);
    GivenHolds(q5, SelHeadlights, Eq, Bools(c.headlightsOn), e, labels);
  }

  lemma OddConditionsMean(c: SearchCriteria, q: Select, e: Env, labels: seq<Row>)
    requires OddActive(c) && e.oddTag.Some?
    ensures var q' := ApplyOddConditions(c, q);
      && q'.join.Some?
      && (Holds(q'.join.value, e, labels) && AllHold(q'.conds, e, labels) <==>
            AllHold(q.conds, e, labels) && OddMeets(c, e.selection.videoId, e.oddTag.value))
  {
    hide AllHold;
    var q1 := if c.weather.Some? then q.Where(Compare(OddWeather, Eq, WeatherCell(c.weather.value))) else q;
    var q2 := if c.timeOfDay.Some? then q1.Where(Compare(OddTime, Eq, TimeCell(c.timeOfDay.value))) else q1;
    if c.weather.Some? { WhereHolds(q.conds, Compare(OddWeather, Eq, WeatherCell(c.weather.value)), e, labels); }
    if c.timeOfDay.Some? { WhereHolds(q1.conds, Compare(OddTime, Eq, TimeCell(c.timeOfDay.value)), e, labels); }
    if c.roadSurface.Some? { WhereHolds(q2.conds, Compare(OddRoad, Eq, RoadCell(c.roadSurface.value)), e, labels); }
  }

  lemma LabelConditionsMean(c: SearchCriteria, e: Env, labels: seq<Row>)
    requires e.labelRow.Some?
    ensures AllHold(LabelConditions(c), e, labels) <==> LabelMeets(c, e.selection.videoId, e.labelRow.value)
  {
    var cs0 := [SameValue(LabelVideo, SelId)];
    var cs1 := if c.objectClass.Some? then cs0 + [Compare(LabelClass, Eq, ClassCell(c.objectClass.value))] else cs0;
    var cs2 := if c.minObjCount.Some? then cs1 + [Compare(LabelCount, Ge, IntCell(c.minObjCount.value))] else cs1;
    WhereHolds([], cs0[0], e, labels);
    assert [] + [cs0[0]] == cs0 && AllHold([], e, labels);
    hide AllHold;
    if c.objectClass.Some? { WhereHolds(cs0, Compare(LabelClass, Eq, ClassCell(c.objectClass.value)), e, labels); }
    if c.minObjCount.Some? { WhereHolds(cs1, Compare(LabelCount, Ge, IntCell(c.minObjCount.value)), e, labels); }
    if c.minConfidence.Some? {
      WhereHolds(cs2, Compare(LabelConfidence, Ge, RealCell(c.minConfidence.value)), e, labels);
    }
  }

  /** The EXISTS clause asks for one label that meets all label conditions. */
  predicate SomeLabelMeets(c: SearchCriteria, id: int, labels: seq<Row>) {
    LabelActive(c) ==> exists l :: l in labels && LabelMeets(c, id, l)
  }

  lemma ExistsMeans(c: SearchCriteria, q: Select, e: Env, labels: seq<Row>)
    ensures var q' := ApplyLabelConditions(c, q);
      && q'.join == q.join
      && (AllHold(q'.conds, e, labels) <==>
            AllHold(q.conds, e, labels) && SomeLabelMeets(c, e.selection.videoId, labels))
  {
    if LabelActive(c) {
      var conds := LabelConditions(c);
      WhereHolds(q.conds, Exists(conds), e, labels);
      forall l | l in labels
        ensures AllHold(conds, e.(labelRow := Some(l)), labels) <==> LabelMeets(c, e.selection.videoId, l)
      {
        LabelConditionsMean(c, e.(labelRow := Some(l)), labels);
      }
    }
  }

  /** One joined row satisfies the whole WHERE clause when the selection, this
      odd tag and some label meet their conditions. */
  lemma JoinedRowMeans(c: SearchCriteria, e: Env, labels: seq<Row>)
    requires OddActive(c) && e.oddTag.Some?
    ensures var q := ApplyConditions(c, Plain());
      && q.join.Some?
      && (Holds(q.join.value, e, labels) && AllHold(q.conds, e, labels) <==>
            && SelectionMeets(c, e.selection)
            && SomeLabelMeets(c, e.selection.videoId, labels)
            && OddMeets(c, e.selection.videoId, e.oddTag.value))
  {
    var q1 := ApplySelectionConditions(c, Plain());
    var q2 := ApplyOddConditions(c, q1);
    assert AllHold([], e, labels);
    hide AllHold, Holds, SelectionMeets, OddMeets, SomeLabelMeets, ApplySelectionConditions, ApplyOddConditions;
    hide ApplyLabelConditions;
    SelectionConditionsMean(c, Plain(), e, labels);
    OddConditionsMean(c, q1, e, labels);
    ExistsMeans(c, q2, e, labels);
  }

  lemma PlainRowMeans(c: SearchCriteria, e: Env, labels: seq<Row>)
    requires !OddActive(c)
    ensures var q := ApplyConditions(c, Plain());
      && q.join.None?
      && (AllHold(q.conds, e, labels) <==>
           SelectionMeets(c, e.selection) && SomeLabelMeets(c, e.selection.videoId, labels))
  {
    var q1 := ApplySelectionConditions(c, Plain());
    assert AllHold([], e, labels);
    hide AllHold, Holds, SelectionMeets, SomeLabelMeets, ApplySelectionConditions, ApplyLabelConditions;
    SelectionConditionsMean(c, Plain(), e, labels);
    ExistsMeans(c, q1, e, labels);
  }

  lemma {:induction false} OddMatchesMean(c: SearchCriteria, s: Row, odds: seq<Row>, labels: seq<Row>)
    requires OddActive(c)
    ensures var q := ApplyConditions(c, Plain());
      q.join.Some? && OddMatches(q, s, odds, labels) ==
        if SelectionMeets(c, s) && SomeLabelMeets(c, s.videoId, labels) then MeetingOdds(c, s.videoId, odds) else 0
    decreases |odds|
  {
    hide AllHold, Holds, SelectionMeets, OddMeets, SomeLabelMeets, ApplyConditions;
    if odds == [] {
      JoinedRowMeans(c, Env(s, Some(s), None), labels);
    } else {
      var n := |odds| - 1;
      OddMatchesMean(c, s, odds[..n], labels);
      JoinedRowMeans(c, Env(s, Some(odds[n]), None), labels);
    }
  }

  /** Each selection contributes to the compiled query exactly as often as the
      criteria say: it must meet the selection conditions and some one label
      all label conditions; with odd conditions set, it appears once per odd
      tag that meets all of them. */
  lemma CompiledQueryMeansTheCriteria(c: SearchCriteria, s: Row, db: Database)
    ensures Contribution(ApplyConditions(c, Plain()), s, db) == Multiplicity(c, s, db)
  {
    hide AllHold, Holds, SelectionMeets, OddMeets, ApplyConditions;
    if OddActive(c) {
      OddMatchesMean(c, s, db.oddTags, db.labels);
    } else {
      PlainRowMeans(c, Env(s, None, None), db.labels);
    }
  }
}
