/** Raw rows, refined rows, their unique keys, and INSERT IGNORE. */
module Tables {
  import opened Domain

  datatype Weather = Sunny | Cloudy | Rainy | Snowy
  datatype TimeOfDay = Day | Night
  datatype RoadSurface = DryRoad | WetRoad | SnowyRoad | IcyRoad
  datatype ObjectClass = Car | Pedestrian | TrafficSign | TrafficLight | Truck | Bus | Cyclist | Motorcycle

  /** The stored columns of the three refined tables; surrogate row ids are
      left out. A selection's video id is its primary key. */
  datatype Row =
    | Selection(videoId: int, taskId: string, recordedAt: int, temperature: real,
                wiperActive: bool, wiperLevel: Option<int>, headlightsOn: bool, sourcePath: string)
    | OddTag(taskId: string, videoId: int, weather: Weather, timeOfDay: TimeOfDay, roadSurface: RoadSurface)
    | Label(taskId: string, videoId: int, objectClass: ObjectClass, objCount: int, confidence: real, labeledAt: int)

  /** The unique keys: selections by id alone, odd tags by task and video,
      labels by task, video and object class. */
  datatype Key =
    | SelectionKey(id: int)
    | OddTagKey(taskId: string, videoId: int)
    | LabelKey(taskId: string, videoId: int, objectClass: ObjectClass)

  function KeyOf(r: Row): Key {
    match r
    case Selection(id, _, _, _, _, _, _, _) => SelectionKey(id)
    case OddTag(task, video, _, _, _) => OddTagKey(task, video)
    case Label(task, video, class_, _, _, _) => LabelKey(task, video, class_)
  }

  function Keys(rows: seq<Row>): set<Key> {
    set r | r in rows :: KeyOf(r)
  }

  /** One INSERT IGNORE of `rows`: each row goes in unless its key is there. */
  function InsertIgnore(table: seq<Row>, rows: seq<Row>): seq<Row> {
    if rows == [] then table
    else
      var n := |rows| - 1;
      var before := InsertIgnore(table, rows[..n]);
      if KeyOf(rows[n]) in Keys(before) then before else before + [rows[n]]
  }

  /** The rows of the stream whose key is neither in the table nor on an earlier
      row, in stream order. */
  function FirstOccurrences(table: seq<Row>, rows: seq<Row>): seq<Row> {
    if rows == [] then []
    else
      var n := |rows| - 1;
      FirstOccurrences(table, rows[..n]) +
      (if KeyOf(rows[n]) in Keys(table) + Keys(rows[..n]) then [] else [rows[n]])
  }

  lemma KeysSplit(a: seq<Row>, b: seq<Row>)
    ensures Keys(a + b) == Keys(a) + Keys(b)
  {
    forall k | k in Keys(a) + Keys(b) ensures k in Keys(a + b) {
      var r :| r in a + b && KeyOf(r) == k;
    }
  }

  lemma KeysLast(rows: seq<Row>)
    requires rows != []
    ensures Keys(rows) == Keys(rows[..|rows| - 1]) + {KeyOf(rows[|rows| - 1])}
  {
    var n := |rows| - 1;
    assert rows == rows[..n] + [rows[n]];
    KeysSplit(rows[..n], [rows[n]]);
  }

  /** INSERT IGNORE extends the table by the first row of each new key, and
      afterwards every key of the stream is present. */
  lemma {:induction false} InsertIgnoreAddsFirstOccurrences(table: seq<Row>, rows: seq<Row>)
    ensures InsertIgnore(table, rows) == table + FirstOccurrences(table, rows)
    ensures Keys(InsertIgnore(table, rows)) == Keys(table) + Keys(rows)
    decreases |rows|
  {
    if rows == [] {
      assert Keys(rows) == {};
    } else {
      var n := |rows| - 1;
      InsertIgnoreAddsFirstOccurrences(table, rows[..n]);
      OneMoreRow(InsertIgnore(table, rows[..n]), rows[n]);
      KeysLast(rows);
    }
  }

  lemma OneMoreRow(table: seq<Row>, r: Row)
    ensures Keys(table + [r]) == Keys(table) + {KeyOf(r)}
  {
    KeysSplit(table, [r]);
    assert Keys([r]) == {KeyOf(r)};
  }

  lemma {:induction false} InsertIgnoreConcat(table: seq<Row>, a: seq<Row>, b: seq<Row>)
    ensures InsertIgnore(table, a + b) == InsertIgnore(InsertIgnore(table, a), b)
    decreases |b|
  {
    if b == [] {
      assert a + b == a;
    } else {
      var n := |b| - 1;
      InsertIgnoreConcat(table, a, b[..n]);
      var c := a + b;
      assert c[..|c| - 1] == a + b[..n] && c[|c| - 1] == b[n];
    }
  }

  /** The table only grows, by no more than the rows offered. */
  lemma InsertIgnoreGrows(table: seq<Row>, rows: seq<Row>)
    ensures table <= InsertIgnore(table, rows)
    ensures |InsertIgnore(table, rows)| - |table| <= |rows|
    ensures forall r :: r in InsertIgnore(table, rows) ==> r in table || r in rows
  {
    if rows == [] {
    } else {
      InsertIgnoreGrows(table, rows[..|rows| - 1]);
    }
  }

  /** Rows whose keys are all present change nothing. */
  lemma InsertIgnorePresent(table: seq<Row>, rows: seq<Row>)
    requires Keys(rows) <= Keys(table)
    ensures InsertIgnore(table, rows) == table
  {
    if rows == [] {
    } else {
      KeysLast(rows);
      InsertIgnorePresent(table, rows[..|rows| - 1]);
    }
  }

  lemma SubsetIsNoLarger(a: set<int>, b: set<int>)
    requires a <= b
    ensures |a| <= |b|
  {
    assert b == a + (b - a);
    assert |a + (b - a)| == |a| + |b - a|;
  }

  ghost predicate UniqueKeys(table: seq<Row>) {
    forall i, j :: 0 <= i < j < |table| ==> KeyOf(table[i]) != KeyOf(table[j])
  }

  lemma InsertIgnoreKeepsKeysUnique(table: seq<Row>, rows: seq<Row>)
    requires UniqueKeys(table)
    ensures UniqueKeys(InsertIgnore(table, rows))
  {
    if rows == [] {
    } else {
      InsertIgnoreKeepsKeysUnique(table, rows[..|rows| - 1]);
    }
  }

  /* ---- raw rows and rejections ---- */

  /** The keys of a raw row, and the fields a rejection can name. */
  datatype Field =
    | Id | RecordedAt | TemperatureField | IsWiperOn | HeadlightsOn | SourcePathField
    | Sensor | SensorTemperature | SensorTemperatureUnit | SensorWiper | Headlights | Wiper
    | ValueField | Unit | IsActive | Level | Schema
    | VideoIdField | WeatherField | TimeOfDayField | RoadSurfaceField
    | ObjectClassField | ObjCount | AvgConfidence | LabeledAt | UniqueConstraint
    | OtherField(name: string)

  datatype Number = Finite(r: real) | NotANumber | Infinite

  /** A value of a parsed JSON or CSV row. */
  datatype Value =
    | Text(s: string)
    | Whole(i: int)
    | Float(n: Number)
    | Flag(b: bool)
    | Null
    | Dict(entries: map<Field, Value>)
    | Other(truthy: bool)

  type RawRow = map<Field, Value>

  datatype Reason =
    | DuplicateTagging | DuplicateLabel | NegativeObjCount | FractionalObjCount | InvalidFormat
    | UnknownSchema | MissingRequiredField | InvalidEnumValue | UnlinkedRecord

  /** `source_id` as the values it prints: "?" is `Unknown`. */
  datatype SourceId =
    | Unknown | Printed(v: Value) | Paired(video: SourceId, class_: SourceId)
    | ClassName(c: ObjectClass) | Batch

  /** Detail texts are left out, except for the number of ignored rows. */
  datatype Detail = Message | IgnoredRows(count: nat)

  datatype Rejection = Rejection(
    taskId: string, stage: Stage, reason: Reason, source: SourceId, field: Field, detail: Detail)

  /** What refining one raw row ends in: a row, its rejections, or an exception
      that escapes. */
  datatype Error = DomainError | OtherError
  datatype Outcome = Refined(row: Row) | Refused(rejections: seq<Rejection>) | Raised(error: Error)

  datatype Try<+T> = Ok(value: T) | Threw(error: Error)
}
