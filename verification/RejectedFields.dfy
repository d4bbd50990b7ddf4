/** The rejections of a row that is refused, field by field on the raw row: which
    fields are rejected, for which reason, and in which order. */
module RejectedFields {
  import opened Domain
  import opened Tables
  import opened Parsing
  import opened Collecting
  import opened Refiners
  import opened RefinerLaws
  import opened RefinedFields

  function Shown(row: RawRow, key: Field): SourceId {
    if key in row then Printed(row[key]) else Unknown
  }

  function Record(at: Origin, reason: Reason, field: Field): Rejection {
    Rejection(at.taskId, at.stage, reason, at.source, field, Message)
  }

  function Unless(given: bool, r: Rejection): seq<Rejection> {
    if given then [] else [r]
  }

  /* ---- one parser ---- */

  function ReportOf(at: Origin, p: Parsed<()>): seq<Rejection> {
    if p.Bad? then [RejectionOf(at, p)] else []
  }

  lemma OneMoreReport(at: Origin, ps: seq<Parsed<()>>, p: Parsed<()>)
    ensures Reports(at, ps + [p]) == Reports(at, ps) + ReportOf(at, p)
  {
    assert (ps + [p])[..|ps|] == ps;
  }

  lemma ReportsOfFour(at: Origin, a: Parsed<()>, b: Parsed<()>, c: Parsed<()>, d: Parsed<()>)
    ensures Reports(at, [a, b, c, d]) == ReportOf(at, a) + ReportOf(at, b) + ReportOf(at, c) + ReportOf(at, d)
  {
    OneMoreReport(at, [], a);
    OneMoreReport(at, [a], b);
    OneMoreReport(at, [a, b], c);
    OneMoreReport(at, [a, b, c], d);
    assert [] + [a] == [a] && [a] + [b] == [a, b] && [a, b] + [c] == [a, b, c] && [a, b, c] + [d] == [a, b, c, d];
    hide ReportOf;
  }

  lemma ReportsOfSix(
      at: Origin, a: Parsed<()>, b: Parsed<()>, c: Parsed<()>, d: Parsed<()>, e: Parsed<()>, f: Parsed<()>)
    ensures Reports(at, [a, b, c, d, e]) ==
      ReportOf(at, a) + ReportOf(at, b) + ReportOf(at, c) + ReportOf(at, d) + ReportOf(at, e)
    ensures Reports(at, [a, b, c, d, e, f]) == Reports(at, [a, b, c, d, e]) + ReportOf(at, f)
  {
    hide Reports, ReportOf;
    ReportsOfFour(at, a, b, c, d);
    OneMoreReport(at, [a, b, c, d], e);
    OneMoreReport(at, [a, b, c, d, e], f);
    assert [a, b, c, d] + [e] == [a, b, c, d, e] && [a, b, c, d, e] + [f] == [a, b, c, d, e, f];
  }

  lemma DateReport(at: Origin, lib: Library, row: RawRow, key: Field)
    ensures ReportOf(at, ParseDate(lib, row, key).Fault()) ==
      Unless(exists t :: GivesDate(lib, row, key, t), Record(at, InvalidFormat, key))
  {
    if ParseDate(lib, row, key).Good? {
      DateIs(lib, row, key, ParseDate(lib, row, key).value);
    }
    if t :| GivesDate(lib, row, key, t) {
      DateIs(lib, row, key, t);
    }
  }

  /* ---- labels ---- */

  ghost function ClassRejections(at: Origin, row: RawRow): seq<Rejection> {
    if ObjectClassField !in row then [Record(at, MissingRequiredField, ObjectClassField)]
    else Unless(exists c :: GivesText(row, ObjectClassField, ObjectClassText(c)),
                Record(at, InvalidEnumValue, ObjectClassField))
  }

  ghost function CountRejections(at: Origin, lib: Library, row: RawRow): seq<Rejection> {
    if x :| GivesNumber(lib, row, ObjCount, x) then
      if x != x.Floor as real then [Record(at, FractionalObjCount, ObjCount)]
      else Unless(x >= 0.0, Record(at, NegativeObjCount, ObjCount))
    else [Record(at, InvalidFormat, ObjCount)]
  }

  /** What a refused label row is rejected for. */
  ghost function LabelRejections(lib: Library, taskId: string, row: RawRow): seq<Rejection> {
    var at := Origin(taskId, AutoLabelingStage, Paired(Shown(row, VideoIdField), Shown(row, ObjectClassField)));
    Unless(exists n :: GivesInt(lib, row, VideoIdField, n), Record(at, InvalidFormat, VideoIdField)) +
    ClassRejections(at, row) +
    CountRejections(at, lib, row) +
    Unless(exists x :: GivesNumber(lib, row, AvgConfidence, x), Record(at, InvalidFormat, AvgConfidence)) +
    Unless(exists t :: GivesDate(lib, row, LabeledAt, t), Record(at, InvalidFormat, LabeledAt))
  }

  lemma LabelVideoIdReport(at: Origin, lib: Library, row: RawRow)
    requires !LabelVideoId(lib, row).Escapes?
    ensures ReportOf(at, LabelVideoId(lib, row).Fault()) ==
      Unless(exists n :: GivesInt(lib, row, VideoIdField, n), Record(at, InvalidFormat, VideoIdField))
  {
    IntAt(lib, row, VideoIdField);
    hide ToInt, GivesInt;
  }

  lemma ClassReport(at: Origin, row: RawRow)
    ensures ReportOf(at, LabelClass(row).Fault()) == ClassRejections(at, row)
  {
    if LabelClass(row).Good? {
      LabelClassIs(row, LabelClass(row).value);
    }
    if c :| GivesText(row, ObjectClassField, ObjectClassText(c)) {
      LabelClassIs(row, c);
    }
    hide ObjectClassText, GivesText;
  }

  lemma WholeExactly(x: real)
    ensures x == Truncated(x) as real <==> x == x.Floor as real
    ensures x == Truncated(x) as real ==> (Truncated(x) >= 0 <==> x >= 0.0)
  {
    if x < 0.0 {
      WholeNegated(x);
    }
  }

  lemma WholeNegated(x: real)
    ensures x == x.Floor as real <==> -x == (-x).Floor as real
    ensures x == x.Floor as real ==> (-x).Floor == -x.Floor
  {
    if x == x.Floor as real {
      WholeFloor(-x, -x.Floor);
    }
    if -x == (-x).Floor as real {
      WholeFloor(x, -(-x).Floor);
    }
  }

  lemma WholeFloor(x: real, n: int)
    requires x == n as real
    ensures x.Floor == n
  {
  }

  lemma CountFault(lib: Library, row: RawRow, x: real)
    requires GivesNumber(lib, row, ObjCount, x)
    ensures LabelCount(lib, row).Fault() ==
      if x != x.Floor as real then Bad(FractionalObjCount, ObjCount)
      else if x < 0.0 then Bad(NegativeObjCount, ObjCount)
      else Good(())
  {
    NumberAt(lib, row, ObjCount);
    WholeExactly(x);
    hide FloatAt, GivesNumber, Truncated;
  }

  lemma NoCountFault(lib: Library, row: RawRow)
    requires !LabelCount(lib, row).Escapes? && !exists x :: GivesNumber(lib, row, ObjCount, x)
    ensures LabelCount(lib, row).Fault() == Bad(InvalidFormat, ObjCount)
  {
    NumberAt(lib, row, ObjCount);
    hide ToFloat, GivesNumber, Truncated;
  }

  lemma CountReport(at: Origin, lib: Library, row: RawRow)
    requires !LabelCount(lib, row).Escapes?
    ensures ReportOf(at, LabelCount(lib, row).Fault()) == CountRejections(at, lib, row)
  {
    hide LabelCount;
    if x :| GivesNumber(lib, row, ObjCount, x) {
      CountFault(lib, row, x);
    } else {
      NoCountFault(lib, row);
    }
  }

  lemma ConfidenceReport(at: Origin, lib: Library, row: RawRow)
    requires !LabelConfidence(lib, row).Escapes?
    ensures ReportOf(at, LabelConfidence(lib, row).Fault()) ==
      Unless(exists x :: GivesNumber(lib, row, AvgConfidence, x), Record(at, InvalidFormat, AvgConfidence))
  {
    NumberAt(lib, row, AvgConfidence);
    hide ToFloat, GivesNumber;
  }

  /** A refused label row has exactly these rejections, in this order. */
  lemma LabelRejectionsAreExact(lib: Library, taskId: string, row: RawRow)
    requires LabelOutcome(lib, taskId, row).Refused?
    ensures LabelOutcome(lib, taskId, row).rejections == LabelRejections(lib, taskId, row)
  {
    var at, ps := LabelOrigin(taskId, row), LabelFaults(lib, row);
    LabelNeverStops(lib, taskId, row);
    ReportsOfSix(at, ps[0], ps[1], ps[2], ps[3], ps[4], Good(()));
    hide LabelVideoId, LabelClass, LabelCount, LabelConfidence, ParseDate, ReportOf, Reports, Record, Unless;
    LabelVideoIdReport(at, lib, row);
    ClassReport(at, row);
    CountReport(at, lib, row);
    ConfidenceReport(at, lib, row);
    DateReport(at, lib, row, LabeledAt);
    hide GivesInt, GivesNumber, GivesDate, ClassRejections, CountRejections, FirstStop;
  }

  lemma LabelNeverStops(lib: Library, taskId: string, row: RawRow)
    requires !LabelOutcome(lib, taskId, row).Raised?
    ensures !LabelVideoId(lib, row).Escapes? && !LabelCount(lib, row).Escapes? && !LabelConfidence(lib, row).Escapes?
  {
    var at, ps := LabelOrigin(taskId, row), LabelFaults(lib, row);
    NothingStops(at.source, ps);
    hide LabelVideoId, LabelClass, LabelCount, LabelConfidence, ParseDate, Reports, FirstStop;
    assert !Stops(at.source, ps[0]) && !Stops(at.source, ps[2]) && !Stops(at.source, ps[3]);
  }

  /* ---- odd tags ---- */

  /** A field that must hold the text of an enum value. */
  ghost function EnumRejections(at: Origin, row: RawRow, key: Field, known: bool): seq<Rejection> {
    if key !in row then [Record(at, MissingRequiredField, key)] else Unless(known, Record(at, InvalidEnumValue, key))
  }

  /** What a refused odd tag row is rejected for. */
  ghost function OddTagRejections(lib: Library, taskId: string, row: RawRow): seq<Rejection> {
    var at := Origin(taskId, OddTaggingStage, Shown(row, Id));
    Unless(exists n :: GivesInt(lib, row, Id, n), Record(at, InvalidFormat, Id)) +
    Unless(exists n :: GivesPaddedId(lib, row, n), Record(at, InvalidFormat, VideoIdField)) +
    EnumRejections(at, row, WeatherField, exists w :: GivesText(row, WeatherField, WeatherText(w))) +
    EnumRejections(at, row, TimeOfDayField, exists t :: GivesText(row, TimeOfDayField, TimeOfDayText(t))) +
    EnumRejections(at, row, RoadSurfaceField, exists x :: GivesText(row, RoadSurfaceField, RoadSurfaceText(x)))
  }

  lemma OddIdReport(at: Origin, lib: Library, row: RawRow)
    requires !OddId(lib, row).Escapes?
    ensures ReportOf(at, OddId(lib, row).Fault()) ==
      Unless(exists n :: GivesInt(lib, row, Id, n), Record(at, InvalidFormat, Id))
  {
    IntAt(lib, row, Id);
    hide ToInt, GivesInt;
    if OddId(lib, row).Good? {
      assert GivesInt(lib, row, Id, OddId(lib, row).value);
    }
  }

  lemma OddVideoIdReport(at: Origin, lib: Library, row: RawRow)
    requires !OddVideoId(lib, row).Escapes?
    ensures ReportOf(at, OddVideoId(lib, row).Fault()) ==
      Unless(exists n :: GivesPaddedId(lib, row, n), Record(at, InvalidFormat, VideoIdField))
  {
    hide StripZeros, DecimalValue, AllDigits;
    if OddVideoId(lib, row).Good? {
      OddVideoIdIs(lib, row, OddVideoId(lib, row).value);
    }
  }

  lemma OddEnumReports(at: Origin, row: RawRow)
    ensures ReportOf(at, OddWeather(row).Fault()) ==
      EnumRejections(at, row, WeatherField, exists w :: GivesText(row, WeatherField, WeatherText(w)))
    ensures ReportOf(at, OddTime(row).Fault()) ==
      EnumRejections(at, row, TimeOfDayField, exists t :: GivesText(row, TimeOfDayField, TimeOfDayText(t)))
    ensures ReportOf(at, OddSurface(row).Fault()) ==
      EnumRejections(at, row, RoadSurfaceField, exists x :: GivesText(row, RoadSurfaceField, RoadSurfaceText(x)))
  {
    WeatherReport(at, row);
    TimeReport(at, row);
    SurfaceReport(at, row);
  }

  lemma WeatherReport(at: Origin, row: RawRow)
    ensures ReportOf(at, OddWeather(row).Fault()) ==
      EnumRejections(at, row, WeatherField, exists w :: GivesText(row, WeatherField, WeatherText(w)))
  {
    if OddWeather(row).Good? {
      OddEnumsAre(row, OddWeather(row).value, Day, DryRoad);
    }
    if w :| GivesText(row, WeatherField, WeatherText(w)) {
      OddEnumsAre(row, w, Day, DryRoad);
    }
    hide WeatherText, GivesText;
  }

  lemma TimeReport(at: Origin, row: RawRow)
    ensures ReportOf(at, OddTime(row).Fault()) ==
      EnumRejections(at, row, TimeOfDayField, exists t :: GivesText(row, TimeOfDayField, TimeOfDayText(t)))
  {
    if OddTime(row).Good? {
      OddEnumsAre(row, Sunny, OddTime(row).value, DryRoad);
    }
    if t :| GivesText(row, TimeOfDayField, TimeOfDayText(t)) {
      OddEnumsAre(row, Sunny, t, DryRoad);
    }
    hide TimeOfDayText, GivesText;
  }

  lemma SurfaceReport(at: Origin, row: RawRow)
    ensures ReportOf(at, OddSurface(row).Fault()) ==
      EnumRejections(at, row, RoadSurfaceField, exists x :: GivesText(row, RoadSurfaceField, RoadSurfaceText(x)))
  {
    if OddSurface(row).Good? {
      OddEnumsAre(row, Sunny, Day, OddSurface(row).value);
    }
    if x :| GivesText(row, RoadSurfaceField, RoadSurfaceText(x)) {
      OddEnumsAre(row, Sunny, Day, x);
    }
    hide RoadSurfaceText, GivesText;
  }

  lemma OddTagNeverStops(lib: Library, taskId: string, row: RawRow)
    requires OddOutcome(lib, taskId, row).Refused?
    ensures !OddId(lib, row).Escapes? && !OddVideoId(lib, row).Escapes?
  {
    var at, ps := OddOrigin(taskId, row), OddFaults(lib, row);
    NothingStops(at.source, ps);
    hide OddId, OddVideoId, OddWeather, OddTime, OddSurface, Reports, FirstStop;
    assert !Stops(at.source, ps[0]) && !Stops(at.source, ps[1]);
  }

  /** A refused odd tag row has exactly these rejections, in this order. */
  lemma OddTagRejectionsAreExact(lib: Library, taskId: string, row: RawRow)
    requires OddOutcome(lib, taskId, row).Refused?
    ensures OddOutcome(lib, taskId, row).rejections == OddTagRejections(lib, taskId, row)
  {
    var at, ps := OddOrigin(taskId, row), OddFaults(lib, row);
    OddTagNeverStops(lib, taskId, row);
    ReportsOfSix(at, ps[0], ps[1], ps[2], ps[3], ps[4], Good(()));
    hide OddId, OddVideoId, OddWeather, OddTime, OddSurface, ReportOf, Reports, Record, Unless;
    OddIdReport(at, lib, row);
    OddVideoIdReport(at, lib, row);
    OddEnumReports(at, row);
    hide GivesInt, GivesPaddedId, GivesText, EnumRejections, FirstStop, WeatherText, TimeOfDayText, RoadSurfaceText;
  }

  /* ---- selections ---- */

  /** What both schemas have in common: id, date, path. */
  ghost function IdRejections(at: Origin, row: RawRow): seq<Rejection> {
    Unless(exists n :: GivesSelectionId(row, n), Record(at, InvalidFormat, Id))
  }

  ghost function DateRejections(at: Origin, lib: Library, row: RawRow): seq<Rejection> {
    Unless(exists t :: GivesDate(lib, row, RecordedAt, t), Record(at, InvalidFormat, RecordedAt))
  }

  ghost function PathRejections(at: Origin, row: RawRow): seq<Rejection> {
    Unless(exists path :: GivesPath(row, path), Record(at, InvalidFormat, SourcePathField))
  }

  /** An unknown unit is named as such, if there is a value at all. */
  ghost function SensorTemperatureRejections(at: Origin, lib: Library, sensor: RawRow): seq<Rejection> {
    Unless(exists t :: GivesSensorTemperature(lib, sensor, t),
           Record(at, InvalidFormat, if HasUnknownUnit(sensor) then SensorTemperatureUnit else SensorTemperature))
  }

  predicate HasUnknownUnit(sensor: RawRow) {
    IsDictAt(sensor, TemperatureField) &&
      var data := sensor[TemperatureField].entries;
      ValueField in data && !IsIn(data, "F") && !IsIn(data, "C")
  }

  ghost function SensorWiperRejections(at: Origin, lib: Library, sensor: RawRow): seq<Rejection> {
    Unless(exists active, level :: GivesSensorWiper(lib, sensor, active, level), Record(at, InvalidFormat, SensorWiper))
  }

  function FlagRejections(at: Origin, row: RawRow, key: Field): seq<Rejection> {
    Unless(key in row, Record(at, MissingRequiredField, key))
  }

  ghost function FlatRejections(at: Origin, lib: Library, row: RawRow): seq<Rejection> {
    IdRejections(at, row) + DateRejections(at, lib, row) +
    Unless(exists t :: GivesCelsius(lib, row, TemperatureField, t), Record(at, InvalidFormat, TemperatureField)) +
    FlagRejections(at, row, IsWiperOn) + FlagRejections(at, row, HeadlightsOn) + PathRejections(at, row)
  }

  ghost function SensorRejections(at: Origin, lib: Library, row: RawRow): seq<Rejection>
    requires Sensor in row
  {
    IdRejections(at, row) + DateRejections(at, lib, row) + PathRejections(at, row) +
    if !row[Sensor].Dict? then [Record(at, InvalidFormat, Sensor)]
    else
      var sensor := row[Sensor].entries;
      SensorTemperatureRejections(at, lib, sensor) + SensorWiperRejections(at, lib, sensor) +
      FlagRejections(at, sensor, Headlights)
  }

  /** What a refused selection row is rejected for. */
  ghost function SelectionRejections(lib: Library, taskId: string, row: RawRow): seq<Rejection> {
    var at := Origin(taskId, SelectionStage, Shown(row, Id));
    if Sensor in row then SensorRejections(at, lib, row)
    else if TemperatureField in row then FlatRejections(at, lib, row)
    else [Record(at, UnknownSchema, Schema)]
  }

  lemma IdReport(at: Origin, row: RawRow)
    ensures ReportOf(at, SelectionId(row).Fault()) == IdRejections(at, row)
  {
    if SelectionId(row).Good? {
      SelectionIdIs(row, SelectionId(row).value);
    }
    if n :| GivesSelectionId(row, n) {
      SelectionIdIs(row, n);
    }
  }

  lemma PathReport(at: Origin, row: RawRow)
    requires !SelectionPath(row).Escapes?
    ensures ReportOf(at, SelectionPath(row).Fault()) == PathRejections(at, row)
  {
    if SelectionPath(row).Good? {
      PathIs(row, SelectionPath(row).value);
    }
    if path :| GivesPath(row, path) {
      PathIs(row, path);
    }
  }

  lemma CelsiusReport(at: Origin, lib: Library, row: RawRow)
    requires IsV1(row) && !TemperaturePart(lib, row).Escapes?
    ensures ReportOf(at, TemperaturePart(lib, row).Fault()) ==
      Unless(exists t :: GivesCelsius(lib, row, TemperatureField, t), Record(at, InvalidFormat, TemperatureField))
  {
    var a := CelsiusAttempt(lib, row, TemperatureField);
    hide CelsiusAttempt, GivesCelsius;
    if a.Done? {
      CelsiusIs(lib, row, TemperatureField, a.value);
    }
    if t :| GivesCelsius(lib, row, TemperatureField, t) {
      CelsiusIs(lib, row, TemperatureField, t);
    }
  }

  lemma SensorTemperatureFault(lib: Library, sensor: RawRow)
    requires V2Temperature(lib, sensor).Bad?
    ensures V2Temperature(lib, sensor) ==
      Bad(InvalidFormat, if HasUnknownUnit(sensor) then SensorTemperatureUnit else SensorTemperature)
  {
    hide CelsiusAttempt, FromFahrenheit;
  }

  lemma SensorTemperatureReport(at: Origin, lib: Library, sensor: RawRow)
    requires !V2Temperature(lib, sensor).Escapes?
    ensures ReportOf(at, V2Temperature(lib, sensor).Fault()) == SensorTemperatureRejections(at, lib, sensor)
  {
    var p := V2Temperature(lib, sensor);
    if p.Bad? {
      SensorTemperatureFault(lib, sensor);
    }
    hide V2Temperature, GivesSensorTemperature, HasUnknownUnit;
    if p.Good? {
      SensorTemperatureIs(lib, sensor, p.value);
    }
    if t :| GivesSensorTemperature(lib, sensor, t) {
      SensorTemperatureIs(lib, sensor, t);
    }
  }

  lemma SensorWiperFault(lib: Library, sensor: RawRow)
    ensures V2Wiper(lib, sensor).Bad? ==> V2Wiper(lib, sensor) == Bad(InvalidFormat, SensorWiper)
    ensures V2Wiper(lib, sensor).Good? ==> V2Wiper(lib, sensor).value.level.Some?
  {
    hide ToInt, Truthy;
  }

  lemma SensorWiperReport(at: Origin, lib: Library, sensor: RawRow)
    requires !V2Wiper(lib, sensor).Escapes?
    ensures ReportOf(at, V2Wiper(lib, sensor).Fault()) == SensorWiperRejections(at, lib, sensor)
  {
    var p := V2Wiper(lib, sensor);
    SensorWiperFault(lib, sensor);
    hide V2Wiper, GivesSensorWiper;
    if p.Good? {
      SensorWiperIs(lib, sensor, p.value);
    }
    if active, level :| GivesSensorWiper(lib, sensor, active, level) {
      SensorWiperIs(lib, sensor, WiperState(active, Some(level)));
    }
  }

  lemma FlagReport(at: Origin, row: RawRow, key: Field)
    ensures ReportOf(at, ParseBool(row, key).Fault()) == FlagRejections(at, row, key)
  {
  }

  lemma SelectionNeverStops(lib: Library, taskId: string, row: RawRow)
    requires SelectionOutcome(lib, taskId, row).Refused?
    ensures forall i :: 0 <= i < |SelectionFaults(lib, row)| ==> !SelectionFaults(lib, row)[i].Escapes?
  {
    NothingStops(SelectionOrigin(taskId, row).source, SelectionFaults(lib, row));
    hide SelectionFaults, FirstStop, Reports;
  }

  lemma ReportsAreListed(lib: Library, taskId: string, row: RawRow)
    requires SelectionOutcome(lib, taskId, row).Refused?
    ensures SelectionOutcome(lib, taskId, row).rejections ==
      Reports(Origin(taskId, SelectionStage, Shown(row, Id)), SelectionFaults(lib, row))
  {
    hide SelectionFaults, FirstStop, Reports;
  }

  ghost predicate NothingEscapes(ps: seq<Parsed<()>>) {
    forall i :: 0 <= i < |ps| ==> !ps[i].Escapes?
  }

  lemma FlatRowReports(at: Origin, lib: Library, row: RawRow)
    requires IsV1(row) && NothingEscapes(SelectionFaults(lib, row))
    ensures Reports(at, SelectionFaults(lib, row)) == FlatRejections(at, lib, row)
  {
    var ps := SelectionFaults(lib, row);
    hide SelectionId, ParseDate, V1Temperature, SelectionPath, GivesCelsius, GivesDate, Reports, ReportOf, Unless;
    hide FlagRejections, IdRejections, PathRejections, Record, ParseBool;
    assert !ps[2].Escapes? && !ps[5].Escapes?;
    ReportsOfSix(at, ps[0], ps[1], ps[2], ps[3], ps[4], ps[5]);
    IdReport(at, row);
    DateReport(at, lib, row, RecordedAt);
    CelsiusReport(at, lib, row);
    assert ps[3] == ParseBool(row, IsWiperOn).Fault();
    FlagReport(at, row, IsWiperOn);
    FlagReport(at, row, HeadlightsOn);
    PathReport(at, row);
  }

  lemma SensorRowReports(at: Origin, lib: Library, row: RawRow)
    requires IsDictAt(row, Sensor) && NothingEscapes(SelectionFaults(lib, row))
    ensures Reports(at, SelectionFaults(lib, row)) == SensorRejections(at, lib, row)
  {
    var ps, sensor := SelectionFaults(lib, row), row[Sensor].entries;
    hide SelectionId, ParseDate, V2Temperature, V2Wiper, SelectionPath, GivesDate, Reports, ReportOf, Unless;
    hide FlagRejections, IdRejections, PathRejections, Record, ParseBool, SensorTemperatureRejections;
    hide SensorWiperRejections;
    assert !ps[2].Escapes? && !ps[3].Escapes? && !ps[4].Escapes?;
    ReportsOfSix(at, ps[0], ps[1], ps[2], ps[3], ps[4], ps[5]);
    IdReport(at, row);
    DateReport(at, lib, row, RecordedAt);
    PathReport(at, row);
    SensorTemperatureReport(at, lib, sensor);
    SensorWiperReport(at, lib, sensor);
    FlagReport(at, sensor, Headlights);
  }

  lemma NoDictReports(at: Origin, lib: Library, row: RawRow)
    requires IsV2(row) && !row[Sensor].Dict? && NothingEscapes(SelectionFaults(lib, row))
    ensures Reports(at, SelectionFaults(lib, row)) == SensorRejections(at, lib, row)
  {
    var ps := SelectionFaults(lib, row);
    hide SelectionId, ParseDate, SelectionPath, GivesDate, Reports, Unless, IdRejections, PathRejections;
    assert !ps[2].Escapes?;
    ReportsOfFour(at, ps[0], ps[1], ps[2], ps[3]);
    IdReport(at, row);
    DateReport(at, lib, row, RecordedAt);
    PathReport(at, row);
  }

  /** A refused selection row has exactly these rejections, in this order. */
  lemma SelectionRejectionsAreExact(lib: Library, taskId: string, row: RawRow)
    requires SelectionOutcome(lib, taskId, row).Refused?
    ensures SelectionOutcome(lib, taskId, row).rejections == SelectionRejections(lib, taskId, row)
  {
    var at, ps := Origin(taskId, SelectionStage, Shown(row, Id)), SelectionFaults(lib, row);
    SelectionNeverStops(lib, taskId, row);
    ReportsAreListed(lib, taskId, row);
    hide SelectionOutcome, FlatRejections, SensorRejections;
    if Sensor in row {
      hide SelectionFaults;
      if row[Sensor].Dict? {
        SensorRowReports(at, lib, row);
      } else {
        NoDictReports(at, lib, row);
      }
    } else if TemperatureField in row {
      hide SelectionFaults;
      FlatRowReports(at, lib, row);
    } else {
      OneMoreReport(at, [], ps[0]);
      assert [] + [ps[0]] == ps;
    }
  }

  /* ---- the exceptions ---- */

  /** Only values that a domain object refuses, and empty ids, end in a domain
      error, which is not retried; the other exceptions are not domain errors. */
  lemma LabelErrorIsExact(lib: Library, taskId: string, row: RawRow)
    requires LabelOutcome(lib, taskId, row).Raised?
    ensures LabelOutcome(lib, taskId, row).error ==
      if BadLabelVideo(lib, row) then if row[VideoIdField] == Float(Infinite) then OtherError else DomainError
      else if BadCount(lib, row) || (AvgConfidence in row && ToFloat(lib, row[AvgConfidence]).Raise?) then OtherError
      else DomainError
  {
    var source, ps := LabelOrigin(taskId, row).source, LabelFaults(lib, row);
    LabelRefinerCollectsErrors(lib, taskId, row);
    var i: nat :| IsFirstStop(source, ps, i) && LabelOutcome(lib, taskId, row).error == ErrorOf(ps[i]);
    LabelEscapes(lib, row);
    LabelErrors(lib, row);
    hide LabelVideoId, LabelClass, LabelCount, LabelConfidence, ParseDate, LabelOutcome, BadLabelVideo, BadCount;
    hide BadConfidence, Reports;
    assert i == 0 || i == 1 || i == 2 || i == 3 || i == 4;
    assert i > 0 ==> !Stops(source, ps[0]);
    assert i > 2 ==> !Stops(source, ps[2]);
  }

  lemma {:induction false} NoneIsUnlinked(at: Origin, ps: seq<Parsed<()>>)
    requires forall p :: p in ps ==> p.Bad? ==> p.reason != UnlinkedRecord
    ensures forall r :: r in Reports(at, ps) ==> r.reason != UnlinkedRecord
    decreases |ps|
  {
    if ps != [] {
      NoneIsUnlinked(at, ps[..|ps| - 1]);
    }
  }

  /** No refiner reports a missing link. */
  lemma RefinersKnowNoLinks(lib: Library, taskId: string, stage: Stage, row: RawRow)
    requires RefineRow(lib, taskId, stage, row).Refused?
    ensures forall r :: r in RefineRow(lib, taskId, stage, row).rejections ==> r.reason != UnlinkedRecord
  {
    match stage
    case SelectionStage =>
      SelectionFaultReasons(lib, row);
      hide SelectionFaults, FirstStop, Reports;
      NoneIsUnlinked(SelectionOrigin(taskId, row), SelectionFaults(lib, row));
    case OddTaggingStage =>
      OddFaultReasons(lib, row);
      hide OddFaults, FirstStop, Reports, OddId;
      NoneIsUnlinked(OddOrigin(taskId, row), OddFaults(lib, row));
    case AutoLabelingStage =>
      LabelFaultReasons(lib, row);
      hide LabelFaults, FirstStop, Reports;
      NoneIsUnlinked(LabelOrigin(taskId, row), LabelFaults(lib, row));
  }

  lemma SelectionFaultReasons(lib: Library, row: RawRow)
    ensures forall p :: p in SelectionFaults(lib, row) && p.Bad? ==> p.reason != UnlinkedRecord
  {
    hide SelectionIdAttempt, DateAttempt, PathAttempt, CelsiusAttempt, V2WiperAttempt, FromFahrenheit, V2Value, V2Unit;
  }

  lemma OddFaultReasons(lib: Library, row: RawRow)
    ensures forall p :: p in OddFaults(lib, row) && p.Bad? ==> p.reason != UnlinkedRecord
  {
    hide OddIdAttempt, OddVideoIdAttempt, WeatherAttempt, TimeAttempt, SurfaceAttempt;
  }

  lemma LabelFaultReasons(lib: Library, row: RawRow)
    ensures forall p :: p in LabelFaults(lib, row) && p.Bad? ==> p.reason != UnlinkedRecord
  {
    hide LabelVideoIdAttempt, LabelClassAttempt, FloatAt, ConfidenceAttempt, DateAttempt;
  }

  lemma LabelErrors(lib: Library, row: RawRow)
    ensures LabelVideoId(lib, row).Escapes? ==> VideoIdField in row
    ensures LabelVideoId(lib, row).Escapes? ==>
      LabelVideoId(lib, row).error == if row[VideoIdField] == Float(Infinite) then OtherError else DomainError
    ensures LabelCount(lib, row).Escapes? ==> LabelCount(lib, row).error == OtherError
    ensures LabelConfidence(lib, row).Escapes? ==> AvgConfidence in row
    ensures LabelConfidence(lib, row).Escapes? ==>
      LabelConfidence(lib, row).error == if ToFloat(lib, row[AvgConfidence]).Raise? then OtherError else DomainError
  {
    OnlyInfinityOverflows(lib);
    ConversionErrors(lib);
    hide ToInt, ToFloat;
  }

  lemma OddTagErrorIsExact(lib: Library, taskId: string, row: RawRow)
    requires OddOutcome(lib, taskId, row).Raised?
    ensures OddOutcome(lib, taskId, row).error ==
      if Id in row && row[Id] == Float(Infinite) then OtherError else DomainError
  {
    var source, ps := OddOrigin(taskId, row).source, OddFaults(lib, row);
    ParsersDecide(OddOrigin(taskId, row), ps);
    OddEscapes(lib, taskId, row);
    OddErrors(lib, row);
    hide OddId, OddVideoId, OddWeather, OddTime, OddSurface, Reports, FirstStop, BadOddVideo;
    if i: nat :| IsFirstStop(source, ps, i) && FirstStop(source, ps) == Some(ErrorOf(ps[i])) {
      assert i == 0 || i == 1 || i == 2 || i == 3 || i == 4;
      assert i > 0 ==> !Stops(source, ps[0]);
    }
  }

  lemma OddErrors(lib: Library, row: RawRow)
    ensures OddId(lib, row).Escapes? ==> OddId(lib, row).error == OtherError
    ensures OddId(lib, row).Escapes? <==> Id in row && row[Id] == Float(Infinite)
    ensures OddVideoId(lib, row).Escapes? ==> OddVideoId(lib, row).error == DomainError
  {
    OnlyInfinityOverflows(lib);
    hide ToInt, ParseInt, StripZeros;
    PaddedErrors(lib);
  }

  lemma PaddedErrors(lib: Library)
    ensures forall s :: ParseInt(lib, s).Raise? ==> ParseInt(lib, s).exc == ValueErr
  {
  }

  lemma SelectionErrorIsExact(lib: Library, taskId: string, row: RawRow)
    requires SelectionOutcome(lib, taskId, row).Raised?
    ensures SelectionOutcome(lib, taskId, row).error ==
      if Id in row && row[Id] == Text("") then DomainError else OtherError
  {
    var source, ps := SelectionOrigin(taskId, row).source, SelectionFaults(lib, row);
    SelectionRefinerCollectsErrors(lib, taskId, row);
    var i: nat :| IsFirstStop(source, ps, i) && SelectionOutcome(lib, taskId, row).error == ErrorOf(ps[i]);
    SelectionErrors(lib, row);
    hide SelectionOutcome, SelectionFaults, Reports;
    assert IsEmptySource(source) ==> Stops(source, ps[0]);
  }

  lemma SelectionErrors(lib: Library, row: RawRow)
    ensures var ps := SelectionFaults(lib, row);
      && (forall i :: 0 <= i < |ps| && ps[i].Escapes? ==> ps[i].error == OtherError)
      && |ps| > 0 && (Id in row && row[Id] == Text("") ==> ps[0].Bad?)
  {
    PathErrors(row);
    if IsV1(row) || IsV2(row) {
      SelectionEscapes(lib, row);
      TemperatureErrors(lib, row);
    }
    hide SelectionId, ParseDate, TemperaturePart, WiperPart, HeadlightsPart, SelectionPath, HugeTemperature, BadLevel;
    hide BadPath;
  }

  lemma PathErrors(row: RawRow)
    ensures SelectionPath(row).Escapes? ==> SelectionPath(row).error == OtherError
  {
  }

  lemma TemperatureErrors(lib: Library, row: RawRow)
    ensures TemperaturePart(lib, row).Escapes? ==> TemperaturePart(lib, row).error == OtherError
    ensures WiperPart(lib, row).Escapes? ==> WiperPart(lib, row).error == OtherError
  {
    hide ToFloat, ToInt, NumberOf, Rounded, Truthy;
  }
}
