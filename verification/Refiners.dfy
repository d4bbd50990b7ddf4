/** The three refiners. The functions say what each field parser and each row
    ends in; the methods go through the fields as the program does. */
module Refiners {
  import opened Domain
  import opened Tables
  import opened Parsing
  import opened Collecting

  /* ---- labels ---- */

  function LabelOrigin(taskId: string, row: RawRow): Origin {
    Origin(taskId, AutoLabelingStage, Paired(SourceAt(row, VideoIdField), SourceAt(row, ObjectClassField)))
  }

  function LabelVideoId(lib: Library, row: RawRow): Parsed<int> {
    Guard(LabelVideoIdAttempt(lib, row), false, VideoIdField)
  }

  function LabelVideoIdAttempt(lib: Library, row: RawRow): Attempt<int> {
    var v :- Get(row, VideoIdField);
    var n :- ToInt(lib, v);
    VideoIdOf(n)
  }

  function LabelClass(row: RawRow): Parsed<ObjectClass> {
    GuardEnum(LabelClassAttempt(row), ObjectClassField)
  }

  function LabelClassAttempt(row: RawRow): Attempt<ObjectClass> {
    var v :- Get(row, ObjectClassField);
    ObjectClassOf(v)
  }

  function FloatAt(lib: Library, row: RawRow, key: Field): Attempt<Number> {
    var v :- Get(row, key);
    ToFloat(lib, v)
  }

  /** `int(raw)` stands outside any `try`. */
  function LabelCount(lib: Library, row: RawRow): Parsed<int> {
    match Guard(FloatAt(lib, row, ObjCount), false, ObjCount)
    case Bad(reason, field) => Bad(reason, field)
    case Escapes(e) => Escapes(e)
    case Good(raw) =>
      match raw
      case NotANumber => Escapes(ValueErr.Kind())
      case Infinite => Escapes(OverflowErr.Kind())
      case Finite(r) =>
        if r != Truncated(r) as real then Bad(FractionalObjCount, ObjCount)
        else if ObjectCountOf(Truncated(r)).Raise? then Bad(NegativeObjCount, ObjCount)
        else Good(Truncated(r))
  }

  function LabelConfidence(lib: Library, row: RawRow): Parsed<real> {
    Guard(ConfidenceAttempt(lib, row), false, AvgConfidence)
  }

  function ConfidenceAttempt(lib: Library, row: RawRow): Attempt<real> {
    var n :- FloatAt(lib, row, AvgConfidence);
    ConfidenceOf(n)
  }

  function ParseDate(lib: Library, row: RawRow, key: Field): Parsed<int> {
    Guard(DateAttempt(lib, row, key), true, key)
  }

  function DateAttempt(lib: Library, row: RawRow, key: Field): Attempt<int> {
    var v :- Get(row, key);
    ToDate(lib, v)
  }

  function LabelFaults(lib: Library, row: RawRow): seq<Parsed<()>> {
    [LabelVideoId(lib, row).Fault(), LabelClass(row).Fault(), LabelCount(lib, row).Fault(),
     LabelConfidence(lib, row).Fault(), ParseDate(lib, row, LabeledAt).Fault()]
  }

  predicate AllLabelParts(lib: Library, row: RawRow) {
    LabelVideoId(lib, row).Good? && LabelClass(row).Good? && LabelCount(lib, row).Good? &&
    LabelConfidence(lib, row).Good? && ParseDate(lib, row, LabeledAt).Good?
  }

  function LabelRow(lib: Library, taskId: string, row: RawRow): Row
    requires AllLabelParts(lib, row)
  {
    Label(taskId, LabelVideoId(lib, row).value, LabelClass(row).value, LabelCount(lib, row).value,
          LabelConfidence(lib, row).value, ParseDate(lib, row, LabeledAt).value)
  }

  /** What `refine_single` ends in: the first escaping exception if there is
      one, the label if every parser succeeds, otherwise the rejections. */
  function LabelOutcome(lib: Library, taskId: string, row: RawRow): Outcome {
    var at, ps := LabelOrigin(taskId, row), LabelFaults(lib, row);
    match FirstStop(at.source, ps)
    case Some(e) => Raised(e)
    case None =>
      if AllLabelParts(lib, row) then Refined(LabelRow(lib, taskId, row)) else Refused(Reports(at, ps))
  }

  class LabelRefiner {
    const lib: Library

    constructor (lib: Library)
      ensures this.lib == lib
    {
      this.lib := lib;
    }

    method RefineSingle(taskId: string, row: RawRow) returns (o: Outcome)
      ensures o == LabelOutcome(lib, taskId, row)
    {
      var rejections := new Rejections();
      var at := LabelOrigin(taskId, row);
      ghost var ps := LabelFaults(lib, row);
      NothingNoted(at, ps);
      hide LabelVideoId, LabelClass, LabelCount, LabelConfidence, ParseDate, LabelOrigin, FirstStop, Reports, Noted;
      hide Stops;
      var videoId := rejections.Note(LabelVideoId(lib, row), at, ps, 0);
      if videoId.Threw? { return Raised(videoId.error); }
      var objectClass := rejections.Note(LabelClass(row), at, ps, 1);
      if objectClass.Threw? { return Raised(objectClass.error); }
      var count := rejections.Note(LabelCount(lib, row), at, ps, 2);
      if count.Threw? { return Raised(count.error); }
      var confidence := rejections.Note(LabelConfidence(lib, row), at, ps, 3);
      if confidence.Threw? { return Raised(confidence.error); }
      var labeledAt := rejections.Note(ParseDate(lib, row, LabeledAt), at, ps, 4);
      if labeledAt.Threw? { return Raised(labeledAt.error); }
      AllNoted(at, ps, rejections.list);
      if rejections.list != [] {
        return Refused(rejections.list);
      }
      assert forall i :: 0 <= i < 5 ==> ps[i].Good?;
      assert ps[0].Good? && ps[1].Good? && ps[2].Good? && ps[3].Good? && ps[4].Good?;
      o := Refined(Label(taskId, videoId.value.value, objectClass.value.value, count.value.value,
                         confidence.value.value, labeledAt.value.value));
    }
  }

  /* ---- odd tags ---- */

  function OddOrigin(taskId: string, row: RawRow): Origin {
    Origin(taskId, OddTaggingStage, SourceAt(row, Id))
  }

  function OddId(lib: Library, row: RawRow): Parsed<int> {
    Guard(OddIdAttempt(lib, row), false, Id)
  }

  function OddIdAttempt(lib: Library, row: RawRow): Attempt<int> {
    var v :- Get(row, Id);
    ToInt(lib, v)
  }

  /** `str(v).lstrip("0") or "0"`, read as an integer. Only texts and integers
      print as one. */
  function OddVideoId(lib: Library, row: RawRow): Parsed<int> {
    Guard(OddVideoIdAttempt(lib, row), false, VideoIdField)
  }

  function OddVideoIdAttempt(lib: Library, row: RawRow): Attempt<int> {
    var v :- Get(row, VideoIdField);
    var n :- match v
      case Whole(i) => Done(i)
      case Text(s) => ParseInt(lib, if StripZeros(s) == "" then "0" else StripZeros(s))
      case _ => Raise(ValueErr);
    VideoIdOf(n)
  }

  function OddWeather(row: RawRow): Parsed<Weather> {
    GuardEnum(WeatherAttempt(row), WeatherField)
  }

  function WeatherAttempt(row: RawRow): Attempt<Weather> {
    var v :- Get(row, WeatherField);
    WeatherOf(v)
  }

  function OddTime(row: RawRow): Parsed<TimeOfDay> {
    GuardEnum(TimeAttempt(row), TimeOfDayField)
  }

  function TimeAttempt(row: RawRow): Attempt<TimeOfDay> {
    var v :- Get(row, TimeOfDayField);
    TimeOfDayOf(v)
  }

  function OddSurface(row: RawRow): Parsed<RoadSurface> {
    GuardEnum(SurfaceAttempt(row), RoadSurfaceField)
  }

  function SurfaceAttempt(row: RawRow): Attempt<RoadSurface> {
    var v :- Get(row, RoadSurfaceField);
    RoadSurfaceOf(v)
  }

  function OddFaults(lib: Library, row: RawRow): seq<Parsed<()>> {
    [OddId(lib, row).Fault(), OddVideoId(lib, row).Fault(), OddWeather(row).Fault(), OddTime(row).Fault(),
     OddSurface(row).Fault()]
  }

  predicate AllOddParts(lib: Library, row: RawRow) {
    OddId(lib, row).Good? && OddVideoId(lib, row).Good? && OddWeather(row).Good? && OddTime(row).Good? &&
    OddSurface(row).Good?
  }

  function OddRow(lib: Library, taskId: string, row: RawRow): Row
    requires AllOddParts(lib, row)
  {
    OddTag(taskId, OddVideoId(lib, row).value, OddWeather(row).value, OddTime(row).value, OddSurface(row).value)
  }

  /** The tag's own id is checked last, outside the parsers, and not stored. */
  function OddOutcome(lib: Library, taskId: string, row: RawRow): Outcome {
    var at, ps := OddOrigin(taskId, row), OddFaults(lib, row);
    match FirstStop(at.source, ps)
    case Some(e) => Raised(e)
    case None =>
      if !AllOddParts(lib, row) then Refused(Reports(at, ps))
      else if OddId(lib, row).value <= 0 then Raised(DomainError)
      else Refined(OddRow(lib, taskId, row))
  }

  class OddTagRefiner {
    const lib: Library

    constructor (lib: Library)
      ensures this.lib == lib
    {
      this.lib := lib;
    }

    method RefineSingle(taskId: string, row: RawRow) returns (o: Outcome)
      ensures o == OddOutcome(lib, taskId, row)
    {
      var rejections := new Rejections();
      var at := OddOrigin(taskId, row);
      ghost var ps := OddFaults(lib, row);
      NothingNoted(at, ps);
      hide OddId, OddVideoId, OddWeather, OddTime, OddSurface, OddOrigin, FirstStop, Reports, Noted, Stops;
      var id := rejections.Note(OddId(lib, row), at, ps, 0);
      if id.Threw? { return Raised(id.error); }
      var videoId := rejections.Note(OddVideoId(lib, row), at, ps, 1);
      if videoId.Threw? { return Raised(videoId.error); }
      var weather := rejections.Note(OddWeather(row), at, ps, 2);
      if weather.Threw? { return Raised(weather.error); }
      var timeOfDay := rejections.Note(OddTime(row), at, ps, 3);
      if timeOfDay.Threw? { return Raised(timeOfDay.error); }
      var roadSurface := rejections.Note(OddSurface(row), at, ps, 4);
      if roadSurface.Threw? { return Raised(roadSurface.error); }
      AllNoted(at, ps, rejections.list);
      if rejections.list != [] {
        return Refused(rejections.list);
      }
      assert forall i :: 0 <= i < 5 ==> ps[i].Good?;
      assert ps[0].Good? && ps[1].Good? && ps[2].Good? && ps[3].Good? && ps[4].Good?;
      if id.value.value <= 0 {
        return Raised(DomainError);
      }
      o := Refined(OddTag(taskId, videoId.value.value, weather.value.value, timeOfDay.value.value,
        roadSurface.value.value));
    }
  }

  /* ---- selections ---- */

  function SelectionOrigin(taskId: string, row: RawRow): Origin {
    Origin(taskId, SelectionStage, SourceAt(row, Id))
  }

  function SelectionId(row: RawRow): Parsed<int> {
    Guard(SelectionIdAttempt(row), true, Id)
  }

  function SelectionIdAttempt(row: RawRow): Attempt<int> {
    var v :- Get(row, Id);
    SelectionIdOf(v)
  }

  function SelectionPath(row: RawRow): Parsed<string> {
    Guard(PathAttempt(row), true, SourcePathField)
  }

  function PathAttempt(row: RawRow): Attempt<string> {
    var v :- Get(row, SourcePathField);
    SourcePathOf(v)
  }

  function CelsiusAttempt(lib: Library, row: RawRow, key: Field): Attempt<real> {
    var n :- FloatAt(lib, row, key);
    FromCelsius(n)
  }

  function V1Temperature(lib: Library, row: RawRow): Parsed<real> {
    Guard(CelsiusAttempt(lib, row, TemperatureField), true, TemperatureField)
  }

  function V1Wiper(row: RawRow): Parsed<WiperState> {
    match ParseBool(row, IsWiperOn)
    case Good(active) => Good(WiperState(active, None))
    case Bad(reason, field) => Bad(reason, field)
    case Escapes(e) => Escapes(e)
  }

  /** `temp_data["value"]`; it is a dict when this succeeds. */
  function V2Value(sensor: RawRow): Attempt<Value> {
    var data :- Get(sensor, TemperatureField);
    Index(data, ValueField)
  }

  function V2Unit(sensor: RawRow): Value
    requires V2Value(sensor).Done?
  {
    if Unit in sensor[TemperatureField].entries then sensor[TemperatureField].entries[Unit] else Text("F")
  }

  /** Fahrenheit unless the unit says otherwise. */
  function V2Temperature(lib: Library, sensor: RawRow): Parsed<real> {
    var value := V2Value(sensor);
    if value.Raise? then Guard(value.PropagateFailure(), true, SensorTemperature)
    else if V2Unit(sensor) == Text("F") then Guard(FromFahrenheit(value.value), true, SensorTemperature)
    else if V2Unit(sensor) == Text("C") then
      Guard(CelsiusAttempt(lib, sensor[TemperatureField].entries, ValueField), true, SensorTemperature)
    else Bad(InvalidFormat, SensorTemperatureUnit)
  }

  function V2Wiper(lib: Library, sensor: RawRow): Parsed<WiperState> {
    Guard(V2WiperAttempt(lib, sensor), true, SensorWiper)
  }

  function V2WiperAttempt(lib: Library, sensor: RawRow): Attempt<WiperState> {
    var data :- Get(sensor, Wiper);
    var active :- Index(data, IsActive);
    var level :- Index(data, Level);
    var n :- ToInt(lib, level);
    WiperOf(Truthy(active), Some(n))
  }

  predicate IsV2(row: RawRow) {
    Sensor in row
  }

  predicate IsV1(row: RawRow) {
    !IsV2(row) && TemperatureField in row
  }

  /** The parts that depend on the schema. */
  function TemperaturePart(lib: Library, row: RawRow): Parsed<real> {
    if !IsV2(row) then V1Temperature(lib, row)
    else if row[Sensor].Dict? then V2Temperature(lib, row[Sensor].entries) else Bad(InvalidFormat, Sensor)
  }

  function WiperPart(lib: Library, row: RawRow): Parsed<WiperState> {
    if !IsV2(row) then V1Wiper(row)
    else if row[Sensor].Dict? then V2Wiper(lib, row[Sensor].entries) else Bad(InvalidFormat, Sensor)
  }

  function HeadlightsPart(row: RawRow): Parsed<bool> {
    if !IsV2(row) then ParseBool(row, HeadlightsOn)
    else if row[Sensor].Dict? then ParseBool(row[Sensor].entries, Headlights) else Bad(InvalidFormat, Sensor)
  }

  /** The parsers in the order in which they run. A row of neither schema is
      refused at once; a v2 row whose sensor is no dict after its own fields. */
  function SelectionFaults(lib: Library, row: RawRow): seq<Parsed<()>> {
    if IsV2(row) && !row[Sensor].Dict? then
      [SelectionId(row).Fault(), ParseDate(lib, row, RecordedAt).Fault(), SelectionPath(row).Fault(),
       Bad(InvalidFormat, Sensor)]
    else if IsV2(row) then
      [SelectionId(row).Fault(), ParseDate(lib, row, RecordedAt).Fault(), SelectionPath(row).Fault(),
       TemperaturePart(lib, row).Fault(), WiperPart(lib, row).Fault(), HeadlightsPart(row).Fault()]
    else if IsV1(row) then
      [SelectionId(row).Fault(), ParseDate(lib, row, RecordedAt).Fault(), TemperaturePart(lib, row).Fault(),
       WiperPart(lib, row).Fault(), HeadlightsPart(row).Fault(), SelectionPath(row).Fault()]
    else [Bad(UnknownSchema, Schema)]
  }

  predicate AllSelectionParts(lib: Library, row: RawRow) {
    (IsV1(row) || IsV2(row)) && SelectionId(row).Good? && ParseDate(lib, row, RecordedAt).Good? &&
    TemperaturePart(lib, row).Good? && WiperPart(lib, row).Good? && HeadlightsPart(row).Good? &&
      SelectionPath(row).Good?
  }

  function SelectionRow(lib: Library, taskId: string, row: RawRow): Row
    requires AllSelectionParts(lib, row)
  {
    var wiper := WiperPart(lib, row).value;
    Selection(SelectionId(row).value, taskId, ParseDate(lib, row, RecordedAt).value, TemperaturePart(lib, row).value,
              wiper.active, wiper.level, HeadlightsPart(row).value, SelectionPath(row).value)
  }

  function SelectionOutcome(lib: Library, taskId: string, row: RawRow): Outcome {
    var at, ps := SelectionOrigin(taskId, row), SelectionFaults(lib, row);
    match FirstStop(at.source, ps)
    case Some(e) => Raised(e)
    case None =>
      if AllSelectionParts(lib, row) then Refined(SelectionRow(lib, taskId, row)) else Refused(Reports(at, ps))
  }

  lemma NoSensorNoRow(lib: Library, row: RawRow)
    ensures AllSelectionParts(lib, row) && IsV2(row) ==> row[Sensor].Dict?
  {
  }

  class SelectionRefiner {
    const lib: Library

    constructor (lib: Library)
      ensures this.lib == lib
    {
      this.lib := lib;
    }

    method RefineSingle(taskId: string, row: RawRow) returns (o: Outcome)
      ensures o == SelectionOutcome(lib, taskId, row)
    {
      if IsV2(row) {
        o := RefineV2(taskId, row);
      } else if IsV1(row) {
        o := RefineV1(taskId, row);
      } else {
        var rejections := new Rejections();
        var at := SelectionOrigin(taskId, row);
        ghost var ps := SelectionFaults(lib, row);
        NothingNoted(at, ps);
        hide FirstStop, Reports, Noted, Stops;
        var unknown: Parsed<()> := Bad(UnknownSchema, Schema);
        var noted := rejections.Note(unknown, at, ps, 0);
        if noted.Threw? { return Raised(noted.error); }
        AllNoted(at, ps, rejections.list);
        o := Refused(rejections.list);
      }
    }

    method RefineV1(taskId: string, row: RawRow) returns (o: Outcome)
      requires IsV1(row)
      ensures o == SelectionOutcome(lib, taskId, row)
    {
      var rejections := new Rejections();
      var at := SelectionOrigin(taskId, row);
      ghost var ps := SelectionFaults(lib, row);
      NothingNoted(at, ps);
      hide SelectionId, ParseDate, TemperaturePart, WiperPart, HeadlightsPart, SelectionPath, SelectionOrigin;
      hide FirstStop, Reports, Noted, Stops;
      var id := rejections.Note(SelectionId(row), at, ps, 0);
      if id.Threw? { return Raised(id.error); }
      var recordedAt := rejections.Note(ParseDate(lib, row, RecordedAt), at, ps, 1);
      if recordedAt.Threw? { return Raised(recordedAt.error); }
      var temperature := rejections.Note(TemperaturePart(lib, row), at, ps, 2);
      if temperature.Threw? { return Raised(temperature.error); }
      var wiper := rejections.Note(WiperPart(lib, row), at, ps, 3);
      if wiper.Threw? { return Raised(wiper.error); }
      var headlights := rejections.Note(HeadlightsPart(row), at, ps, 4);
      if headlights.Threw? { return Raised(headlights.error); }
      var path := rejections.Note(SelectionPath(row), at, ps, 5);
      if path.Threw? { return Raised(path.error); }
      AllNoted(at, ps, rejections.list);
      if rejections.list != [] {
        return Refused(rejections.list);
      }
      assert forall i :: 0 <= i < 6 ==> ps[i].Good?;
      assert ps[0].Good? && ps[1].Good? && ps[2].Good? && ps[3].Good? && ps[4].Good? && ps[5].Good?;
      var w := wiper.value.value;
      o := Refined(Selection(id.value.value, taskId, recordedAt.value.value, temperature.value.value,
                             w.active, w.level, headlights.value.value, path.value.value));
    }

    method RefineV2(taskId: string, row: RawRow) returns (o: Outcome)
      requires IsV2(row)
      ensures o == SelectionOutcome(lib, taskId, row)
    {
      var rejections := new Rejections();
      var at := SelectionOrigin(taskId, row);
      ghost var ps := SelectionFaults(lib, row);
      NothingNoted(at, ps);
      NoSensorNoRow(lib, row);
      hide SelectionId, ParseDate, TemperaturePart, WiperPart, HeadlightsPart, SelectionPath, SelectionOrigin;
      hide FirstStop, Reports, Noted, Stops;
      var id := rejections.Note(SelectionId(row), at, ps, 0);
      if id.Threw? { return Raised(id.error); }
      var recordedAt := rejections.Note(ParseDate(lib, row, RecordedAt), at, ps, 1);
      if recordedAt.Threw? { return Raised(recordedAt.error); }
      var path := rejections.Note(SelectionPath(row), at, ps, 2);
      if path.Threw? { return Raised(path.error); }
      if !row[Sensor].Dict? {
        var noSensor: Parsed<()> := Bad(InvalidFormat, Sensor);
        var noted := rejections.Note(noSensor, at, ps, 3);
        if noted.Threw? { return Raised(noted.error); }
        AllNoted(at, ps, rejections.list);
        return Refused(rejections.list);
      }
      var temperature := rejections.Note(TemperaturePart(lib, row), at, ps, 3);
      if temperature.Threw? { return Raised(temperature.error); }
      var wiper := rejections.Note(WiperPart(lib, row), at, ps, 4);
      if wiper.Threw? { return Raised(wiper.error); }
      var headlights := rejections.Note(HeadlightsPart(row), at, ps, 5);
      if headlights.Threw? { return Raised(headlights.error); }
      AllNoted(at, ps, rejections.list);
      if rejections.list != [] {
        return Refused(rejections.list);
      }
      assert forall i :: 0 <= i < 6 ==> ps[i].Good?;
      assert ps[0].Good? && ps[1].Good? && ps[2].Good? && ps[3].Good? && ps[4].Good? && ps[5].Good?;
      var w := wiper.value.value;
      o := Refined(Selection(id.value.value, taskId, recordedAt.value.value, temperature.value.value,
                             w.active, w.level, headlights.value.value, path.value.value));
    }
  }

  /** The refiner of each stage. */
  function RefineRow(lib: Library, taskId: string, stage: Stage, row: RawRow): Outcome {
    match stage
    case SelectionStage => SelectionOutcome(lib, taskId, row)
    case OddTaggingStage => OddOutcome(lib, taskId, row)
    case AutoLabelingStage => LabelOutcome(lib, taskId, row)
  }
}
