/** The refiners field by field: which raw values each column of a refined row comes
    from, and for which raw values a field is rejected and why. */
module RefinedFields {
  import opened Domain
  import opened Tables
  import opened Parsing
  import opened Collecting
  import opened Refiners

  /* ---- what a raw field gives ---- */

  /** A value from which `int` makes this number. */
  predicate ReadsInt(lib: Library, v: Value, n: int) {
    match v
    case Whole(i) => n == i
    case Flag(b) => n == if b then 1 else 0
    case Float(x) => x.Finite? && n == Truncated(x.r)
    case Text(s) => s != "" && if AllDigits(s) then n == DecimalValue(s) else lib.intOf(s) == Some(n)
    case _ => false
  }

  /** A value from which `float` makes this number. */
  predicate ReadsNumber(lib: Library, v: Value, x: real) {
    IsNumber(v, x) || (v.Text? && lib.floatOf(v.s) == Some(Finite(x)))
  }

  /** This number already; integers only if a double can be as large. */
  predicate IsNumber(v: Value, x: real) {
    match v
    case Whole(i) => x == i as real && -FloatLimit() < i < FloatLimit()
    case Flag(b) => x == if b then 1.0 else 0.0
    case Float(n) => n == Finite(x)
    case _ => false
  }

  lemma IntIs(lib: Library, v: Value, n: int)
    ensures ToInt(lib, v) == Done(n) <==> ReadsInt(lib, v, n)
  {
    hide DecimalValue, Truncated, AllDigits;
  }

  lemma OneIsSmall()
    ensures FloatLimit() > 1
  {
    FloatLimitIsHalfway();
    assert PowerOfTwo(0) == 1 && PowerOfTwo(1) == 2;
    PowersMultiply(1, 1023);
    PowerIsPositive(53);
    PowerIsPositive(971);
    PowerIsPositive(1023);
    hide PowerOfTwo, FloatLimit;
  }

  lemma {:induction false} PowerIsPositive(n: nat)
    ensures PowerOfTwo(n) >= 1
  {
    if n > 0 {
      PowerIsPositive(n - 1);
    }
  }

  lemma NumberIs(lib: Library, v: Value, x: real)
    ensures ToFloat(lib, v) == Done(Finite(x)) <==> ReadsNumber(lib, v, x)
  {
    OneIsSmall();
    hide FloatLimit;
  }

  lemma NumberAlready(v: Value, x: real)
    ensures NumberOf(v) == Done(Finite(x)) <==> IsNumber(v, x)
  {
    OneIsSmall();
    hide FloatLimit;
  }

  predicate GivesInt(lib: Library, row: RawRow, key: Field, n: int) {
    key in row && ReadsInt(lib, row[key], n)
  }

  predicate GivesNumber(lib: Library, row: RawRow, key: Field, x: real) {
    key in row && ReadsNumber(lib, row[key], x)
  }

  lemma IntAt(lib: Library, row: RawRow, key: Field)
    ensures forall n :: key in row && ToInt(lib, row[key]) == Done(n) <==> GivesInt(lib, row, key, n)
  {
    hide ToInt, ReadsInt;
    if key in row {
      forall n {
        IntIs(lib, row[key], n);
      }
    }
  }

  lemma NumberAt(lib: Library, row: RawRow, key: Field)
    ensures forall x :: FloatAt(lib, row, key) == Done(Finite(x)) <==> GivesNumber(lib, row, key, x)
  {
    hide ToFloat, ReadsNumber;
    if key in row {
      forall x {
        NumberIs(lib, row[key], x);
      }
    }
  }

  predicate GivesDate(lib: Library, row: RawRow, key: Field, at: int) {
    key in row && row[key].Text? && lib.dateOf(row[key].s) == Some(at)
  }

  predicate GivesText(row: RawRow, key: Field, s: string) {
    key in row && row[key] == Text(s)
  }

  /** A text or integer that reads as a number once its leading zeros are gone. */
  predicate GivesPaddedId(lib: Library, row: RawRow, n: int) {
    VideoIdField in row &&
      match row[VideoIdField]
      case Whole(i) => n == i
      case Text(s) => ReadsInt(lib, Text(if StripZeros(s) == "" then "0" else StripZeros(s)), n)
      case _ => false
  }

  /** An integer already; Python takes true for 1. */
  predicate GivesSelectionId(row: RawRow, n: int) {
    Id in row && n > 0 && (row[Id] == Whole(n) || (row[Id] == Flag(true) && n == 1))
  }

  predicate GivesPath(row: RawRow, path: string) {
    GivesText(row, SourcePathField, path) && |path| >= 4 && path[|path| - 4..] == ".mp4"
  }

  ghost predicate GivesCelsius(lib: Library, row: RawRow, key: Field, t: real) {
    -90.0 <= t <= 60.0 && exists x :: GivesNumber(lib, row, key, x) && t == Rounded(x)
  }

  /** A number already, in Fahrenheit. */
  ghost predicate GivesFahrenheit(row: RawRow, key: Field, t: real) {
    key in row && -90.0 <= t <= 60.0 && exists x :: IsNumber(row[key], x) && t == Rounded((x - 32.0) * 5.0 / 9.0)
  }

  predicate IsDictAt(row: RawRow, key: Field) {
    key in row && row[key].Dict?
  }

  predicate IsIn(row: RawRow, unit: string) {
    if Unit in row then row[Unit] == Text(unit) else unit == "F"
  }

  /** `sensor.temperature`: Fahrenheit unless the unit says Celsius. */
  ghost predicate GivesSensorTemperature(lib: Library, sensor: RawRow, t: real) {
    IsDictAt(sensor, TemperatureField) &&
      var data := sensor[TemperatureField].entries;
      || (IsIn(data, "F") && GivesFahrenheit(data, ValueField, t))
      || (IsIn(data, "C") && GivesCelsius(lib, data, ValueField, t))
  }

  /** `sensor.wiper`: a level from 0 to 3, and 0 if the wiper is off. */
  predicate GivesSensorWiper(lib: Library, sensor: RawRow, active: bool, level: int) {
    IsDictAt(sensor, Wiper) &&
      var data := sensor[Wiper].entries;
      && IsActive in data && active == Truthy(data[IsActive])
      && GivesInt(lib, data, Level, level) && 0 <= level <= 3 && (active || level == 0)
  }

  /* ---- selections ---- */

  /** A row with a sensor is of the second schema; otherwise one with a temperature
      is of the first. */
  ghost predicate IsSelectionOf(lib: Library, taskId: string, row: RawRow, r: Row) {
    && r.Selection? && r.taskId == taskId
    && GivesSelectionId(row, r.videoId)
    && GivesDate(lib, row, RecordedAt, r.recordedAt)
    && GivesPath(row, r.sourcePath)
    && if Sensor in row then HasSensorData(lib, row, r) else HasFlatData(lib, row, r)
  }

  ghost predicate HasFlatData(lib: Library, row: RawRow, r: Row)
    requires r.Selection?
  {
    && GivesCelsius(lib, row, TemperatureField, r.temperature)
    && IsWiperOn in row && r.wiperActive == Truthy(row[IsWiperOn]) && r.wiperLevel == None
    && HeadlightsOn in row && r.headlightsOn == Truthy(row[HeadlightsOn])
  }

  ghost predicate HasSensorData(lib: Library, row: RawRow, r: Row)
    requires r.Selection?
  {
    IsDictAt(row, Sensor) &&
      var sensor := row[Sensor].entries;
      && GivesSensorTemperature(lib, sensor, r.temperature)
      && r.wiperLevel.Some? && GivesSensorWiper(lib, sensor, r.wiperActive, r.wiperLevel.value)
      && Headlights in sensor && r.headlightsOn == Truthy(sensor[Headlights])
  }

  lemma SelectionIdIs(row: RawRow, n: int)
    ensures SelectionId(row) == Good(n) <==> GivesSelectionId(row, n)
    ensures SelectionId(row).Bad? ==> SelectionId(row) == Bad(InvalidFormat, Id)
  {
  }

  lemma DateIs(lib: Library, row: RawRow, key: Field, at: int)
    ensures ParseDate(lib, row, key) == Good(at) <==> GivesDate(lib, row, key, at)
    ensures ParseDate(lib, row, key).Bad? ==> ParseDate(lib, row, key) == Bad(InvalidFormat, key)
  {
  }

  lemma PathIs(row: RawRow, path: string)
    ensures SelectionPath(row) == Good(path) <==> GivesPath(row, path)
    ensures SelectionPath(row).Bad? ==> SelectionPath(row) == Bad(InvalidFormat, SourcePathField)
  {
  }

  lemma CelsiusIs(lib: Library, row: RawRow, key: Field, t: real)
    ensures CelsiusAttempt(lib, row, key) == Done(t) <==> GivesCelsius(lib, row, key, t)
  {
    NumberAt(lib, row, key);
    hide FloatAt, Rounded, GivesNumber;
  }

  lemma FahrenheitIs(row: RawRow, key: Field, t: real)
    requires key in row
    ensures FromFahrenheit(row[key]) == Done(t) <==> GivesFahrenheit(row, key, t)
  {
    hide NumberOf, Rounded, IsNumber, ToFloat;
    forall x {
      NumberAlready(row[key], x);
    }
    assert forall x :: NumberOf(row[key]) == Done(Finite(x)) <==> IsNumber(row[key], x);
  }

  lemma SensorTemperatureIs(lib: Library, sensor: RawRow, t: real)
    ensures V2Temperature(lib, sensor) == Good(t) <==> GivesSensorTemperature(lib, sensor, t)
  {
    hide ToFloat, Rounded, NumberOf, FromFahrenheit, CelsiusAttempt;
    if V2Value(sensor).Done? {
      var data := sensor[TemperatureField].entries;
      CelsiusIs(lib, data, ValueField, t);
      FahrenheitIs(data, ValueField, t);
    }
  }

  lemma SensorWiperIs(lib: Library, sensor: RawRow, w: WiperState)
    ensures V2Wiper(lib, sensor) == Good(w) <==>
      w.level.Some? && GivesSensorWiper(lib, sensor, w.active, w.level.value)
  {
    hide ToInt, Truthy, ReadsInt;
    if IsDictAt(sensor, Wiper) && Level in sensor[Wiper].entries {
      forall n {
        IntIs(lib, sensor[Wiper].entries[Level], n);
      }
    }
  }

  /** Every part gives the column of `r`. */
  predicate PartsGive(lib: Library, taskId: string, row: RawRow, r: Row) {
    && r.Selection? && r.taskId == taskId && (IsV1(row) || IsV2(row))
    && SelectionId(row) == Good(r.videoId) && ParseDate(lib, row, RecordedAt) == Good(r.recordedAt)
    && TemperaturePart(lib, row) == Good(r.temperature)
    && WiperPart(lib, row) == Good(WiperState(r.wiperActive, r.wiperLevel))
    && HeadlightsPart(row) == Good(r.headlightsOn) && SelectionPath(row) == Good(r.sourcePath)
  }

  lemma SelectionOfParts(lib: Library, taskId: string, row: RawRow, r: Row)
    ensures SelectionOutcome(lib, taskId, row) == Refined(r) <==> PartsGive(lib, taskId, row, r)
  {
    NothingStops(SelectionOrigin(taskId, row).source, SelectionFaults(lib, row));
    hide FirstStop, Reports, SelectionId, ParseDate, TemperaturePart, WiperPart, HeadlightsPart, SelectionPath;
    hide SelectionOrigin;
    if AllSelectionParts(lib, row) {
      NoSensorNoRow(lib, row);
    }
  }

  lemma PartsAreFields(lib: Library, taskId: string, row: RawRow, r: Row)
    requires r.Selection?
    ensures PartsGive(lib, taskId, row, r) <==> IsSelectionOf(lib, taskId, row, r)
  {
    SelectionIdIs(row, r.videoId);
    DateIs(lib, row, RecordedAt, r.recordedAt);
    PathIs(row, r.sourcePath);
    hide SelectionId, ParseDate, SelectionPath, GivesSelectionId, GivesDate, GivesPath;
    if Sensor in row && row[Sensor].Dict? {
      SensorTemperatureIs(lib, row[Sensor].entries, r.temperature);
      SensorWiperIs(lib, row[Sensor].entries, WiperState(r.wiperActive, r.wiperLevel));
    } else if Sensor !in row {
      CelsiusIs(lib, row, TemperatureField, r.temperature);
    }
    hide V2Temperature, V2Wiper, GivesSensorTemperature, GivesSensorWiper, CelsiusAttempt, Truthy;
  }

  /** A refined selection, column by column: exactly this row, and only if every
      field gives its column. */
  lemma SelectionIsExact(lib: Library, taskId: string, row: RawRow, r: Row)
    ensures SelectionOutcome(lib, taskId, row) == Refined(r) <==> IsSelectionOf(lib, taskId, row, r)
  {
    hide *;
    SelectionOfParts(lib, taskId, row, r);
    if r.Selection? {
      PartsAreFields(lib, taskId, row, r);
    } else {
      OnlySelections(lib, taskId, row, r);
    }
  }

  lemma OnlySelections(lib: Library, taskId: string, row: RawRow, r: Row)
    ensures PartsGive(lib, taskId, row, r) || IsSelectionOf(lib, taskId, row, r) ==> r.Selection?
  {
  }

  /* ---- labels ---- */

  predicate IsLabelOf(lib: Library, taskId: string, row: RawRow, r: Row) {
    && r.Label? && r.taskId == taskId
    && GivesInt(lib, row, VideoIdField, r.videoId) && r.videoId > 0
    && GivesText(row, ObjectClassField, ObjectClassText(r.objectClass))
    && GivesNumber(lib, row, ObjCount, r.objCount as real) && r.objCount >= 0
    && GivesNumber(lib, row, AvgConfidence, r.confidence) && 0.0 <= r.confidence <= 1.0
    && GivesDate(lib, row, LabeledAt, r.labeledAt)
  }

  lemma LabelVideoIdIs(lib: Library, row: RawRow, n: int)
    ensures LabelVideoId(lib, row) == Good(n) <==> GivesInt(lib, row, VideoIdField, n) && n > 0
  {
    IntAt(lib, row, VideoIdField);
    hide ToInt, GivesInt;
  }

  lemma LabelClassIs(row: RawRow, c: ObjectClass)
    ensures LabelClass(row) == Good(c) <==> GivesText(row, ObjectClassField, ObjectClassText(c))
  {
    if ObjectClassField in row {
      ObjectClassRoundTrip(row[ObjectClassField], c);
    }
    hide ObjectClassOf, ObjectClassText;
  }

  /** The count is the number itself, so it is a whole one. */
  lemma LabelCountIs(lib: Library, row: RawRow, n: int)
    ensures LabelCount(lib, row) == Good(n) <==> GivesNumber(lib, row, ObjCount, n as real) && n >= 0
  {
    NumberAt(lib, row, ObjCount);
    hide FloatAt, GivesNumber;
  }

  lemma LabelConfidenceIs(lib: Library, row: RawRow, x: real)
    ensures LabelConfidence(lib, row) == Good(x) <==> GivesNumber(lib, row, AvgConfidence, x) && 0.0 <= x <= 1.0
  {
    NumberAt(lib, row, AvgConfidence);
    hide FloatAt, GivesNumber;
  }

  predicate LabelPartsGive(lib: Library, taskId: string, row: RawRow, r: Row) {
    && r.Label? && r.taskId == taskId
    && LabelVideoId(lib, row) == Good(r.videoId) && LabelClass(row) == Good(r.objectClass)
    && LabelCount(lib, row) == Good(r.objCount) && LabelConfidence(lib, row) == Good(r.confidence)
    && ParseDate(lib, row, LabeledAt) == Good(r.labeledAt)
  }

  lemma LabelOfParts(lib: Library, taskId: string, row: RawRow, r: Row)
    ensures LabelOutcome(lib, taskId, row) == Refined(r) <==> LabelPartsGive(lib, taskId, row, r)
  {
    NothingStops(LabelOrigin(taskId, row).source, LabelFaults(lib, row));
    hide FirstStop, Reports, LabelVideoId, LabelClass, LabelCount, LabelConfidence, ParseDate, LabelOrigin;
  }

  /** A refined label, column by column: exactly this row, and only if every field
      gives its column. */
  lemma LabelIsExact(lib: Library, taskId: string, row: RawRow, r: Row)
    ensures LabelOutcome(lib, taskId, row) == Refined(r) <==> IsLabelOf(lib, taskId, row, r)
  {
    LabelOfParts(lib, taskId, row, r);
    if r.Label? {
      LabelVideoIdIs(lib, row, r.videoId);
      LabelClassIs(row, r.objectClass);
      LabelCountIs(lib, row, r.objCount);
      LabelConfidenceIs(lib, row, r.confidence);
      DateIs(lib, row, LabeledAt, r.labeledAt);
    }
    hide LabelOutcome, LabelVideoId, LabelClass, LabelCount, LabelConfidence, ParseDate, GivesInt, GivesText;
    hide GivesNumber, GivesDate, ObjectClassText;
  }

  /* ---- odd tags ---- */

  /** The tag's own id is a positive integer too, but is not stored. */
  ghost predicate IsOddTagOf(lib: Library, taskId: string, row: RawRow, r: Row) {
    && r.OddTag? && r.taskId == taskId
    && (exists n :: n > 0 && GivesInt(lib, row, Id, n))
    && GivesPaddedId(lib, row, r.videoId) && r.videoId > 0
    && GivesText(row, WeatherField, WeatherText(r.weather))
    && GivesText(row, TimeOfDayField, TimeOfDayText(r.timeOfDay))
    && GivesText(row, RoadSurfaceField, RoadSurfaceText(r.roadSurface))
  }

  lemma OddVideoIdIs(lib: Library, row: RawRow, n: int)
    ensures OddVideoId(lib, row) == Good(n) <==> GivesPaddedId(lib, row, n) && n > 0
  {
    hide ParseInt, StripZeros, ReadsInt;
    forall s {
      IntIs(lib, Text(s), n);
    }
  }

  lemma OddIdIs(lib: Library, row: RawRow)
    ensures OddId(lib, row).Good? && OddId(lib, row).value > 0 <==> exists n :: n > 0 && GivesInt(lib, row, Id, n)
  {
    IntAt(lib, row, Id);
    hide ToInt, GivesInt;
  }

  lemma OddEnumsAre(row: RawRow, w: Weather, t: TimeOfDay, s: RoadSurface)
    ensures OddWeather(row) == Good(w) <==> GivesText(row, WeatherField, WeatherText(w))
    ensures OddTime(row) == Good(t) <==> GivesText(row, TimeOfDayField, TimeOfDayText(t))
    ensures OddSurface(row) == Good(s) <==> GivesText(row, RoadSurfaceField, RoadSurfaceText(s))
  {
    forall v {
      OddEnumsRoundTrip(v, w, t, s);
    }
    hide WeatherOf, TimeOfDayOf, RoadSurfaceOf, WeatherText, TimeOfDayText, RoadSurfaceText;
  }

  predicate OddPartsGive(lib: Library, taskId: string, row: RawRow, r: Row) {
    && r.OddTag? && r.taskId == taskId
    && OddId(lib, row).Good? && OddId(lib, row).value > 0 && OddVideoId(lib, row) == Good(r.videoId)
    && OddWeather(row) == Good(r.weather) && OddTime(row) == Good(r.timeOfDay) && OddSurface(row) == Good(r.roadSurface)
  }

  lemma OddTagOfParts(lib: Library, taskId: string, row: RawRow, r: Row)
    ensures OddOutcome(lib, taskId, row) == Refined(r) <==> OddPartsGive(lib, taskId, row, r)
  {
    NothingStops(OddOrigin(taskId, row).source, OddFaults(lib, row));
    hide FirstStop, Reports, OddId, OddVideoId, OddWeather, OddTime, OddSurface, OddOrigin;
  }

  /** A refined odd tag, column by column: exactly this row, and only if every
      field gives its column. */
  lemma OddTagIsExact(lib: Library, taskId: string, row: RawRow, r: Row)
    ensures OddOutcome(lib, taskId, row) == Refined(r) <==> IsOddTagOf(lib, taskId, row, r)
  {
    OddTagOfParts(lib, taskId, row, r);
    OddIdIs(lib, row);
    if r.OddTag? {
      OddVideoIdIs(lib, row, r.videoId);
      OddEnumsAre(row, r.weather, r.timeOfDay, r.roadSurface);
    }
    hide OddOutcome, OddId, OddVideoId, OddWeather, OddTime, OddSurface, GivesPaddedId, GivesText, ToInt;
    hide WeatherText, TimeOfDayText, RoadSurfaceText;
  }
}
