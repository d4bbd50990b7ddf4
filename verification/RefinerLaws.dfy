/** What holds of every refined row: validity, one rejection per failing field,
    exactly when an exception escapes, and zero padding. */
module RefinerLaws {
  import opened Domain
  import opened Tables
  import opened Parsing
  import opened Collecting
  import opened Refiners

  /** The rules of the value objects. */
  predicate ValidRow(r: Row) {
    && r.videoId > 0
    && match r
       case Selection(_, _, _, temperature, active, level, _, path) =>
         -90.0 <= temperature <= 60.0 && ValidWiper(active, level) && IsVideoFile(path)
       case OddTag(_, _, _, _, _) => true
       case Label(_, _, _, count, confidence, _) => count >= 0 && 0.0 <= confidence <= 1.0
  }

  predicate AllGood(ps: seq<Parsed<()>>) {
    forall i :: 0 <= i < |ps| ==> ps[i].Good?
  }

  predicate SomeStops(source: SourceId, ps: seq<Parsed<()>>) {
    exists i :: 0 <= i < |ps| && Stops(source, ps[i])
  }

  ghost predicate IsFirstStop(source: SourceId, ps: seq<Parsed<()>>, i: nat) {
    i < |ps| && Stops(source, ps[i]) && forall j :: 0 <= j < i ==> !Stops(source, ps[j])
  }

  /** The outcome of a row whose parsers end in `ps`: an exception when one of
      them stops, namely that of the first, or when all succeed and the row
      cannot be built; a valid row when all succeed; otherwise one rejection per
      failing field, in order. */
  ghost predicate CollectsErrors(at: Origin, ps: seq<Parsed<()>>, buildable: bool, o: Outcome) {
    && (o.Raised? <==> SomeStops(at.source, ps) || (AllGood(ps) && !buildable))
    && (o.Raised? && SomeStops(at.source, ps) ==>
          exists i: nat :: IsFirstStop(at.source, ps, i) && o.error == ErrorOf(ps[i]))
    && (o.Refined? <==> AllGood(ps) && buildable)
    && (o.Refined? ==> ValidRow(o.row) && o.row.taskId == at.taskId)
    && (o.Refused? ==> o.rejections != [] && o.rejections == Reports(at, ps))
  }

  lemma ParsersDecide(at: Origin, ps: seq<Parsed<()>>)
    ensures FirstStop(at.source, ps) == None <==> !SomeStops(at.source, ps)
    ensures FirstStop(at.source, ps).Some? ==>
      exists i: nat :: IsFirstStop(at.source, ps, i) && FirstStop(at.source, ps) == Some(ErrorOf(ps[i]))
    ensures AllGood(ps) ==> !SomeStops(at.source, ps)
    ensures FirstStop(at.source, ps) == None ==> (AllGood(ps) <==> Reports(at, ps) == [])
  {
    NothingStops(at.source, ps);
    NothingReported(at, ps);
    if FirstStop(at.source, ps).Some? {
      var i := TheFirstStop(at.source, ps);
    }
  }

  lemma {:induction false} TheFirstStop(source: SourceId, ps: seq<Parsed<()>>) returns (i: nat)
    requires FirstStop(source, ps).Some?
    ensures IsFirstStop(source, ps, i) && FirstStop(source, ps) == Some(ErrorOf(ps[i]))
    decreases |ps|
  {
    var n := |ps| - 1;
    if FirstStop(source, ps[..n]).Some? {
      i := TheFirstStop(source, ps[..n]);
      assert forall j :: 0 <= j < n ==> ps[..n][j] == ps[j];
    } else {
      i := n;
      NothingStops(source, ps[..n]);
      assert forall j :: 0 <= j < n ==> ps[..n][j] == ps[j];
    }
  }

  lemma LabelRefinerCollectsErrors(lib: Library, taskId: string, row: RawRow)
    ensures CollectsErrors(LabelOrigin(taskId, row), LabelFaults(lib, row), true, LabelOutcome(lib, taskId, row))
  {
    var ps := LabelFaults(lib, row);
    ParsersDecide(LabelOrigin(taskId, row), ps);
    hide FirstStop, Reports, SomeStops, Stops, IsFirstStop, ErrorOf, ToInt, ToFloat, ObjectClassOf;
    assert AllGood(ps) <==> ps[0].Good? && ps[1].Good? && ps[2].Good? && ps[3].Good? && ps[4].Good?;
  }

  lemma OddTagRefinerCollectsErrors(lib: Library, taskId: string, row: RawRow)
    ensures CollectsErrors(
      OddOrigin(taskId, row), OddFaults(lib, row), OddId(lib, row).Good? && OddId(lib, row).value > 0,
      OddOutcome(lib, taskId, row))
  {
    var ps := OddFaults(lib, row);
    ParsersDecide(OddOrigin(taskId, row), ps);
    hide FirstStop, Reports, SomeStops, Stops, IsFirstStop, ErrorOf, ToInt, WeatherOf, TimeOfDayOf, RoadSurfaceOf;
    hide ParseInt;
    assert AllGood(ps) <==> ps[0].Good? && ps[1].Good? && ps[2].Good? && ps[3].Good? && ps[4].Good?;
  }

  lemma SelectionParts(lib: Library, row: RawRow)
    ensures SelectionId(row).Good? ==> SelectionId(row).value > 0
    ensures TemperaturePart(lib, row).Good? ==> -90.0 <= TemperaturePart(lib, row).value <= 60.0
    ensures WiperPart(lib, row).Good? ==> ValidWiper(WiperPart(lib, row).value.active, WiperPart(lib, row).value.level)
    ensures SelectionPath(row).Good? ==> IsVideoFile(SelectionPath(row).value)
  {
    hide ToFloat, ToInt, Truthy, IsVideoFile, Rounded;
  }

  lemma SelectionRefinerCollectsErrors(lib: Library, taskId: string, row: RawRow)
    ensures CollectsErrors(
      SelectionOrigin(taskId, row), SelectionFaults(lib, row), true, SelectionOutcome(lib, taskId, row))
  {
    var ps := SelectionFaults(lib, row);
    ParsersDecide(SelectionOrigin(taskId, row), ps);
    SelectionParts(lib, row);
    hide FirstStop, Reports, SomeStops, Stops, IsFirstStop, ErrorOf, SelectionId, ParseDate, V1Temperature, V1Wiper;
    hide V2Temperature, V2Wiper;
    hide ParseBool, SelectionPath, ValidWiper, IsVideoFile;
    if IsV1(row) || (IsV2(row) && row[Sensor].Dict?) {
      assert AllGood(ps) <==> ps[0].Good? && ps[1].Good? && ps[2].Good? && ps[3].Good? && ps[4].Good? && ps[5].Good?;
    } else if IsV2(row) {
      assert ps[3].Bad?;
    } else {
      assert ps[0].Bad?;
    }
  }

  /* ---- when an exception escapes ---- */

  /** The video id is a number, but none that is allowed. */
  predicate BadLabelVideo(lib: Library, row: RawRow) {
    VideoIdField in row &&
      var n := ToInt(lib, row[VideoIdField]);
      n == Raise(OverflowErr) || (n.Done? && n.value <= 0)
  }

  /** The count is a number, but not a finite one. */
  predicate BadCount(lib: Library, row: RawRow) {
    ObjCount in row &&
      var n := ToFloat(lib, row[ObjCount]);
      n == Raise(OverflowErr) || (n.Done? && !n.value.Finite?)
  }

  /** The confidence is a number, but not one between 0 and 1. */
  predicate BadConfidence(lib: Library, row: RawRow) {
    AvgConfidence in row &&
      var n := ToFloat(lib, row[AvgConfidence]);
      n == Raise(OverflowErr) || (n.Done? && !(n.value.Finite? && 0.0 <= n.value.r <= 1.0))
  }

  /** What the numeric conversions can raise. */
  lemma ConversionErrors(lib: Library)
    ensures forall v :: ToInt(lib, v).Raise? ==> ToInt(lib, v).exc in {TypeErr, ValueErr, OverflowErr}
    ensures forall v :: ToFloat(lib, v).Raise? ==> ToFloat(lib, v).exc in {TypeErr, ValueErr, OverflowErr}
  {
  }

  lemma LabelEscapes(lib: Library, row: RawRow)
    ensures LabelVideoId(lib, row).Escapes? <==> BadLabelVideo(lib, row)
    ensures LabelCount(lib, row).Escapes? <==> BadCount(lib, row)
    ensures LabelConfidence(lib, row).Escapes? <==> BadConfidence(lib, row)
    ensures !LabelClass(row).Escapes? && !ParseDate(lib, row, LabeledAt).Escapes?
  {
    ConversionErrors(lib);
    hide ToInt, ToFloat;
  }

  lemma SomeOfFiveStops(source: SourceId, ps: seq<Parsed<()>>)
    requires |ps| == 5
    ensures SomeStops(source, ps) <==>
      Stops(source, ps[0]) || Stops(source, ps[1]) || Stops(source, ps[2]) || Stops(source, ps[3]) ||
        Stops(source, ps[4])
  {
    hide Stops;
    if i :| 0 <= i < |ps| && Stops(source, ps[i]) {
      assert i == 0 || i == 1 || i == 2 || i == 3 || i == 4;
    }
  }

  /** The label refiner does not keep its promise to collect every error: these
      numbers, and no other inputs, make it raise. */
  lemma LabelRefinerRaisesExactly(lib: Library, taskId: string, row: RawRow)
    ensures LabelOutcome(lib, taskId, row).Raised? <==>
      BadLabelVideo(lib, row) || BadCount(lib, row) || BadConfidence(lib, row)
  {
    LabelRefinerCollectsErrors(lib, taskId, row);
    LabelEscapes(lib, row);
    SomeOfFiveStops(LabelOrigin(taskId, row).source, LabelFaults(lib, row));
    hide LabelOutcome, Reports, SomeStops, LabelVideoId, LabelClass, LabelCount, LabelConfidence, ParseDate;
    hide BadLabelVideo, BadCount, BadConfidence;
  }

  /** The video id is an integer that is not positive, or a text that reads as
      one once its leading zeros are gone. */
  predicate BadOddVideo(lib: Library, row: RawRow) {
    VideoIdField in row &&
      match row[VideoIdField]
      case Whole(i) => i <= 0
      case Text(s) =>
        var n := ParseInt(lib, if StripZeros(s) == "" then "0" else StripZeros(s));
        n.Done? && n.value <= 0
      case _ => false
  }

  /** The tag's id is infinite, or the empty text. */
  predicate BadOddId(row: RawRow) {
    Id in row && (row[Id] == Float(Infinite) || row[Id] == Text(""))
  }

  /** The tag's id is a number that is not positive, and everything else is in order. */
  predicate OnlyIdNotPositive(lib: Library, row: RawRow) {
    && Id in row && ToInt(lib, row[Id]).Done? && ToInt(lib, row[Id]).value <= 0
    && OddVideoId(lib, row).Good? && OddWeather(row).Good? && OddTime(row).Good? && OddSurface(row).Good?
  }

  lemma OnlyInfinityOverflows(lib: Library)
    ensures forall v :: ToInt(lib, v).Raise? ==> (ToInt(lib, v).exc == OverflowErr <==> v == Float(Infinite))
    ensures ToInt(lib, Float(Infinite)) == Raise(OverflowErr)
    ensures forall v :: ToInt(lib, v).Raise? ==> ToInt(lib, v).exc in {TypeErr, ValueErr, OverflowErr}
  {
  }

  lemma OddEscapes(lib: Library, taskId: string, row: RawRow)
    ensures Stops(OddOrigin(taskId, row).source, OddId(lib, row).Fault()) <==> BadOddId(row)
    ensures OddVideoId(lib, row).Escapes? <==> BadOddVideo(lib, row)
    ensures !OddWeather(row).Escapes? && !OddTime(row).Escapes? && !OddSurface(row).Escapes?
    ensures IsEmptySource(OddOrigin(taskId, row).source) ==> BadOddId(row)
  {
    hide ToInt, OddVideoId, BadOddVideo, OddWeather, OddTime, OddSurface;
    OnlyInfinityOverflows(lib);
    EmptyIsNoNumber(lib);
    OddVideoEscapes(lib, row);
    OddEnumsNeverEscape(row);
  }

  lemma OddEnumsNeverEscape(row: RawRow)
    ensures !OddWeather(row).Escapes? && !OddTime(row).Escapes? && !OddSurface(row).Escapes?
  {
  }

  lemma EmptyIsNoNumber(lib: Library)
    ensures ToInt(lib, Text("")) == Raise(ValueErr)
  {
  }

  lemma OddVideoEscapes(lib: Library, row: RawRow)
    ensures OddVideoId(lib, row).Escapes? <==> BadOddVideo(lib, row)
  {
    hide StripZeros, DecimalValue, AllDigits;
  }

  /** The odd tag refiner raises for those ids, and for an id that is not
      positive in an otherwise correct row. */
  lemma OddTagRefinerRaisesExactly(lib: Library, taskId: string, row: RawRow)
    ensures OddOutcome(lib, taskId, row).Raised? <==>
      BadOddId(row) || BadOddVideo(lib, row) || OnlyIdNotPositive(lib, row)
  {
    OddTagRefinerCollectsErrors(lib, taskId, row);
    OddEscapes(lib, taskId, row);
    SomeOfFiveStops(OddOrigin(taskId, row).source, OddFaults(lib, row));
    OddIdIsNotPositive(lib, row);
    hide OddOutcome, Reports, SomeStops, OddId, OddVideoId, OddWeather, OddTime, OddSurface, OddOrigin;
    hide BadOddId, BadOddVideo, OnlyIdNotPositive, AllGood;
  }

  lemma OddIdIsNotPositive(lib: Library, row: RawRow)
    ensures OnlyIdNotPositive(lib, row) <==>
      AllGood(OddFaults(lib, row)) && !(OddId(lib, row).Good? && OddId(lib, row).value > 0)
  {
    hide ToInt, OddVideoId, OddWeather, OddTime, OddSurface;
    var ps := OddFaults(lib, row);
    assert AllGood(ps) <==> ps[0].Good? && ps[1].Good? && ps[2].Good? && ps[3].Good? && ps[4].Good?;
  }

  /** A truthy path that is no text has no `endswith`. */
  predicate BadPath(row: RawRow) {
    SourcePathField in row && Truthy(row[SourcePathField]) && !row[SourcePathField].Text?
  }

  /** The temperature is an integer beyond the doubles. */
  predicate HugeTemperature(lib: Library, row: RawRow) {
    if IsV1(row) then ToFloat(lib, row[TemperatureField]) == Raise(OverflowErr)
    else IsV2(row) && row[Sensor].Dict? && HugeSensorTemperature(lib, row[Sensor].entries)
  }

  predicate HugeSensorTemperature(lib: Library, sensor: RawRow) {
    TemperatureField in sensor && sensor[TemperatureField].Dict? &&
      var data := sensor[TemperatureField].entries;
      && ValueField in data && ToFloat(lib, data[ValueField]) == Raise(OverflowErr)
      && (Unit in data ==> data[Unit] == Text("F") || data[Unit] == Text("C"))
  }

  /** The wiper data are complete, and the level is infinite. */
  predicate InfiniteLevel(sensor: RawRow) {
    Wiper in sensor && sensor[Wiper].Dict? &&
      var data := sensor[Wiper].entries;
      IsActive in data && Level in data && data[Level] == Float(Infinite)
  }

  predicate BadLevel(row: RawRow) {
    IsV2(row) && row[Sensor].Dict? && InfiniteLevel(row[Sensor].entries)
  }

  lemma SensorEscapes(lib: Library, sensor: RawRow)
    ensures V2Temperature(lib, sensor).Escapes? <==> HugeSensorTemperature(lib, sensor)
    ensures V2Wiper(lib, sensor).Escapes? <==> InfiniteLevel(sensor)
  {
    ConversionErrors(lib);
    WiperEscapes(lib, sensor);
    hide ToInt, Truthy, Rounded, IntToFloat, V2Wiper, InfiniteLevel;
  }

  lemma WiperEscapes(lib: Library, sensor: RawRow)
    ensures V2Wiper(lib, sensor).Escapes? <==> InfiniteLevel(sensor)
  {
    hide Truthy, ParseInt, Truncated;
    OnlyInfinityOverflows(lib);
    hide ToInt;
  }

  lemma SelectionEscapes(lib: Library, row: RawRow)
    requires IsV1(row) || IsV2(row)
    ensures SelectionPath(row).Escapes? <==> BadPath(row)
    ensures TemperaturePart(lib, row).Escapes? <==> HugeTemperature(lib, row)
    ensures WiperPart(lib, row).Escapes? <==> BadLevel(row)
    ensures !SelectionId(row).Escapes? && !ParseDate(lib, row, RecordedAt).Escapes? && !HeadlightsPart(row).Escapes?
    ensures Id in row && row[Id] == Text("") ==> SelectionId(row).Bad?
  {
    ConversionErrors(lib);
    if IsV2(row) && row[Sensor].Dict? {
      SensorEscapes(lib, row[Sensor].entries);
    }
    hide ToInt, ToFloat, Truthy, Rounded, V2Temperature, V2Wiper, HugeSensorTemperature, InfiniteLevel, IsVideoFile;
  }

  /** The selection refiner raises for a row whose id is the empty text, for a
      path that is not a text, and for numbers beyond the doubles. */
  lemma SelectionRefinerRaisesExactly(lib: Library, taskId: string, row: RawRow)
    ensures SelectionOutcome(lib, taskId, row).Raised? <==>
      || (Id in row && row[Id] == Text(""))
      || ((IsV1(row) || IsV2(row)) && (BadPath(row) || HugeTemperature(lib, row) || BadLevel(row)))
  {
    SelectionRefinerCollectsErrors(lib, taskId, row);
    var at, ps := SelectionOrigin(taskId, row), SelectionFaults(lib, row);
    assert IsEmptySource(at.source) <==> Id in row && row[Id] == Text("");
    if IsV1(row) || IsV2(row) {
      SelectionEscapes(lib, row);
    }
    hide SelectionOutcome, Reports, SelectionOrigin, SelectionId, ParseDate, V1Temperature, V1Wiper, V2Temperature;
    hide V2Wiper, ParseBool, SelectionPath, BadPath, HugeTemperature, BadLevel;
    if i :| 0 <= i < |ps| && Stops(at.source, ps[i]) {
      assert i in {0, 1, 2, 3, 4, 5};
    }
    if IsV1(row) || IsV2(row) {
      assert IsEmptySource(at.source) ==> Stops(at.source, ps[0]);
      if IsV1(row) {
        assert ps[2].Escapes? || ps[3].Escapes? || ps[5].Escapes? ==> SomeStops(at.source, ps);
      } else if row[Sensor].Dict? {
        assert ps[2].Escapes? || ps[3].Escapes? || ps[4].Escapes? ==> SomeStops(at.source, ps);
      } else {
        assert ps[2].Escapes? ==> SomeStops(at.source, ps);
      }
    } else {
      assert Stops(at.source, ps[0]) <==> IsEmptySource(at.source);
    }
  }

  /* ---- zero padding ---- */

  function WithVideoText(row: RawRow, s: string): RawRow {
    row[VideoIdField := Text(s)]
  }

  lemma StrippedValue(s: string)
    requires AllDigits(s)
    ensures AllDigits(StripZeros(s)) && DecimalValue(StripZeros(s)) == DecimalValue(s)
  {
    var t := StripZeros(s);
    var j := StrippedIsPadded(s);
    assert forall i :: 0 <= i < |t| ==> t[i] == s[j + i];
    PaddedValue(j, t);
  }

  lemma ZeroIsDecimal(lib: Library)
    ensures ParseInt(lib, "0") == Done(0)
  {
    assert "0"[..0] == "";
  }

  /** Stripping the zeros first makes no difference to the number read. */
  lemma StrippedIsReadAlike(lib: Library, s: string)
    requires IsDecimal(s)
    ensures ParseInt(lib, if StripZeros(s) == "" then "0" else StripZeros(s)) == Done(DecimalValue(s))
  {
    StrippedValue(s);
    ZeroIsDecimal(lib);
  }

  /** Both refiners read a decimal video id by its value, whatever the zeros
      before it, although they get there by different conversions. */
  lemma ZeroPaddingIsIgnored(lib: Library, row: RawRow, s: string, k: nat)
    requires IsDecimal(s)
    ensures LabelVideoIdAttempt(lib, WithVideoText(row, Zeros(k) + s)) == VideoIdOf(DecimalValue(s))
    ensures OddVideoIdAttempt(lib, WithVideoText(row, Zeros(k) + s)) == VideoIdOf(DecimalValue(s))
  {
    PaddedValue(k, s);
    StrippedIsReadAlike(lib, Zeros(k) + s);
    hide StripZeros, DecimalValue, AllDigits, Zeros;
  }

  ghost predicate SameUpToSource(a: seq<Rejection>, b: seq<Rejection>) {
    |a| == |b| && forall i :: 0 <= i < |a| ==> a[i].(source := Unknown) == b[i].(source := Unknown)
  }

  lemma {:induction false} ReportsUpToSource(a: Origin, b: Origin, ps: seq<Parsed<()>>)
    requires a.taskId == b.taskId && a.stage == b.stage
    ensures SameUpToSource(Reports(a, ps), Reports(b, ps))
    decreases |ps|
  {
    if ps == [] {
    } else {
      ReportsUpToSource(a, b, ps[..|ps| - 1]);
    }
  }

  lemma {:induction false} StopsForAnySource(a: SourceId, b: SourceId, ps: seq<Parsed<()>>)
    requires !IsEmptySource(a) && !IsEmptySource(b)
    ensures FirstStop(a, ps) == FirstStop(b, ps)
    decreases |ps|
  {
    if ps == [] {
    } else {
      StopsForAnySource(a, b, ps[..|ps| - 1]);
    }
  }

  /** Equal in every other field. */
  ghost predicate AgreeButForVideo(a: RawRow, b: RawRow) {
    forall key :: key != VideoIdField ==> Get(a, key) == Get(b, key)
  }

  lemma LabelParsersAgree(lib: Library, a: RawRow, b: RawRow)
    requires AgreeButForVideo(a, b) && LabelVideoIdAttempt(lib, a) == LabelVideoIdAttempt(lib, b)
    ensures LabelVideoId(lib, a) == LabelVideoId(lib, b) && LabelClass(a) == LabelClass(b)
    ensures LabelCount(lib, a) == LabelCount(lib, b) && LabelConfidence(lib, a) == LabelConfidence(lib, b)
    ensures ParseDate(lib, a, LabeledAt) == ParseDate(lib, b, LabeledAt)
  {
    hide LabelVideoIdAttempt, ToFloat, ToDate, ObjectClassOf;
    assert Get(a, ObjectClassField) == Get(b, ObjectClassField) && Get(a, ObjCount) == Get(b, ObjCount);
    assert Get(a, AvgConfidence) == Get(b, AvgConfidence) && Get(a, LabeledAt) == Get(b, LabeledAt);
    hide Get;
  }

  /** Equal, or refused with the same rejections up to their source. */
  ghost predicate RefinedAlike(a: Outcome, b: Outcome) {
    a == b || (a.Refused? && b.Refused? && SameUpToSource(a.rejections, b.rejections))
  }

  lemma LabelOriginsAgree(taskId: string, a: RawRow, b: RawRow, ps: seq<Parsed<()>>)
    ensures var at, bt := LabelOrigin(taskId, a), LabelOrigin(taskId, b);
      FirstStop(at.source, ps) == FirstStop(bt.source, ps) && SameUpToSource(Reports(at, ps), Reports(bt, ps))
  {
    var at, bt := LabelOrigin(taskId, a), LabelOrigin(taskId, b);
    StopsForAnySource(at.source, bt.source, ps);
    ReportsUpToSource(at, bt, ps);
  }

  lemma LabelsOfAgreeingRows(lib: Library, taskId: string, a: RawRow, b: RawRow)
    requires AgreeButForVideo(a, b) && LabelVideoIdAttempt(lib, a) == LabelVideoIdAttempt(lib, b)
    ensures RefinedAlike(LabelOutcome(lib, taskId, a), LabelOutcome(lib, taskId, b))
  {
    hide LabelFaults, LabelRow, AllLabelParts, AgreeButForVideo, LabelVideoIdAttempt;
    hide Reports, FirstStop, SameUpToSource, LabelOrigin;
    LabelPartsAgree(lib, taskId, a, b);
    LabelOriginsAgree(taskId, a, b, LabelFaults(lib, a));
  }

  lemma LabelPartsAgree(lib: Library, taskId: string, a: RawRow, b: RawRow)
    requires AgreeButForVideo(a, b) && LabelVideoIdAttempt(lib, a) == LabelVideoIdAttempt(lib, b)
    ensures LabelFaults(lib, a) == LabelFaults(lib, b)
    ensures AllLabelParts(lib, a) == AllLabelParts(lib, b)
    ensures AllLabelParts(lib, a) ==> LabelRow(lib, taskId, a) == LabelRow(lib, taskId, b)
  {
    LabelParsersAgree(lib, a, b);
    hide LabelVideoId, LabelClass, LabelCount, LabelConfidence, ParseDate, AgreeButForVideo, LabelVideoIdAttempt;
  }

  lemma OddTagsOfAgreeingRows(lib: Library, taskId: string, a: RawRow, b: RawRow)
    requires AgreeButForVideo(a, b) && OddVideoIdAttempt(lib, a) == OddVideoIdAttempt(lib, b)
    ensures OddOutcome(lib, taskId, a) == OddOutcome(lib, taskId, b)
  {
    OddParsersAgree(lib, a, b);
    hide OddId, OddVideoId, OddWeather, OddTime, OddSurface, SourceAt, FirstStop, Reports, AgreeButForVideo;
    hide OddVideoIdAttempt;
  }

  lemma OddParsersAgree(lib: Library, a: RawRow, b: RawRow)
    requires AgreeButForVideo(a, b) && OddVideoIdAttempt(lib, a) == OddVideoIdAttempt(lib, b)
    ensures OddId(lib, a) == OddId(lib, b) && OddVideoId(lib, a) == OddVideoId(lib, b)
    ensures OddWeather(a) == OddWeather(b) && OddTime(a) == OddTime(b) && OddSurface(a) == OddSurface(b)
    ensures SourceAt(a, Id) == SourceAt(b, Id)
  {
    hide OddVideoIdAttempt, ToInt, WeatherOf, TimeOfDayOf, RoadSurfaceOf;
    assert Get(a, Id) == Get(b, Id) && Get(a, WeatherField) == Get(b, WeatherField);
    assert Get(a, TimeOfDayField) == Get(b, TimeOfDayField) && Get(a, RoadSurfaceField) == Get(b, RoadSurfaceField);
    assert SourceAt(a, Id) == SourceAt(b, Id);
    hide Get, SourceAt;
  }

  /** Padding a decimal video id changes nothing in what either refiner makes of
      a row, except for the source id of a label's rejections. */
  lemma PaddedRowsAreRefinedAlike(lib: Library, taskId: string, row: RawRow, s: string, k: nat)
    requires IsDecimal(s)
    ensures var plain, padded := WithVideoText(row, s), WithVideoText(row, Zeros(k) + s);
      && OddOutcome(lib, taskId, padded) == OddOutcome(lib, taskId, plain)
      && RefinedAlike(LabelOutcome(lib, taskId, padded), LabelOutcome(lib, taskId, plain))
  {
    var plain, padded := WithVideoText(row, s), WithVideoText(row, Zeros(k) + s);
    ZeroPaddingIsIgnored(lib, row, s, k);
    ZeroPaddingIsIgnored(lib, row, s, 0);
    assert Zeros(0) + s == s;
    AgreeWithVideoText(row, s, Zeros(k) + s);
    hide *;
    LabelsOfAgreeingRows(lib, taskId, padded, plain);
    OddTagsOfAgreeingRows(lib, taskId, padded, plain);
  }

  lemma AgreeWithVideoText(row: RawRow, s: string, t: string)
    ensures AgreeButForVideo(WithVideoText(row, t), WithVideoText(row, s))
  {
  }
}
