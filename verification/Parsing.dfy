/** Python's conversions and exceptions as far as the refiners use them, and the
    value objects with their validity rules. */
module Parsing {
  import opened Domain
  import opened Tables

  /** The exceptions that can arise while a field is parsed. The last two are
      the program's own domain errors. */
  datatype Exc = KeyErr | TypeErr | ValueErr | OverflowErr | AttributeErr | InvalidErr | NegativeCountErr
  {
    predicate IsDomain() {
      this == InvalidErr || this == NegativeCountErr
    }

    function Kind(): Error {
      if IsDomain() then DomainError else OtherError
    }
  }

  datatype Attempt<+T> = Done(value: T) | Raise(exc: Exc)
  {
    predicate IsFailure() {
      Raise?
    }

    function PropagateFailure<U>(): Attempt<U>
      requires Raise?
    {
      Raise(exc)
    }

    function Extract(): T
      requires Done?
    {
      value
    }
  }

  /** The parts of the standard library that are left open: `int` on non-empty
      texts other than plain decimals, `float` on texts, and `datetime.fromisoformat`. */
  datatype Library = Library(
    intOf: string -> Option<int>, floatOf: string -> Option<Number>, dateOf: string -> Option<int>)

  /* ---- int, float, bool, dict access ---- */

  predicate AllDigits(s: string) {
    forall i :: 0 <= i < |s| ==> '0' <= s[i] <= '9'
  }

  predicate IsDecimal(s: string) {
    s != "" && AllDigits(s)
  }

  function DecimalValue(s: string): nat
    requires AllDigits(s)
  {
    if s == "" then 0 else DecimalValue(s[..|s| - 1]) * 10 + (s[|s| - 1] as int - '0' as int)
  }

  function ParseInt(lib: Library, s: string): Attempt<int> {
    if s == "" then Raise(ValueErr)
    else if IsDecimal(s) then Done(DecimalValue(s))
    else if lib.intOf(s).Some? then Done(lib.intOf(s).value) else Raise(ValueErr)
  }

  function Truncated(r: real): int {
    if r >= 0.0 then r.Floor else -(-r).Floor
  }

  function BoolAsInt(b: bool): int {
    if b then 1 else 0
  }

  function ToInt(lib: Library, v: Value): Attempt<int> {
    match v
    case Whole(i) => Done(i)
    case Flag(b) => Done(BoolAsInt(b))
    case Float(Finite(r)) => Done(Truncated(r))
    case Float(NotANumber) => Raise(ValueErr)
    case Float(Infinite) => Raise(OverflowErr)
    case Text(s) => ParseInt(lib, s)
    case _ => Raise(TypeErr)
  }

  function PowerOfTwo(n: nat): nat {
    if n == 0 then 1 else 2 * PowerOfTwo(n - 1)
  }

  /** Integers of this size and more do not round to a double. */
  function FloatLimit(): int {
    PowerOfTwo(1024) - PowerOfTwo(970)
  }

  function IntToFloat(i: int): Attempt<Number> {
    if -FloatLimit() < i < FloatLimit() then Done(Finite(i as real)) else Raise(OverflowErr)
  }

  function ToFloat(lib: Library, v: Value): Attempt<Number> {
    match v
    case Whole(i) => IntToFloat(i)
    case Flag(b) => IntToFloat(BoolAsInt(b))
    case Float(n) => Done(n)
    case Text(s) => if lib.floatOf(s).Some? then Done(lib.floatOf(s).value) else Raise(ValueErr)
    case _ => Raise(TypeErr)
  }

  predicate Truthy(v: Value) {
    match v
    case Text(s) => s != ""
    case Whole(i) => i != 0
    case Float(n) => n != Finite(0.0)
    case Flag(b) => b
    case Null => false
    case Dict(entries) => entries != map[]
    case Other(truthy) => truthy
  }

  /** `row[field]` on a dict, and on any value. */
  function Get(row: RawRow, f: Field): Attempt<Value> {
    if f in row then Done(row[f]) else Raise(KeyErr)
  }

  function Index(v: Value, f: Field): Attempt<Value> {
    if v.Dict? then Get(v.entries, f) else Raise(TypeErr)
  }

  function ToDate(lib: Library, v: Value): Attempt<int> {
    if !v.Text? then Raise(TypeErr)
    else if lib.dateOf(v.s).Some? then Done(lib.dateOf(v.s).value) else Raise(ValueErr)
  }

  /* ---- value objects ---- */

  function VideoIdOf(n: int): Attempt<int> {
    if n <= 0 then Raise(InvalidErr) else Done(n)
  }

  /** `round(x, 2)`: the nearest hundredth, the even one of two. */
  function Rounded(r: real): real {
    var low := (r * 100.0).Floor;
    var rest := r * 100.0 - low as real;
    (if rest < 0.5 || (rest == 0.5 && low % 2 == 0) then low else low + 1) as real / 100.0
  }

  function TemperatureOf(celsius: Number): Attempt<real> {
    if !celsius.Finite? || celsius.r < -90.0 || celsius.r > 60.0 then Raise(InvalidErr) else Done(celsius.r)
  }

  function FromCelsius(n: Number): Attempt<real> {
    TemperatureOf(if n.Finite? then Finite(Rounded(n.r)) else n)
  }

  function FromFahrenheit(v: Value): Attempt<real> {
    var n :- NumberOf(v);
    if n.Finite? then TemperatureOf(Finite(Rounded((n.r - 32.0) * 5.0 / 9.0))) else Raise(InvalidErr)
  }

  /** A value that is an int or a float already. */
  function NumberOf(v: Value): Attempt<Number> {
    match v
    case Whole(i) => IntToFloat(i)
    case Flag(b) => IntToFloat(BoolAsInt(b))
    case Float(n) => Done(n)
    case _ => Raise(InvalidErr)
  }

  function ConfidenceOf(n: Number): Attempt<real> {
    if n.Finite? && 0.0 <= n.r <= 1.0 then Done(n.r) else Raise(InvalidErr)
  }

  function ObjectCountOf(n: int): Attempt<int> {
    if n < 0 then Raise(NegativeCountErr) else Done(n)
  }

  datatype WiperState = WiperState(active: bool, level: Option<int>)

  predicate ValidWiper(active: bool, level: Option<int>) {
    level.Some? ==> 0 <= level.value <= 3 && (active || level.value == 0)
  }

  function WiperOf(active: bool, level: Option<int>): Attempt<WiperState> {
    if level.Some? && !(0 <= level.value <= 3) then Raise(InvalidErr)
    else if !active && level.Some? && level.value > 0 then Raise(InvalidErr)
    else Done(WiperState(active, level))
  }

  predicate IsVideoFile(path: string) {
    |path| >= 4 && path[|path| - 4..] == ".mp4"
  }

  /** Only texts have `endswith`; falsy values are refused before. */
  function SourcePathOf(v: Value): Attempt<string> {
    if !Truthy(v) then Raise(InvalidErr)
    else if !v.Text? then Raise(AttributeErr)
    else if IsVideoFile(v.s) then Done(v.s) else Raise(InvalidErr)
  }

  /** A selection's id must be an integer already. */
  function SelectionIdOf(v: Value): Attempt<int> {
    match v
    case Whole(i) => VideoIdOf(i)
    case Flag(b) => VideoIdOf(BoolAsInt(b))
    case _ => Raise(InvalidErr)
  }

  /* ---- enums ---- */

  function ObjectClassOf(v: Value): Attempt<ObjectClass> {
    if v == Text("car") then Done(Car)
    else if v == Text("pedestrian") then Done(Pedestrian)
    else if v == Text("traffic_sign") then Done(TrafficSign)
    else if v == Text("traffic_light") then Done(TrafficLight)
    else if v == Text("truck") then Done(Truck)
    else if v == Text("bus") then Done(Bus)
    else if v == Text("cyclist") then Done(Cyclist)
    else if v == Text("motorcycle") then Done(Motorcycle)
    else Raise(ValueErr)
  }

  function WeatherOf(v: Value): Attempt<Weather> {
    if v == Text("sunny") then Done(Sunny)
    else if v == Text("cloudy") then Done(Cloudy)
    else if v == Text("rainy") then Done(Rainy)
    else if v == Text("snowy") then Done(Snowy)
    else Raise(ValueErr)
  }

  function TimeOfDayOf(v: Value): Attempt<TimeOfDay> {
    if v == Text("day") then Done(Day)
    else if v == Text("night") then Done(Night)
    else Raise(ValueErr)
  }

  function RoadSurfaceOf(v: Value): Attempt<RoadSurface> {
    if v == Text("dry") then Done(DryRoad)
    else if v == Text("wet") then Done(WetRoad)
    else if v == Text("snowy") then Done(SnowyRoad)
    else if v == Text("icy") then Done(IcyRoad)
    else Raise(ValueErr)
  }

  /* ---- properties ---- */

  lemma {:induction false} PowersMultiply(a: nat, b: nat)
    ensures PowerOfTwo(a) * PowerOfTwo(b) == PowerOfTwo(a + b)
  {
    if a > 0 {
      PowersMultiply(a - 1, b);
    }
  }

  /** The limit lies halfway between the largest double, (2^53 - 1) * 2^971, and the
      next power of two. */
  lemma FloatLimitIsHalfway()
    ensures 2 * FloatLimit() == (PowerOfTwo(53) - 1) * PowerOfTwo(971) + PowerOfTwo(1024)
  {
    hide PowerOfTwo;
    PowersMultiply(53, 971);
    NextPower(970);
    Halfway(PowerOfTwo(53), PowerOfTwo(970));
  }

  lemma NextPower(n: nat)
    ensures PowerOfTwo(n + 1) == 2 * PowerOfTwo(n)
  {
  }

  lemma Halfway(a: int, b: int)
    ensures 2 * (a * (2 * b) - b) == (a - 1) * (2 * b) + a * (2 * b)
  {
  }

  /** `int` drops the digits behind the point, towards zero. */
  lemma TruncatesTowardZero(r: real)
    ensures r >= 0.0 ==> Truncated(r) as real <= r < Truncated(r) as real + 1.0
    ensures r < 0.0 ==> Truncated(r) as real - 1.0 < r <= Truncated(r) as real
  {
  }

  /** The values that Python takes for false. */
  lemma FalsyExactly(v: Value)
    ensures !Truthy(v) <==>
      v in {Text(""), Whole(0), Float(Finite(0.0)), Flag(false), Null, Dict(map[]), Other(false)}
  {
  }

  /** The decimal digits of a number. */
  function Decimal(n: nat): string {
    if n < 10 then [('0' as int + n) as char] else Decimal(n / 10) + [('0' as int + n % 10) as char]
  }

  /** Every number is read back from its digits, whatever the zeros before them. */
  lemma {:induction false} DecimalRoundTrip(lib: Library, n: nat, k: nat)
    ensures IsDecimal(Zeros(k) + Decimal(n)) && ParseInt(lib, Zeros(k) + Decimal(n)) == Done(n)
  {
    DecimalIsRead(n);
    PaddedValue(k, Decimal(n));
  }

  lemma {:induction false} DecimalIsRead(n: nat)
    ensures IsDecimal(Decimal(n)) && DecimalValue(Decimal(n)) == n
  {
    var s := Decimal(n);
    if n >= 10 {
      DecimalIsRead(n / 10);
      assert s[..|s| - 1] == Decimal(n / 10);
    }
  }

  /** The stored temperature is a hundredth, at most half a hundredth away; the even
      one if there are two. */
  lemma RoundedIsNearest(r: real)
    ensures -0.005 <= Rounded(r) - r <= 0.005
    ensures Rounded(r) * 100.0 == (Rounded(r) * 100.0).Floor as real
    ensures Rounded(r) - r == 0.005 || r - Rounded(r) == 0.005 ==> (Rounded(r) * 100.0).Floor % 2 == 0
  {
    var low := (r * 100.0).Floor;
    var rest := r * 100.0 - low as real;
    var k := if rest < 0.5 || (rest == 0.5 && low % 2 == 0) then low else low + 1;
    assert Rounded(r) == k as real / 100.0;
  }

  /** The range is checked after rounding, so that half a hundredth beyond each
      end is still accepted. */
  lemma TemperatureRangeIsCheckedAfterRounding(r: real)
    ensures FromCelsius(Finite(r)).Done? <==> -90.005 <= r <= 60.005
  {
    var low := (r * 100.0).Floor;
    var rest := r * 100.0 - low as real;
    var k := if rest < 0.5 || (rest == 0.5 && low % 2 == 0) then low else low + 1;
    assert Rounded(r) == k as real / 100.0;
    assert -90.0 <= Rounded(r) <= 60.0 <==> -9000 <= k <= 6000;
    if r * 100.0 < 6000.5 {
      assert k <= 6000;
    } else if r * 100.0 > 6000.5 {
      assert k >= 6001;
    }
    if r * 100.0 < -9000.5 {
      assert k <= -9001;
    } else if r * 100.0 > -9000.5 {
      assert k >= -9000;
    }
  }

  /** A temperature given in Fahrenheit is refined like the same one in Celsius. */
  lemma UnitsAgree(celsius: real)
    ensures FromFahrenheit(Float(Finite(celsius * 9.0 / 5.0 + 32.0))) == FromCelsius(Finite(celsius))
  {
    assert (celsius * 9.0 / 5.0 + 32.0 - 32.0) * 5.0 / 9.0 == celsius;
  }

  /** The stored texts of the enum values. */
  function WeatherText(w: Weather): string {
    match w case Sunny => "sunny" case Cloudy => "cloudy" case Rainy => "rainy" case Snowy => "snowy"
  }

  function TimeOfDayText(t: TimeOfDay): string {
    match t case Day => "day" case Night => "night"
  }

  function RoadSurfaceText(s: RoadSurface): string {
    match s case DryRoad => "dry" case WetRoad => "wet" case SnowyRoad => "snowy" case IcyRoad => "icy"
  }

  function ObjectClassText(c: ObjectClass): string {
    match c
    case Car => "car"
    case Pedestrian => "pedestrian"
    case TrafficSign => "traffic_sign"
    case TrafficLight => "traffic_light"
    case Truck => "truck"
    case Bus => "bus"
    case Cyclist => "cyclist"
    case Motorcycle => "motorcycle"
  }

  /** A raw value reads as an enum value exactly when it is that value's text. */
  lemma OddEnumsRoundTrip(v: Value, w: Weather, t: TimeOfDay, s: RoadSurface)
    ensures WeatherOf(v) == Done(w) <==> v == Text(WeatherText(w))
    ensures TimeOfDayOf(v) == Done(t) <==> v == Text(TimeOfDayText(t))
    ensures RoadSurfaceOf(v) == Done(s) <==> v == Text(RoadSurfaceText(s))
  {
  }

  lemma ObjectClassRoundTrip(v: Value, c: ObjectClass)
    ensures ObjectClassOf(v) == Done(c) <==> v == Text(ObjectClassText(c))
  {
  }

  /* ---- zero padding ---- */

  function Zeros(k: nat): string {
    seq(k, _ => '0')
  }

  /** `s.lstrip("0")`. */
  function StripZeros(s: string): string {
    if s != "" && s[0] == '0' then StripZeros(s[1..]) else s
  }

  lemma {:induction false} PaddedValue(k: nat, s: string)
    requires AllDigits(s)
    ensures AllDigits(Zeros(k) + s)
    ensures DecimalValue(Zeros(k) + s) == DecimalValue(s)
    decreases k + |s|
  {
    var p := Zeros(k) + s;
    if s != "" {
      assert p[..|p| - 1] == Zeros(k) + s[..|s| - 1];
      PaddedValue(k, s[..|s| - 1]);
    } else if k > 0 {
      assert p[..|p| - 1] == Zeros(k - 1) + s;
      PaddedValue(k - 1, s);
    }
  }

  lemma {:induction false} StrippedIsPadded(s: string) returns (k: nat)
    ensures s == Zeros(k) + StripZeros(s)
  {
    if s != "" && s[0] == '0' {
      k := StrippedIsPadded(s[1..]);
      assert s == ['0'] + s[1..] && Zeros(k + 1) == ['0'] + Zeros(k);
      k := k + 1;
    } else {
      k := 0;
      assert Zeros(0) == "";
    }
  }
}
