/**
 * `class Unitime`: the seven static unit functions, which validate their
 * input and return the bundle of converters, and the instance produced by
 * `Unitime.to(unit)`, whose seven unit functions validate their input and
 * apply the converter chosen once, when the instance was made.
 */
module Facade {
  import opened Js
  import opened Errors
  import opened Units
  import opened Scales
  import opened Convert
  import opened Util

  /**
   * The static unit function for source unit `u` (`Unitime.ns` … `Unitime.d`):
   * `asNumber(input)`, then `converters(Scale.<u>, duration)`.  A thrown
   * error is the `Err` result.
   */
  function Static(lim: Limits, u: Unit, input: Value): (r: Result<Convertable>)
    ensures r.Ok? ==> r.value.lim == lim && r.value.source.Proper() && r.value.source.scale == Magnitude(u)
  {
    match AsNumber(input)
    case Ok(duration) => Ok(Converters(lim, Of(lim, u), duration))
    case Err(e) => Err(e)
  }

  /**
   * An instance of `Unitime`: the converter bound by `to`, named by its
   * destination unit, and the limits it saturates against.
   */
  datatype Unitime = Unitime(lim: Limits, converter: Unit)
  {
    /**
     * The instance unit function for source unit `u` (`ns` … `d` on an
     * instance): `asNumber(input)`, then the bound converter.
     */
    function From(u: Unit, input: Value): (r: Result<real>)
      ensures r.Err? <==> AsNumber(input).Err?
    {
      match AsNumber(input)
      case Ok(duration) => Ok(Apply(lim, converter, Of(lim, u), duration))
      case Err(e) => Err(e)
    }
  }

  /**
   * `Unitime.to(unit)`: the converter for `unit` is looked up when the
   * instance is made, so an unknown unit fails here and not at the first
   * conversion.
   */
  function To(lim: Limits, unit: Value): (r: Result<Unitime>)
    ensures r.Ok? ==> r.value.lim == lim && unit == Str(Code(r.value.converter))
    ensures r.Err? ==> r.error == UnknownTimeUnit(unit) && forall u :: unit != Str(Code(u))
  {
    match Converter(unit)
    case Ok(c) => Ok(Unitime(lim, c))
    case Err(e) => Err(e)
  }

  /** Every code makes an instance, bound to the converter to its own unit. */
  lemma ToAcceptsEveryCode(lim: Limits, u: Unit)
    ensures To(lim, Str(Code(u))) == Ok(Unitime(lim, u))
  {
    ConverterKnowsEveryCode(u);
  }

  /**
   * A static unit function fails exactly when `asNumber` refuses the input,
   * with its error; otherwise every accessor of the bundle converts the
   * number read from the input from `u` to the accessor's unit.
   */
  lemma StaticMeaning(lim: Limits, u: Unit, v: Unit, input: Value)
    ensures Static(lim, u, input).Ok? <==> AsNumber(input).Ok?
    ensures Static(lim, u, input).Err? ==> Static(lim, u, input).error == AsNumber(input).error
    ensures Static(lim, u, input).Ok? ==>
      Static(lim, u, input).value.Get(v) == Reference(lim, AsNumber(input).value, Magnitude(u), Magnitude(v))
  {
    if AsNumber(input).Ok? {
      var s := Of(lim, u);
      ScaleIsCalibrated(lim, s);
      ConvertersMeaning(lim, s, AsNumber(input).value, v);
    }
  }

  /**
   * An instance unit function fails exactly when `asNumber` refuses the
   * input, with its error; otherwise it converts the number read from the
   * input from `u` to the instance's unit.
   */
  lemma InstanceMeaning(it: Unitime, u: Unit, input: Value)
    ensures it.From(u, input).Err? ==> it.From(u, input).error == AsNumber(input).error
    ensures it.From(u, input).Ok? ==>
      it.From(u, input).value == Reference(it.lim, AsNumber(input).value, Magnitude(u), Magnitude(it.converter))
  {
    if AsNumber(input).Ok? {
      var s := Of(it.lim, u);
      ScaleIsCalibrated(it.lim, s);
      ApplyMeaning(it.lim, it.converter, s, AsNumber(input).value);
    }
  }

  /**
   * `to(unit).<u>(input)` is `<u>(input)` followed by the accessor for the
   * instance's unit: the two modes agree, in success and in failure.
   */
  lemma InstanceMatchesStatic(lim: Limits, unit: Value, u: Unit, input: Value)
    requires To(lim, unit).Ok?
    ensures To(lim, unit).value.From(u, input).Ok? <==> Static(lim, u, input).Ok?
    ensures Static(lim, u, input).Ok? ==>
      To(lim, unit).value.From(u, input) == Ok(Static(lim, u, input).value.Get(To(lim, unit).value.converter))
  {
    var it := To(lim, unit).value;
    StaticMeaning(lim, u, it.converter, input);
    InstanceMeaning(it, u, input);
  }

  /** "12" is read as twelve. */
  lemma TwelveIsAccepted()
    ensures AsNumber(Str("12")) == Ok(12.0)
  {
    NumeralsAreAccepted(12);
    TwelveIsSpelled();
  }

  lemma TwelveIsSpelled()
    ensures Numeral(12) == "12"
  {
    assert Numeral(1) == "1";
  }

  /**
   * The examples of the library's documentation: a day is 1440 minutes,
   * twelve hours are half a day, and bound to milliseconds a day is
   * 86400000 and twelve hours 43200000.  They hold for any limits that leave
   * room for these numbers.
   */
  lemma DocExamples(lim: Limits)
    requires lim.Valid() && lim.max >= 100000000.0
    ensures Static(lim, Day, Str("1")).Ok? && Static(lim, Day, Str("1")).value.Get(Minute) == 1440.0
    ensures Static(lim, Hour, Str("12")).Ok? && Static(lim, Hour, Str("12")).value.Get(Day) == 0.5
    ensures To(lim, Str("ms")).Ok?
    ensures To(lim, Str("ms")).value.From(Day, Str("1")) == Ok(86400000.0)
    ensures To(lim, Str("ms")).value.From(Hour, Str("12")) == Ok(43200000.0)
  {
    TestSuiteStringOne();
    TwelveIsAccepted();
    ExampleArithmetic(lim);
    StaticExample(lim, Day, Minute, Str("1"), 1.0, 1440.0);
    StaticExample(lim, Hour, Day, Str("12"), 12.0, 0.5);
    ToAcceptsEveryCode(lim, Milli);
    assert Code(Milli) == "ms";
    InstanceExample(Unitime(lim, Milli), Day, Str("1"), 1.0, 86400000.0);
    InstanceExample(Unitime(lim, Milli), Hour, Str("12"), 12.0, 43200000.0);
  }

  /** A static unit function on an input read as `d` whose conversion to `v` is `x`. */
  lemma StaticExample(lim: Limits, u: Unit, v: Unit, input: Value, d: real, x: real)
    requires AsNumber(input) == Ok(d) && Reference(lim, d, Magnitude(u), Magnitude(v)) == x
    ensures Static(lim, u, input).Ok? && Static(lim, u, input).value.Get(v) == x
  {
    StaticMeaning(lim, u, v, input);
  }

  /** An instance unit function on an input read as `d` whose conversion is `x`. */
  lemma InstanceExample(it: Unitime, u: Unit, input: Value, d: real, x: real)
    requires AsNumber(input) == Ok(d) && Reference(it.lim, d, Magnitude(u), Magnitude(it.converter)) == x
    ensures it.From(u, input) == Ok(x)
  {
    InstanceMeaning(it, u, input);
  }

  /** The conversions behind the documented examples. */
  lemma ExampleArithmetic(lim: Limits)
    requires lim.max >= 100000000.0
    ensures Reference(lim, 1.0, DAY, MINUTE) == 1440.0
    ensures Reference(lim, 12.0, HOUR, DAY) == 0.5
    ensures Reference(lim, 1.0, DAY, MILLI) == 86400000.0
    ensures Reference(lim, 12.0, HOUR, MILLI) == 43200000.0
  {
    ReferenceExample(lim, 1.0, DAY, MINUTE, 1440.0);
    ReferenceExample(lim, 12.0, HOUR, DAY, 0.5);
    ReferenceExample(lim, 1.0, DAY, MILLI, 86400000.0);
    ReferenceExample(lim, 12.0, HOUR, MILLI, 43200000.0);
  }

  /** A conversion to a finer unit whose exact value is in range, or to a coarser one, is exact. */
  lemma ReferenceExample(lim: Limits, d: real, from: nat, to: nat, x: real)
    requires from >= 1 && to >= 1 && d * from as real == x * to as real
    requires from > to ==> -lim.max <= x <= lim.max
    ensures Reference(lim, d, from, to) == x
  {
  }

  /**
   * The same examples with the limits of `Number`.  The statement is true,
   * but like every fact about the 309-digit numerals of `NUMBER` it may lead
   * the solver, given more resources than usual, to a contradiction in a
   * proof that calls it; so no other proof does, and the properties of the
   * conversions are proved for any valid limits instead.
   */
  lemma DocExamplesWithNumber()
    ensures Static(NUMBER, Day, Str("1")).Ok? && Static(NUMBER, Day, Str("1")).value.Get(Minute) == 1440.0
    ensures Static(NUMBER, Hour, Str("12")).Ok? && Static(NUMBER, Hour, Str("12")).value.Get(Day) == 0.5
    ensures To(NUMBER, Str("ms")).Ok?
    ensures To(NUMBER, Str("ms")).value.From(Day, Str("1")) == Ok(86400000.0)
    ensures To(NUMBER, Str("ms")).value.From(Hour, Str("12")) == Ok(43200000.0)
  {
    NumberLimits();
    DocExamples(NUMBER);
  }

  /**
   * The inputs of the test suite: the numbers 1, 100 and 100e2 and the
   * strings "1", "100" and "100e2" are accepted by every unit function,
   * "test", a missing argument and NaN are refused, and `ms("100").millis()`
   * is 100.
   */
  lemma TestSuiteInputs(lim: Limits, u: Unit)
    ensures Static(lim, u, Num(1.0)).Ok? && Static(lim, u, Num(100.0)).Ok? && Static(lim, u, Num(10000.0)).Ok?
    ensures Static(lim, u, Str("1")).Ok? && Static(lim, u, Str("100")).Ok? && Static(lim, u, Str("100e2")).Ok?
    ensures Static(lim, u, Str("test")).Err? && Static(lim, u, Undefined).Err? && Static(lim, u, NaN).Err?
    ensures Static(lim, Milli, Str("100")).Ok? && Static(lim, Milli, Str("100")).value.Get(Milli) == 100.0
  {
    NumbersAndBooleansAreAccepted(1.0, true);
    NumbersAndBooleansAreAccepted(100.0, true);
    NumbersAndBooleansAreAccepted(10000.0, true);
    TestSuiteStringOne();
    TestSuiteStringHundred();
    TestSuiteStringExponent();
    TestSuiteWord();
    MissingInputIsRefused();
    NullNaNAndBlankAreRefused([]);
    StaticMeaning(lim, Milli, Milli, Str("100"));
  }

  /** Every target of the test suite makes an instance. */
  lemma TestSuiteTargets(lim: Limits)
    ensures To(lim, Str("ms")).Ok? && To(lim, Str("us")).Ok? && To(lim, Str("s")).Ok?
    ensures To(lim, Str("min")).Ok? && To(lim, Str("h")).Ok? && To(lim, Str("d")).Ok?
  {
  }
}
