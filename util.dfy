/**
 * `Util.asNumber` and `Util.isEmptyString`: the validation every unit
 * function applies to its input before converting.
 */
module Util {
  import opened Js
  import opened Errors
  import opened Numbers

  /** The default of `asNumber`'s parameter, used when the argument is missing or undefined. */
  const DEFAULT_INPUT: string := "keke"

  /** `isEmptyString`: a string value that is empty or trims to nothing. */
  predicate IsEmptyString(input: Value)
  {
    input.Str? && (input.s == [] || Trim(input.s) == [])
  }

  /** A string is "empty" exactly when it is all white space. */
  lemma EmptyStringIsWhiteSpace(s: string)
    ensures IsEmptyString(Str(s)) <==> AllWhiteSpace(s)
  {
    if AllWhiteSpace(s) {
      AllWhiteSpaceTrimsAway(s);
    }
    var t := TrimStart(s);
    TrimStartShape(s);
    TrimEndShape(t);
    if TrimEnd(t) == [] {
      assert t == t[|TrimEnd(t)|..];
      forall i | 0 <= i < |s|
        ensures IsWhiteSpace(s[i])
      {
        if i < |s| - |t| {
          assert s[i] == s[..|s| - |t|][i];
        } else {
          assert s[i] == t[i - (|s| - |t|)];
        }
      }
    }
  }

  /** The default string is not a number. */
  lemma DefaultIsNaN()
    ensures IsNaN(Str(DEFAULT_INPUT))
  {
    NotANumeral(DEFAULT_INPUT);
  }

  /** A word of lower-case letters that does not begin with a number is not a number. */
  lemma NotANumeral(s: string)
    requires s != [] && forall i | 0 <= i < |s| :: 'a' <= s[i] <= 'z'
    ensures IsNaN(Str(s))
  {
    TrimKeepsUnpadded(s);
    assert Decimal(s) == UnsignedDecimal(s);
    var e := IndexOfEither(s, 'e', 'E');
    var m := s[..e];
    if e > 0 {
      var p := IndexOf(m, '.');
      assert p > 0;
      assert m[..p][0] == s[0];
    }
  }

  /**
   * `asNumber(input)`: a missing or undefined argument becomes the default
   * string; `null`, anything whose coercion is NaN and an empty string are
   * refused with the (defaulted) input; everything else is `Number(input)`.
   */
  function AsNumber(input: Value): (r: Result<real>)
    ensures r.Ok? <==>
      !input.Undefined? && !input.Null? && ToNumber(input).Some? && !IsEmptyString(input)
    ensures r.Ok? ==> ToNumber(input) == Some(r.value)
    ensures r.Err? ==> r.error == InvalidNumber(if input.Undefined? then Str(DEFAULT_INPUT) else input)
  {
    DefaultIsNaN();
    var v := if input.Undefined? then Str(DEFAULT_INPUT) else input;
    if v.Null? || IsNaN(v) || IsEmptyString(v) then
      Err(InvalidNumber(v))
    else
      Ok(ToNumber(v).value)
  }

  /** The default is not a number, so calling without an argument fails. */
  lemma MissingInputIsRefused()
    ensures AsNumber(Undefined) == Err(InvalidNumber(Str(DEFAULT_INPUT)))
  {
    DefaultIsNaN();
  }

  /** `null` coerces to 0 but is refused; so are NaN and the blank strings. */
  lemma NullNaNAndBlankAreRefused(w: string)
    requires AllWhiteSpace(w)
    ensures AsNumber(Null) == Err(InvalidNumber(Null))
    ensures AsNumber(NaN) == Err(InvalidNumber(NaN))
    ensures AsNumber(Str(w)) == Err(InvalidNumber(Str(w)))
  {
    EmptyStringIsWhiteSpace(w);
  }

  /** Finite numbers and booleans pass through as `Number` coerces them. */
  lemma NumbersAndBooleansAreAccepted(x: real, b: bool)
    ensures AsNumber(Num(x)) == Ok(x)
    ensures AsNumber(Bool(b)) == Ok(if b then 1.0 else 0.0)
  {
  }

  /** A string that reads as a number and does not trim to nothing is accepted as that number. */
  lemma ReadableIsAccepted(s: string, x: real)
    requires Trim(s) != [] && StringToNumber(s) == Some(x)
    ensures AsNumber(Str(s)) == Ok(x)
  {
  }

  /**
   * A string of decimal digits is read as its value, also with white space
   * around it or a sign in front.
   */
  lemma DigitStringsAreAccepted(m: string, w1: string, w2: string, sign: char)
    requires m != [] && IsDigits(m) && AllWhiteSpace(w1) && AllWhiteSpace(w2) && (sign == '-' || sign == '+')
    ensures AsNumber(Str(m)) == Ok(DigitsValue(m) as real)
    ensures AsNumber(Str(w1 + m + w2)) == Ok(DigitsValue(m) as real)
    ensures AsNumber(Str([sign] + m)) == Ok(if sign == '-' then -(DigitsValue(m) as real) else DigitsValue(m) as real)
  {
    DigitsRead(m);
    ReadableIsAccepted(m, DigitsValue(m) as real);
    PaddedDigitsRead(m, w1, w2);
    ReadableIsAccepted(w1 + m + w2, DigitsValue(m) as real);
    SignedDigitsRead(sign, m);
    ReadableIsAccepted([sign] + m, if sign == '-' then -(DigitsValue(m) as real) else DigitsValue(m) as real);
  }

  /** Every natural number written in decimal is accepted as itself. */
  lemma NumeralsAreAccepted(n: nat)
    ensures AsNumber(Str(Numeral(n))) == Ok(n as real)
  {
    NumeralValue(n);
    DigitsRead(Numeral(n));
    ReadableIsAccepted(Numeral(n), n as real);
  }

  /** Digits followed by an exponent `e<k>` are read as their value times ten to the `k`. */
  lemma ExponentsAreAccepted(m: string, k: string)
    requires m != [] && IsDigits(m) && k != [] && IsDigits(k)
    ensures AsNumber(Str(m + "e" + k)) == Ok(Scaled(DigitsValue(m) as real, DigitsValue(k)))
  {
    ExponentDigitsRead(m, k);
    ReadableIsAccepted(m + "e" + k, Scaled(DigitsValue(m) as real, DigitsValue(k)));
  }

  /** The numeric strings of the test suite, "1", "100" and "100e2", are accepted as their values. */
  lemma TestSuiteStringOne()
    ensures AsNumber(Str("1")) == Ok(1.0)
  {
    NumeralsAreAccepted(1);
    assert Numeral(1) == "1";
  }

  lemma TestSuiteStringHundred()
    ensures AsNumber(Str("100")) == Ok(100.0)
  {
    NumeralsAreAccepted(100);
    HundredIsSpelled();
  }

  lemma TestSuiteStringExponent()
    ensures AsNumber(Str("100e2")) == Ok(10000.0)
  {
    HundredIsSpelled();
    NumeralValue(100);
    NumeralValue(2);
    assert Numeral(2) == "2";
    ExponentsAreAccepted("100", "2");
    assert "100" + "e" + "2" == "100e2";
    assert Scaled(100.0, 2) == 10000.0;
  }

  lemma HundredIsSpelled()
    ensures Numeral(100) == "100"
  {
    assert Numeral(1) == "1";
    assert Numeral(10) == "10";
  }

  /** The word the test suite feeds every unit function is refused. */
  lemma TestSuiteWord()
    ensures AsNumber(Str("test")) == Err(InvalidNumber(Str("test")))
  {
    NotANumeral("test");
  }

}
