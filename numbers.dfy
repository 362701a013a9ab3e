/**
 * What `Number(s)` reads from the string shapes `asNumber` is fed: runs of
 * decimal digits, with white space around them, a sign in front or a
 * decimal exponent behind.
 */
module Numbers {
  import opened Js


  /** A string of digits has no white space at either end. */
  lemma DigitsAreUnpadded(m: string)
    requires m != [] && IsDigits(m)
    ensures !IsWhiteSpace(m[0]) && !IsWhiteSpace(m[|m| - 1])
  {
    assert IsDigit(m[0]) && IsDigit(m[|m| - 1]);
  }

  lemma DigitsRead(m: string)
    requires m != [] && IsDigits(m)
    ensures Trim(m) == m
    ensures StringToNumber(m) == Some(DigitsValue(m) as real)
  {
    DigitsAreUnpadded(m);
    TrimKeepsUnpadded(m);
    UnsignedDigits(m);
    UnsignedIsDecimal(m);
    assert Decimal(Trim(m)) == Some(DigitsValue(m) as real);
  }

  lemma PaddedDigitsRead(m: string, w1: string, w2: string)
    requires m != [] && IsDigits(m) && AllWhiteSpace(w1) && AllWhiteSpace(w2)
    ensures Trim(w1 + m + w2) == m
    ensures StringToNumber(w1 + m + w2) == Some(DigitsValue(m) as real)
  {
    DigitsRead(m);
    TrimIgnoresPadding(w1, m, w2);
  }

  lemma SignedDigitsRead(sign: char, m: string)
    requires m != [] && IsDigits(m) && (sign == '-' || sign == '+')
    ensures Trim([sign] + m) == [sign] + m
    ensures StringToNumber([sign] + m) == Some(if sign == '-' then -(DigitsValue(m) as real) else DigitsValue(m) as real)
  {
    var t := [sign] + m;
    var x := if sign == '-' then -(DigitsValue(m) as real) else DigitsValue(m) as real;
    SignedDigitsTrim(sign, m);
    SignedDigitsDecimal(sign, m);
    assert t != [];
    assert Trim(t) == t;
    assert Decimal(t) == Some(x);
    ReadsAsDecimal(t, x);
  }

  lemma SignedDigitsTrim(sign: char, m: string)
    requires m != [] && IsDigits(m) && (sign == '-' || sign == '+')
    ensures Trim([sign] + m) == [sign] + m
  {
    var t := [sign] + m;
    assert t[0] == sign && t[|t| - 1] == m[|m| - 1];
    DigitsAreUnpadded(m);
    TrimKeepsUnpadded(t);
  }

  lemma SignedDigitsDecimal(sign: char, m: string)
    requires m != [] && IsDigits(m) && (sign == '-' || sign == '+')
    ensures Decimal([sign] + m) == Some(if sign == '-' then -(DigitsValue(m) as real) else DigitsValue(m) as real)
  {
    var t := [sign] + m;
    UnsignedDigits(m);
    assert t[1..] == m;
    SignedDecimal(t, DigitsValue(m) as real);
  }

  /** A string with nothing to trim is read by `Number` as the decimal it spells. */
  lemma ReadsAsDecimal(t: string, x: real)
    requires t != [] && Trim(t) == t && Decimal(t) == Some(x)
    ensures StringToNumber(t) == Some(x)
  {
  }

  lemma SignedDecimal(t: string, v: real)
    requires |t| >= 1 && (t[0] == '-' || t[0] == '+') && UnsignedDecimal(t[1..]) == Some(v)
    ensures Decimal(t) == Some(if t[0] == '-' then -v else v)
  {
  }

  lemma ExponentDigitsRead(m: string, k: string)
    requires m != [] && IsDigits(m) && k != [] && IsDigits(k)
    ensures Trim(m + "e" + k) != []
    ensures StringToNumber(m + "e" + k) == Some(Scaled(DigitsValue(m) as real, DigitsValue(k)))
  {
    ExponentDigitsTrim(m, k);
    ExponentDigitsDecimal(m, k);
    ReadsAsDecimal(m + "e" + k, Scaled(DigitsValue(m) as real, DigitsValue(k)));
  }

  lemma ExponentDigitsDecimal(m: string, k: string)
    requires m != [] && IsDigits(m) && k != [] && IsDigits(k)
    ensures Decimal(m + "e" + k) == Some(Scaled(DigitsValue(m) as real, DigitsValue(k)))
  {
    ExponentDigitsTrim(m, k);
    UnsignedDigitsExponent(m, k);
    UnsignedIsDecimal(m + "e" + k);
  }

  lemma ExponentDigitsTrim(m: string, k: string)
    requires m != [] && IsDigits(m) && k != [] && IsDigits(k)
    ensures Trim(m + "e" + k) == m + "e" + k
    ensures IsDigit((m + "e" + k)[0])
  {
    var s := m + "e" + k;
    DigitsAreUnpadded(m);
    DigitsAreUnpadded(k);
    assert s[0] == m[0];
    assert s[|s| - 1] == k[|k| - 1];
    TrimKeepsUnpadded(s);
  }

  lemma UnsignedIsDecimal(s: string)
    requires s != [] && IsDigit(s[0])
    ensures Decimal(s) == UnsignedDecimal(s)
  {
  }
}
