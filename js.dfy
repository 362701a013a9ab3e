/**
 * The parts of the JavaScript runtime that the library leans on: the values a
 * caller may pass (the library's parameters are typed `any`), the two `Number`
 * constants it saturates to, and the coercions `Number(x)`, `isNaN(x)` and
 * `String.prototype.trim`.
 *
 * Durations are exact reals: IEEE-754 rounding is not modelled.  A JavaScript
 * number that is NaN is `None` in `Option<real>`; infinities are not modelled.
 */
module Js {

  datatype Option<T> = None | Some(value: T)

  /**
   * The JavaScript values the model lets a caller hand to `asNumber` or `to`:
   * objects, arrays, symbols and bigints are not among them.
   */
  datatype Value =
    | Undefined
    | Null
    | Bool(b: bool)
    | Num(n: real)        // a number, as an exact real: no infinities and no rounding
    | NaN
    | Str(s: string)

  /** Two to the power `n`. */
  function Pow2(n: nat): (p: nat)
    ensures p >= 1
  {
    if n == 0 then 1 else 2 * Pow2(n - 1)
  }

  /** Number.MAX_VALUE: the largest finite binary64 value. */
  const MAX_VALUE: real := 179769313486231570814527423731704356798070567525844996598917476803157260780028538760589558632766878171540458953514382464234321326889464182768467546703537516986049910576551282076245490090389328944075868508455133942304583236903222948165808559332123348274797826204144723168738177180919299881250404026184124858368.0

  /** Number.MIN_VALUE: the smallest POSITIVE binary64 value, not the most negative one. */
  const MIN_VALUE: real := 1.0 / 202402253307310618352495346718917307049556649764142118356901358027430339567995346891960383701437124495187077864316811911389808737385793476867013399940738509921517424276566361364466907742093216341239767678472745068562007483424692698618103355649159556340810056512358769552333414615230502532186327508646006263307707741093494784.0

  lemma {:induction false} Pow2Add(a: nat, b: nat)
    ensures Pow2(a + b) == Pow2(a) * Pow2(b)
  {
    if b > 0 {
      Pow2Add(a, b - 1);
      assert Pow2(a + b) == 2 * Pow2(a + b - 1);
    }
  }

  lemma Pow2Sum(a: nat, b: nat, x: nat, y: nat)
    requires Pow2(a) == x && Pow2(b) == y
    ensures Pow2(a + b) == x * y
  {
    Pow2Add(a, b);
  }

  lemma Pow2Of53()
    ensures Pow2(53) == 9007199254740992
  {
    assert Pow2(1) == 2;
    Pow2Sum(1, 1, 2, 2);
    Pow2Sum(2, 2, 4, 4);
    Pow2Sum(4, 4, 16, 16);
    Pow2Sum(8, 8, 256, 256);
    Pow2Sum(16, 16, 65536, 65536);
    Pow2Sum(32, 16, 4294967296, 65536);
    Pow2Sum(48, 4, 281474976710656, 16);
    Pow2Sum(52, 1, 4503599627370496, 2);
  }

  lemma Pow2Of971()
    ensures Pow2(971) == 19958403095347198116563727130368385660674512604354575415025472424372118918689640657849579654926357010893424468441924952439724379883935936607391717982848314203200056729510856765175377214443629871826533567445439239933308104551208703888888552684480441575071209068757560416423584952303440099278848
  {
    assert Pow2(1) == 2;
    Pow2Sum(1, 1, 2, 2);
    Pow2Sum(2, 2, 4, 4);
    Pow2Sum(4, 4, 16, 16);
    Pow2Sum(8, 8, 256, 256);
    Pow2Sum(16, 16, 65536, 65536);
    Pow2Sum(32, 32, 4294967296, 4294967296);
    Pow2Sum(64, 64, 18446744073709551616, 18446744073709551616);
    Pow2Sum(128, 128, 340282366920938463463374607431768211456, 340282366920938463463374607431768211456);
    Pow2Sum(256, 256, 115792089237316195423570985008687907853269984665640564039457584007913129639936, 115792089237316195423570985008687907853269984665640564039457584007913129639936);
    Pow2Sum(512, 256, 13407807929942597099574024998205846127479365820592393377723561443721764030073546976801874298166903427690031858186486050853753882811946569946433649006084096, 115792089237316195423570985008687907853269984665640564039457584007913129639936);
    Pow2Sum(768, 128, 1552518092300708935148979488462502555256886017116696611139052038026050952686376886330878408828646477950487730697131073206171580044114814391444287275041181139204454976020849905550265285631598444825262999193716468750892846853816057856, 340282366920938463463374607431768211456);
    Pow2Sum(896, 64, 528294531135665246352339784916516606518847326036121522127960709026673902556724859474417255887657187894674394993257128678882347559502685537250538978462939576908386683999005084168731517676426441053024232908211188404148028292751561738838396898767036476489538580897737998336, 18446744073709551616);
    Pow2Sum(960, 8, 9745314011399999080353382387875188310876226857595007526867906457212948690766426102465615065882010259225304916231408668183459169865203094046577987296312653419531277699956473029870789655490053648352799593479218378873685597925394874945746363615468965612827738803104277547081828589991914110976, 256);
    Pow2Sum(968, 2, 2494800386918399764570465891296048207584314075544321926878184053046514864836205082231197456865794626361678058555240619054965547485491992075923964747856039275400007091188857095646922151805453733978316695930679904991663513068901087986111069085560055196883901133594695052052948119037930012409856, 4);
    Pow2Sum(970, 1, 9979201547673599058281863565184192830337256302177287707512736212186059459344820328924789827463178505446712234220962476219862189941967968303695858991424157101600028364755428382587688607221814935913266783722719619966654052275604351944444276342240220787535604534378780208211792476151720049639424, 2);
  }

  lemma Pow2Of1074()
    ensures Pow2(1074) == 202402253307310618352495346718917307049556649764142118356901358027430339567995346891960383701437124495187077864316811911389808737385793476867013399940738509921517424276566361364466907742093216341239767678472745068562007483424692698618103355649159556340810056512358769552333414615230502532186327508646006263307707741093494784
  {
    assert Pow2(1) == 2;
    Pow2Sum(1, 1, 2, 2);
    Pow2Sum(2, 2, 4, 4);
    Pow2Sum(4, 4, 16, 16);
    Pow2Sum(8, 8, 256, 256);
    Pow2Sum(16, 16, 65536, 65536);
    Pow2Sum(32, 32, 4294967296, 4294967296);
    Pow2Sum(64, 64, 18446744073709551616, 18446744073709551616);
    Pow2Sum(128, 128, 340282366920938463463374607431768211456, 340282366920938463463374607431768211456);
    Pow2Sum(256, 256, 115792089237316195423570985008687907853269984665640564039457584007913129639936, 115792089237316195423570985008687907853269984665640564039457584007913129639936);
    Pow2Sum(512, 512, 13407807929942597099574024998205846127479365820592393377723561443721764030073546976801874298166903427690031858186486050853753882811946569946433649006084096, 13407807929942597099574024998205846127479365820592393377723561443721764030073546976801874298166903427690031858186486050853753882811946569946433649006084096);
    Pow2Sum(1024, 32, 179769313486231590772930519078902473361797697894230657273430081157732675805500963132708477322407536021120113879871393357658789768814416622492847430639474124377767893424865485276302219601246094119453082952085005768838150682342462881473913110540827237163350510684586298239947245938479716304835356329624224137216, 4294967296);
    Pow2Sum(1056, 16, 772103322247736428651791941524190166662432288223808740069966728315087660095197093551484618001698015194652854401843307157096133183997320086925557708514169730840749451738610692460887556999562135090788908685580234789131193097780962748024381086918485856402626253175196722230275782071039209488625822100242638638716536487936, 65536);
    Pow2Sum(1072, 2, 50600563326827654588123836679729326762389162441035529589225339506857584891998836722990095925359281123796769466079202977847452184346448369216753349985184627480379356069141590341116726935523304085309941919618186267140501870856173174654525838912289889085202514128089692388083353653807625633046581877161501565826926935273373696, 4);
  }

  /**
   * Number.MAX_VALUE is (2^53 - 1) * 2^971: a full 53-bit significand at the
   * largest exponent.  The fact is true, but with a resource budget well
   * above the usual one the solver can derive a contradiction from numerals
   * this large, so no other proof calls this lemma; this is why the
   * conversions take their limits as a parameter.
   */
  lemma MaxValueIsLargestDouble()
    ensures MAX_VALUE == ((Pow2(53) - 1) * Pow2(971)) as real
  {
    Pow2Of53();
    Pow2Of971();
  }

  /**
   * Number.MIN_VALUE is 2^-1074, the smallest subnormal binary64 value.  As
   * for `MaxValueIsLargestDouble`, no other proof calls it.
   */
  lemma MinValueIsSmallestDouble()
    ensures MIN_VALUE == 1.0 / Pow2(1074) as real
  {
    Pow2Of1074();
  }

  /**
   * The two `Number` constants a conversion reads: the largest finite value,
   * returned on overflow, and the value returned on negative overflow.  The
   * conversions take them as a parameter and are proved for every valid
   * pair; the library runs with `NUMBER`.
   */
  datatype Limits = Limits(max: real, min: real)
  {
    predicate Valid()
    {
      0.0 < min < max
    }
  }

  const NUMBER: Limits := Limits(MAX_VALUE, MIN_VALUE)

  /**
   * Number.MIN_VALUE is a tiny positive number; Number.MAX_VALUE is about
   * 1.797e308.  These are the only facts about `NUMBER` the other proofs
   * use, and only `Facade.DocExamplesWithNumber` uses them.
   */
  lemma NumberLimits()
    ensures NUMBER.Valid()
    ensures NUMBER.min < 1.0
    ensures 1.797e308 < NUMBER.max < 1.798e308
  {
  }

  /**
   * The characters `trim` removes and `Number(s)` skips: ECMAScript WhiteSpace
   * (TAB, VT, FF, ZWNBSP and every Unicode "Zs" space) and LineTerminator
   * (LF, CR, LS, PS).
   */
  predicate IsWhiteSpace(c: char)
  {
    var n := c as int;
    n == 0x09 || n == 0x0B || n == 0x0C || n == 0xFEFF
    || n == 0x20 || n == 0xA0 || n == 0x1680 || (0x2000 <= n <= 0x200A)
    || n == 0x202F || n == 0x205F || n == 0x3000
    || n == 0x0A || n == 0x0D || n == 0x2028 || n == 0x2029
  }

  predicate AllWhiteSpace(s: string)
  {
    forall i | 0 <= i < |s| :: IsWhiteSpace(s[i])
  }

  /** Drops the leading white space. */
  function TrimStart(s: string): string
  {
    if s != [] && IsWhiteSpace(s[0]) then TrimStart(s[1..]) else s
  }

  /** The result of `TrimStart` is the longest suffix that does not start with white space. */
  lemma {:induction false} TrimStartShape(s: string)
    ensures |TrimStart(s)| <= |s| && TrimStart(s) == s[|s| - |TrimStart(s)|..]
    ensures AllWhiteSpace(s[..|s| - |TrimStart(s)|])
    ensures TrimStart(s) == [] || !IsWhiteSpace(TrimStart(s)[0])
  {
    if s != [] && IsWhiteSpace(s[0]) {
      var s' := s[1..];
      TrimStartShape(s');
      var n := |s| - |TrimStart(s)|;
      assert s[n..] == s'[n - 1..];
      forall i | 0 <= i < n
        ensures IsWhiteSpace(s[..n][i])
      {
        if i > 0 {
          assert s[..n][i] == s'[..n - 1][i - 1];
        }
      }
    }
  }

  /** Drops the trailing white space. */
  function TrimEnd(s: string): string
  {
    if s != [] && IsWhiteSpace(s[|s| - 1]) then TrimEnd(s[..|s| - 1]) else s
  }

  /** The result of `TrimEnd` is the longest prefix that does not end with white space. */
  lemma {:induction false} TrimEndShape(s: string)
    ensures |TrimEnd(s)| <= |s| && TrimEnd(s) == s[..|TrimEnd(s)|]
    ensures AllWhiteSpace(s[|TrimEnd(s)|..])
    ensures TrimEnd(s) == [] || !IsWhiteSpace(TrimEnd(s)[|TrimEnd(s)| - 1])
  {
    if s != [] && IsWhiteSpace(s[|s| - 1]) {
      var s' := s[..|s| - 1];
      TrimEndShape(s');
      var n := |TrimEnd(s)|;
      assert s[..n] == s'[..n];
      forall i | 0 <= i < |s| - n
        ensures IsWhiteSpace(s[n..][i])
      {
        if i < |s| - 1 - n {
          assert s[n..][i] == s'[n..][i];
        }
      }
    }
  }

  /** String.prototype.trim. */
  function Trim(s: string): string
  {
    TrimEnd(TrimStart(s))
  }

  predicate IsDigit(c: char)
  {
    '0' <= c <= '9'
  }

  predicate IsDigits(s: string)
  {
    forall i | 0 <= i < |s| :: IsDigit(s[i])
  }

  /** The value of a string of decimal digits, most significant first. */
  function DigitsValue(s: string): nat
    requires IsDigits(s)
  {
    if s == [] then 0 else 10 * DigitsValue(s[..|s| - 1]) + (s[|s| - 1] as int - '0' as int)
  }

  function Pow10(n: nat): (p: nat)
    ensures p >= 1
  {
    if n == 0 then 1 else 10 * Pow10(n - 1)
  }

  /** `m` times ten to the power `e`, one factor of ten at a time. */
  function Scaled(m: real, e: int): real
    decreases if e >= 0 then e else -e
  {
    if e == 0 then m else if e > 0 then 10.0 * Scaled(m, e - 1) else Scaled(m, e + 1) / 10.0
  }

  lemma {:induction false} ScaledByPowers(m: real, e: nat)
    ensures Scaled(m, e) == m * Pow10(e) as real
    ensures Scaled(m, -(e as int)) == m / Pow10(e) as real
  {
    if e > 0 {
      ScaledByPowers(m, e - 1);
      assert Pow10(e) as real == 10.0 * Pow10(e - 1) as real;
      assert m * Pow10(e) as real == 10.0 * (m * Pow10(e - 1) as real);
      var q := Pow10(e - 1) as real;
      assert Scaled(m, -(e as int)) == (m / q) / 10.0;
      assert (m / q) / 10.0 == m / (10.0 * q);
    }
  }

  /** The value of the digits after a decimal point, most significant first. */
  function FractionValue(s: string): real
    requires IsDigits(s)
  {
    if s == [] then 0.0 else ((s[0] as int - '0' as int) as real + FractionValue(s[1..])) / 10.0
  }

  /** The first index of `a` or `b` in `s`, or `|s|` when neither occurs. */
  function IndexOfEither(s: string, a: char, b: char): (i: nat)
    ensures i <= |s|
    ensures i < |s| ==> s[i] == a || s[i] == b
    ensures forall j | 0 <= j < i :: s[j] != a && s[j] != b
  {
    if s == [] || s[0] == a || s[0] == b then 0 else 1 + IndexOfEither(s[1..], a, b)
  }

  /** The index of the first `c` in `s`, or `|s|` when there is none. */
  function IndexOf(s: string, c: char): (i: nat)
    ensures i <= |s|
    ensures i < |s| ==> s[i] == c
    ensures forall j | 0 <= j < i :: s[j] != c
  {
    IndexOfEither(s, c, c)
  }

  /** The digits of an ExponentPart after its `e`: an optional sign, then at least one digit. */
  function ExponentValue(s: string): Option<int>
  {
    if s != [] && (s[0] == '+' || s[0] == '-') then
      if |s| > 1 && IsDigits(s[1..]) then
        var n: int := DigitsValue(s[1..]);
        Some(if s[0] == '-' then -n else n)
      else None
    else if s != [] && IsDigits(s) then Some(DigitsValue(s))
    else None
  }

  /** The part before an exponent: `digits [. digits?]` or `. digits`. */
  function MantissaValue(s: string): Option<real>
  {
    var p := IndexOf(s, '.');
    var whole := s[..p];
    var fraction := if p < |s| then s[p + 1..] else [];
    if IsDigits(whole) && IsDigits(fraction) && (whole != [] || fraction != []) then
      Some(DigitsValue(whole) as real + FractionValue(fraction))
    else None
  }

  /**
   * StrUnsignedDecimalLiteral of section 7.1.4.1 of ECMA-262 without its
   * `Infinity` alternative: a mantissa, then optionally `e` or `E` and an
   * exponent.  `None` is NaN.
   */
  function UnsignedDecimal(s: string): Option<real>
  {
    var e := IndexOfEither(s, 'e', 'E');
    var mantissa := MantissaValue(s[..e]);
    var exponent := if e < |s| then ExponentValue(s[e + 1..]) else Some(0);
    if mantissa.Some? && exponent.Some? then Some(Scaled(mantissa.value, exponent.value)) else None
  }

  /** StrDecimalLiteral: an optional sign before the unsigned literal. */
  function Decimal(s: string): Option<real>
  {
    if s != [] && s[0] == '+' then UnsignedDecimal(s[1..])
    else if s != [] && s[0] == '-' then
      match UnsignedDecimal(s[1..])
      case Some(x) => Some(-x)
      case None => None
    else UnsignedDecimal(s)
  }

  /**
   * StringToNumber on the decimal grammar: surrounding white space is
   * ignored, and a string that is empty or only white space is 0.
   */
  function StringToNumber(s: string): Option<real>
  {
    var t := Trim(s);
    if t == [] then Some(0.0) else Decimal(t)
  }

  /** `Number(v)`, the ToNumber coercion; `None` is NaN. */
  function ToNumber(v: Value): Option<real>
  {
    match v
    case Undefined => None
    case Null => Some(0.0)
    case Bool(b) => Some(if b then 1.0 else 0.0)
    case Num(x) => Some(x)
    case NaN => None
    case Str(s) => StringToNumber(s)
  }

  /** The global `isNaN(v)`: true when `v` coerces to NaN. */
  predicate IsNaN(v: Value)
  {
    ToNumber(v).None?
  }

  /** The digit character for `n`. */
  function Digit(n: nat): (c: char)
    requires n < 10
    ensures IsDigit(c) && c as int - '0' as int == n
  {
    ('0' as int + n) as char
  }

  /** The decimal numeral of `n`, without leading zeros. */
  function Numeral(n: nat): (s: string)
    ensures s != [] && IsDigits(s)
  {
    if n < 10 then [Digit(n)] else Numeral(n / 10) + [Digit(n % 10)]
  }

  lemma {:induction false} NumeralValue(n: nat)
    ensures DigitsValue(Numeral(n)) == n
  {
    if n >= 10 {
      NumeralValue(n / 10);
      var s := Numeral(n);
      assert s[..|s| - 1] == Numeral(n / 10);
    }
  }

  lemma TrimKeepsUnpadded(s: string)
    requires s != [] && !IsWhiteSpace(s[0]) && !IsWhiteSpace(s[|s| - 1])
    ensures Trim(s) == s
  {
  }

  lemma {:induction false} AllWhiteSpaceTrimsAway(w: string)
    requires AllWhiteSpace(w)
    ensures TrimStart(w) == []
  {
    if w != [] {
      AllWhiteSpaceTrimsAway(w[1..]);
    }
  }

  lemma {:induction false} TrimStartSkips(w: string, x: string)
    requires AllWhiteSpace(w)
    ensures TrimStart(w + x) == TrimStart(x)
  {
    if w != [] {
      var y := w + x;
      assert y[0] == w[0] && IsWhiteSpace(y[0]);
      assert TrimStart(y) == TrimStart(y[1..]);
      assert y[1..] == w[1..] + x;
      TrimStartSkips(w[1..], x);
    } else {
      assert w + x == x;
    }
  }

  lemma {:induction false} TrimEndSkips(x: string, w: string)
    requires AllWhiteSpace(w)
    ensures TrimEnd(x + w) == TrimEnd(x)
  {
    if w != [] {
      var w' := w[..|w| - 1];
      assert (x + w)[..|x + w| - 1] == x + w';
      TrimEndSkips(x, w');
    } else {
      assert x + w == x;
    }
  }

  lemma {:induction false} TrimIgnoresTrailing(x: string, w: string)
    requires AllWhiteSpace(w)
    ensures TrimEnd(TrimStart(x + w)) == TrimEnd(TrimStart(x))
  {
    if x == [] {
      assert x + w == w;
      AllWhiteSpaceTrimsAway(w);
    } else if IsWhiteSpace(x[0]) {
      assert (x + w)[1..] == x[1..] + w;
      TrimIgnoresTrailing(x[1..], w);
    } else {
      TrimEndSkips(x, w);
    }
  }

  /** `trim` ignores white space added at either end. */
  lemma TrimIgnoresPadding(w1: string, s: string, w2: string)
    requires AllWhiteSpace(w1) && AllWhiteSpace(w2)
    ensures Trim(w1 + s + w2) == Trim(s)
  {
    var padded := w1 + s + w2;
    assert padded == w1 + (s + w2);
    TrimStartSkips(w1, s + w2);
    assert TrimStart(padded) == TrimStart(s + w2);
    TrimIgnoresTrailing(s, w2);
    assert Trim(padded) == TrimEnd(TrimStart(padded));
  }

  lemma {:induction false} DigitsHaveNo(s: string, a: char, b: char)
    requires IsDigits(s) && !IsDigit(a) && !IsDigit(b)
    ensures IndexOfEither(s, a, b) == |s|
  {
    if s != [] {
      DigitsHaveNo(s[1..], a, b);
    }
  }

  lemma MantissaDigits(m: string)
    requires m != [] && IsDigits(m)
    ensures MantissaValue(m) == Some(DigitsValue(m) as real)
  {
    DigitsHaveNo(m, '.', '.');
    assert m[..|m|] == m;
    var zero: string := [];
    assert FractionValue(zero) == 0.0;
  }

  /** A plain numeral is read as its value. */
  lemma UnsignedDigits(s: string)
    requires s != [] && IsDigits(s)
    ensures UnsignedDecimal(s) == Some(DigitsValue(s) as real)
  {
    DigitsHaveNo(s, 'e', 'E');
    assert s[..|s|] == s;
    MantissaDigits(s);
  }

  lemma {:induction false} IndexAfterDigits(m: string, c: char, rest: string, a: char, b: char)
    requires IsDigits(m) && !IsDigit(a) && !IsDigit(b) && (c == a || c == b)
    ensures IndexOfEither(m + [c] + rest, a, b) == |m|
  {
    if m != [] {
      assert (m + [c] + rest)[1..] == m[1..] + [c] + rest;
      IndexAfterDigits(m[1..], c, rest, a, b);
    }
  }

  /** A numeral with an exponent `e<k>` is read as the numeral times ten to the `k`. */
  lemma UnsignedDigitsExponent(m: string, k: string)
    requires m != [] && IsDigits(m) && k != [] && IsDigits(k)
    ensures UnsignedDecimal(m + "e" + k) == Some(Scaled(DigitsValue(m) as real, DigitsValue(k)))
  {
    var s := m + "e" + k;
    IndexAfterDigits(m, 'e', k, 'e', 'E');
    assert s[..|m|] == m;
    assert s[|m| + 1..] == k;
    assert ExponentValue(k) == Some(DigitsValue(k) as int);
    MantissaDigits(m);
  }
}
