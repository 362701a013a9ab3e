# Unitime conversion engine in Dafny

A model of the conversion engine of the Unitime library (`lib/Unitime.ts`,
compiled into `dist/Unitime.js`). The library converts a duration given in
one of seven time units (ns, us, ms, s, min, h, d) into any other of them.
When the result would pass `Number.MAX_VALUE`, it saturates.

The TypeScript source and the compiled JavaScript hold the same logic, so one
model covers both. The source is pure: branch-and-return functions and
records initialised once. The model is therefore written with datatypes,
functions and lemmas.

Modules, in dependency order:

- `Js` (`js.dfy`): the JavaScript runtime pieces that the library uses.
  - The values a caller may pass: `undefined`, `null`, booleans, finite
    numbers, NaN and strings.
  - `Number.MAX_VALUE` and `Number.MIN_VALUE` as exact reals, with their
    binary64 derivations.
  - `String.prototype.trim`.
  - `Number(x)`/`isNaN(x)` over the decimal grammar of StringToNumber
    (section 7.1.4.1 of ECMA-262).
- `Errors` (`errors.dfy`): the two errors the library throws, and a `Result`
  type standing for "returns or throws".
- `Units` (`units.dfy`): `enum Unit` and its magnitudes in nanoseconds.
- `Scales` (`scales.dfy`): `class Scale`, its constructor and the seven
  accessors.
- `Convert` (`convert.dfy`): `toUnit`, `toNanos` … `toDays`, `converter` and
  `converters`.
- `Properties` (`properties.dfy`): laws of the conversion specification:
  identity, bounds, sign, round trips and composition.
- `Numbers` (`numbers.dfy`): what `Number(s)` reads from digit strings, from
  padded and signed ones, and from ones with an exponent.
- `Util` (`util.dfy`): `asNumber` and `isEmptyString`.
- `Facade` (`facade.dfy`): `class Unitime`, meaning the static unit functions,
  `to`, and the instance unit functions.

Key modelling decisions:

- **Exact arithmetic.** Durations are exact `real`s.
- **The limits are a parameter.** Every conversion takes
  `lim: Limits(max, min)`, standing for `Number.MAX_VALUE` and
  `Number.MIN_VALUE`. `Facade.StaticMeaning`, `Facade.InstanceMeaning` and
  `Facade.InstanceMatchesStatic` hold for any limits at all.
  `Facade.DocExamples` needs valid limits (`0 < min < max`) with `max` at
  least 10^8, which leaves room for the results of the examples.
  `Js.NUMBER` is the pair of real constants, and `Facade.DocExamplesWithNumber`
  applies the documented examples to it. The two constants are numerals of
  more than 300 digits. The facts stated about them (`Js.MaxValueIsLargestDouble`,
  `Js.MinValueIsSmallestDouble`, `Js.NumberLimits`,
  `Facade.DocExamplesWithNumber`) are true. However, with a resource budget
  well above the one these proofs use, the solver can derive a contradiction
  in a proof that calls one of them, because the numerals are so large. So no
  other proof calls them, and the conversion laws are proved for every valid
  pair of limits. That is why the limits are a parameter.
- **The specification of a conversion.** It is `Convert.Reference`:
  - towards a coarser or equal unit, the exact value `d * from / to`;
  - towards a finer unit, the exact value saturated by `Convert.Saturate`.
- **One shape for three converters.** `toMicros`, `toMillis` and `toSeconds`
  share one shape, `Convert.Rescale`. It takes the ratio and the threshold
  that the `Scale` constructor precomputed.
- **The negative-overflow quirk is kept literally.** Take a duration that
  converts to below `-Number.MAX_VALUE`. The source returns `Number.MIN_VALUE`,
  which is the smallest *positive* number, not `-Number.MAX_VALUE`
  (`lib/Unitime.ts:158-159` and the same branch in each converter). The
  documentation announces saturation "depending on the sign", so this is
  evidently not intended. The conversions still do what the code does.
  `Properties.NegativeOverflowTurnsPositive` states the quirk. Beside it,
  `Convert.SaturateIntended` and `Convert.ReferenceIntended` are the intended
  behaviour, which keeps the sign (`Properties.IntendedKeepsSign`).
  `Properties.ReferenceDiffers` shows that the two differ exactly on negative
  overflow. See "## Findings".
- **A thrown error is an `Err` result.** `asNumber` throws "Failed to
  interpret …" (`InvalidNumber`). `converter` throws "Unknown time unit …"
  (`UnknownTimeUnit`).
- **Closures are data.** A bound converter is its destination unit
  (`Facade.Unitime.converter`). The bundle `converters(source, duration)` is
  the datatype `Convert.Convertable`, whose seven accessors are functions of
  the pair.

## Model

| member | source | states |
|---|---|---|
| Units.Magnitude | dist/Unitime.js:53-62 | each unit's magnitude is the literal the compiled enum assigns, and at least 1 |
| Units.MagnitudeDefinitions | lib/Unitime.ts:45-53 | the literals satisfy the enum's definitions: NANO is 1, and each magnitude is 1000, 1000, 1000, 60, 60 or 24 times the previous one |
| Units.MagnitudeOrder | lib/Unitime.ts:45-53 | magnitudes are strictly increasing in the order NANO … DAY, in both directions of the iff |
| Units.MagnitudeDivides | lib/Unitime.ts:45-53 | every magnitude is a whole multiple (`Span`) of every smaller one, so every ratio between units is an integer |
| Units.UnitOf | lib/Unitime.ts:45-53 | a magnitude determines its unit: `Magnitude(UnitOf(m)) == m` |
| Scales.Of | lib/Unitime.ts:92-118 | each accessor `Scale.nanoseconds` … `Scale.days` is a scale built by the constructor from its unit's magnitude, with all ratios at least 1 |
| Scales.ValidIsOf | lib/Unitime.ts:75-90 | a scale the constructor builds from an enum member is exactly that member's accessor |
| Scales.New | lib/Unitime.ts:75-90 | no contract of its own; what the constructor computes is stated by `Scales.Of`, `Scales.ValidIsOf` and `Scales.ScaleIsCalibrated` |
| Scales.Ratio | lib/Unitime.ts:78-88 | a ratio is the larger magnitude divided by the smaller, so it is at least 1 |
| Scales.ScaleIsCalibrated | lib/Unitime.ts:75-90 | in every constructed scale, each of microRatio, milliRatio and secRatio is a whole number taking the smaller magnitude to the larger; maxNanos times scale, and every other max* times its ratio, equal MAX_VALUE |
| Convert.Saturate | lib/Unitime.ts:156-161 | no contract of its own; its behaviour is stated by `Properties.CoarseToFine`, `Properties.StaysInRange` and `Properties.NegativeOverflowTurnsPositive` |
| Convert.Reference | lib/Unitime.ts:151-163 | no contract of its own; it is the specification the converters are proved against, and its laws are the `Properties` lemmas |
| Convert.SaturateIntended | lib/Unitime.ts:31-35 | no contract of its own; the saturation "depending on the sign" that the documentation promises, stated by `Properties.SaturateIntendedKeepsSign` |
| Convert.ReferenceIntended | lib/Unitime.ts:31-35 | no contract of its own; `Reference` with the intended saturation, stated by `Properties.IntendedKeepsSign` and `Properties.ReferenceDiffers` |
| Convert.ToUnit | lib/Unitime.ts:151-163 | no contract of its own; its meaning is `Convert.ToUnitMeaning` |
| Convert.ToNanos | lib/Unitime.ts:165-175 | no contract of its own; its meaning is `Convert.ToNanosMeaning` |
| Convert.Rescale | lib/Unitime.ts:177-217 | no contract of its own; its meaning is `Convert.RescaleMeaning` |
| Convert.ToMicros | lib/Unitime.ts:177-189 | no contract of its own; its meaning is `Convert.ToMicrosMeaning` |
| Convert.ToMillis | lib/Unitime.ts:191-203 | no contract of its own; its meaning is `Convert.ToMillisMeaning` |
| Convert.ToSeconds | lib/Unitime.ts:205-217 | no contract of its own; its meaning is `Convert.ToSecondsMeaning` |
| Convert.ToMinutes | lib/Unitime.ts:219-221 | no contract of its own; its meaning is `Convert.DerivedMeaning` |
| Convert.ToHours | lib/Unitime.ts:223-225 | no contract of its own; its meaning is `Convert.DerivedMeaning` |
| Convert.ToDays | lib/Unitime.ts:227-229 | no contract of its own; its meaning is `Convert.DerivedMeaning` |
| Convert.RescaleMeaning | lib/Unitime.ts:177-217 | the shared shape of toMicros/toMillis/toSeconds computes the reference value if the ratio and the threshold are the ones the constructor computes |
| Convert.RescaleFiner | lib/Unitime.ts:180-181 | with a finer source, dividing by the ratio is the exact rescaling |
| Convert.RescaleCoarser | lib/Unitime.ts:182-187 | with a coarser source, comparing with the threshold and multiplying by the ratio is the saturated exact rescaling |
| Convert.ToUnitMeaning | lib/Unitime.ts:151-163 | `toUnit` returns the duration for the same unit, `d * from / to` towards a coarser unit, and the saturated product towards a finer one |
| Convert.ToNanosMeaning | lib/Unitime.ts:165-175 | `toNanos` is identity for a NANO source and otherwise the saturated exact product; it needs no finer-source branch |
| Convert.NanosCoarser | lib/Unitime.ts:168-173 | comparing with maxNanos and multiplying by scale is saturating the exact product |
| Convert.ToMicrosMeaning | lib/Unitime.ts:177-189 | `toMicros` computes the reference conversion to MICRO for every constructed scale |
| Convert.ToMillisMeaning | lib/Unitime.ts:191-203 | `toMillis` computes the reference conversion to MILLI for every constructed scale |
| Convert.ToSecondsMeaning | lib/Unitime.ts:205-217 | `toSeconds` computes the reference conversion to SECOND for every constructed scale |
| Convert.DerivedMeaning | lib/Unitime.ts:219-229 | `toMinutes`, `toHours` and `toDays` compute the reference conversions to MINUTE, HOUR and DAY |
| Convert.SpecialisedAgreeWithGeneric | dist/Unitime.js:181-262 | under exact arithmetic, `toNanos`, `toMicros`, `toMillis` and `toSeconds` equal `toUnit` with the matching destination scale |
| Convert.CodesAreDistinct | lib/Unitime.ts:125-132 | the seven unit codes are pairwise distinct |
| Convert.Code | lib/Unitime.ts:125-132 | no contract of its own; the case labels of `converter`, stated distinct by `Convert.CodesAreDistinct` and recognised by `Convert.ConverterKnowsEveryCode` |
| Convert.Converter | lib/Unitime.ts:124-137 | `converter` succeeds only on one of the seven codes, selecting that code's unit, and for any other value fails with the "Unknown time unit" error carrying the value |
| Convert.ConverterKnowsEveryCode | dist/Unitime.js:154-167 | every code is recognised and selects the converter to its own unit |
| Convert.Apply | lib/Unitime.ts:124-137 | no contract of its own; calling the converter `converter` selects, whose meaning is `Convert.ApplyMeaning` |
| Convert.ApplyMeaning | lib/Unitime.ts:121-137 | the converter selected for a destination unit computes the reference conversion to that unit |
| Convert.ConvertersMeaning | lib/Unitime.ts:139-149 | each of the seven accessors of `converters(source, duration)` is the matching converter on the bound pair, and so the reference conversion to its unit |
| Convert.Converters | lib/Unitime.ts:139-149 | no contract of its own; its meaning is `Convert.ConvertersMeaning` |
| Convert.Convertable.Nanos | lib/Unitime.ts:141 | no contract of its own; the `nanos` closure of the bundle, whose meaning is `Convert.ConvertersMeaning` |
| Convert.Convertable.Micros | lib/Unitime.ts:142 | no contract of its own; the `micros` closure of the bundle, whose meaning is `Convert.ConvertersMeaning` |
| Convert.Convertable.Millis | lib/Unitime.ts:143 | no contract of its own; the `millis` closure of the bundle, whose meaning is `Convert.ConvertersMeaning` |
| Convert.Convertable.Seconds | lib/Unitime.ts:144 | no contract of its own; the `seconds` closure of the bundle, whose meaning is `Convert.ConvertersMeaning` |
| Convert.Convertable.Minutes | lib/Unitime.ts:145 | no contract of its own; the `minutes` closure of the bundle, whose meaning is `Convert.ConvertersMeaning` |
| Convert.Convertable.Hours | lib/Unitime.ts:146 | no contract of its own; the `hours` closure of the bundle, whose meaning is `Convert.ConvertersMeaning` |
| Convert.Convertable.Days | lib/Unitime.ts:147 | no contract of its own; the `days` closure of the bundle, whose meaning is `Convert.ConvertersMeaning` |
| Convert.Convertable.Get | lib/Unitime.ts:139-149 | no contract of its own; the accessor of the bundle for a unit, whose meaning is `Convert.ConvertersMeaning` |
| Properties.ExactCounts | lib/Unitime.ts:151-163 | the exact rescaling counts the same duration in units of the destination |
| Properties.ExactShrinks | lib/Unitime.ts:154-155 | towards a coarser unit, the exact rescaling does not grow in magnitude, and keeps sign and zero |
| Properties.ExactKeepsSign | lib/Unitime.ts:151-163 | the exact rescaling keeps sign and zero |
| Properties.ExactRoundTrip | lib/Unitime.ts:151-163 | exact rescaling there and back is the identity |
| Properties.ExactComposes | lib/Unitime.ts:151-163 | exact rescaling in two steps equals rescaling in one |
| Properties.Identity | lib/Unitime.ts:152-153 | converting to the unit the duration is in returns it unchanged |
| Properties.FineToCoarse | lib/Unitime.ts:154-155 | a conversion to a coarser unit never saturates: the result times the destination equals the duration times the source, and its magnitude is at most the duration's |
| Properties.CoarseToFine | lib/Unitime.ts:156-161 | towards a finer unit: above the threshold the result is MAX_VALUE, below its negation it is MIN_VALUE, and otherwise it is the exact product |
| Properties.StaysInRange | lib/Unitime.ts:156-161 | a duration within plus or minus MAX_VALUE converts to a value within that range, whatever the units |
| Properties.NegativeOverflowTurnsPositive | lib/Unitime.ts:158-159 | a negative overflow yields the positive MIN_VALUE, not a negative number |
| Properties.SignIsKept | lib/Unitime.ts:151-163 | apart from the negative overflow, a conversion keeps the sign and zero of the duration |
| Properties.SaturateIntendedKeepsSign | lib/Unitime.ts:31-35 | the intended saturation keeps the sign and zero of every number and stays within plus or minus MAX_VALUE |
| Properties.IntendedKeepsSign | lib/Unitime.ts:31-35 | with the intended saturation every conversion keeps the sign and zero of the duration, in both directions |
| Properties.SaturateDiffers | lib/Unitime.ts:158-159 | the saturation as written differs from the intended one exactly below `-MAX_VALUE` |
| Properties.ReferenceDiffers | lib/Unitime.ts:158-159 | a conversion as written differs from the intended one exactly when it goes to a finer unit and the exact result is below `-MAX_VALUE` |
| Properties.RoundTrip | lib/Unitime.ts:151-163 | converting to a coarser unit and back returns the duration |
| Properties.RoundTripUnsaturated | lib/Unitime.ts:156-161 | converting to a finer unit without saturating and back returns the duration |
| Properties.Composition | lib/Unitime.ts:154-155 | two conversions towards coarser units are one conversion |
| Js.MaxValueIsLargestDouble | lib/Unitime.ts:156-157 | the saturation bound is (2^53 - 1) * 2^971, the largest binary64 value |
| Js.MinValueIsSmallestDouble | lib/Unitime.ts:158-159 | the negative-overflow result is 2^-1074, the smallest positive binary64 value |
| Js.NumberLimits | lib/Unitime.ts:156-159 | the two constants form valid limits: 0 < MIN_VALUE < 1 and MAX_VALUE is about 1.797e308 |
| Js.TrimStartShape | lib/Unitime.ts:242 | the leading part `trim` drops is all white space, and what remains does not start with white space |
| Js.TrimEndShape | lib/Unitime.ts:242 | the trailing part `trim` drops is all white space, and what remains does not end with white space |
| Js.TrimIgnoresPadding | lib/Unitime.ts:242 | `trim` ignores white space added at either end |
| Js.TrimKeepsUnpadded | lib/Unitime.ts:242 | `trim` returns a string that neither starts nor ends with white space unchanged |
| Js.NumeralValue | lib/Unitime.ts:238 | the decimal spelling of every natural number is a digit string whose value is that number |
| Js.ScaledByPowers | lib/Unitime.ts:238 | a decimal exponent multiplies or divides by a power of ten |
| Js.UnsignedDigitsExponent | lib/Unitime.ts:238 | digits, then `e`, then digits, read as the mantissa times ten to that exponent |
| Js.Trim | lib/Unitime.ts:242 | no contract of its own; `String.prototype.trim`, stated by `Js.TrimStartShape`, `Js.TrimEndShape`, `Js.TrimIgnoresPadding` and `Js.TrimKeepsUnpadded` |
| Js.StringToNumber | lib/Unitime.ts:238 | no contract of its own; what `Number(s)` reads is stated by the `Numbers` lemmas |
| Js.ToNumber | lib/Unitime.ts:235-238 | no contract of its own; the coercion behind `isNaN` and `Number`, stated by `Util.AsNumber` and `Util.NumbersAndBooleansAreAccepted` |
| Js.IsNaN | lib/Unitime.ts:235 | no contract of its own; `isNaN(input)`, used by `Util.AsNumber` and stated by `Util.NotANumeral` |
| Numbers.DigitsRead | lib/Unitime.ts:238 | `Number` reads a digit string as its decimal value |
| Numbers.PaddedDigitsRead | lib/Unitime.ts:238 | `Number` ignores white space around a digit string |
| Numbers.SignedDigitsRead | lib/Unitime.ts:238 | `Number` reads `+digits` as the value and `-digits` as its negation |
| Numbers.ExponentDigitsRead | lib/Unitime.ts:238 | `Number` reads `digits e digits` as the mantissa times ten to the exponent |
| Util.EmptyStringIsWhiteSpace | lib/Unitime.ts:241-243 | `isEmptyString` holds of a string exactly when all its characters are white space |
| Util.IsEmptyString | lib/Unitime.ts:241-243 | no contract of its own; its meaning is `Util.EmptyStringIsWhiteSpace` |
| Util.AsNumber | lib/Unitime.ts:233-239 | `asNumber` succeeds exactly on a value that is not undefined or null, coerces to a number and is not a blank string, returning `Number(input)`; otherwise it fails with the defaulted input |
| Util.NotANumeral | lib/Unitime.ts:235 | a non-empty word of lower-case letters is NaN, so `isNaN` rejects it |
| Util.MissingInputIsRefused | lib/Unitime.ts:233 | a missing argument takes the default "keke", which is not a number, so the call fails |
| Util.NullNaNAndBlankAreRefused | lib/Unitime.ts:235-236 | `null`, NaN and every blank string are refused |
| Util.NumbersAndBooleansAreAccepted | lib/Unitime.ts:238 | finite numbers pass through unchanged, and booleans become 1 and 0 |
| Util.ReadableIsAccepted | lib/Unitime.ts:233-239 | a string that reads as a number and is not blank is accepted as that number |
| Util.DigitStringsAreAccepted | lib/Unitime.ts:233-239 | digit strings are accepted as their value, also padded with white space or signed |
| Util.NumeralsAreAccepted | lib/Unitime.ts:233-239 | the decimal spelling of every natural number is accepted as that number |
| Util.ExponentsAreAccepted | lib/Unitime.ts:233-239 | `digits e digits` is accepted as the mantissa times ten to the exponent |
| Util.TestSuiteStringOne | test/Unitime.test.js:54-61 | "1" is accepted as 1 |
| Util.TestSuiteStringHundred | test/Unitime.test.js:54-61 | "100" is accepted as 100 |
| Util.TestSuiteStringExponent | test/Unitime.test.js:54-61 | "100e2" is accepted as 10000 |
| Util.TestSuiteWord | test/Unitime.test.js:63-70 | "test" is refused with the error carrying it |
| Facade.Static | lib/Unitime.ts:249-289 | a static unit function that succeeds returns a bundle over the limits and the source unit's scale |
| Facade.StaticMeaning | lib/Unitime.ts:249-289 | a static unit function fails exactly when `asNumber` does, with its error; otherwise each accessor of the bundle converts the number read from the source unit to its own unit |
| Facade.Unitime.From | lib/Unitime.ts:291-331 | an instance unit function fails exactly when `asNumber` does |
| Facade.InstanceMeaning | lib/Unitime.ts:291-331 | an instance unit function fails with `asNumber`'s error, or converts the number read from the source unit to the instance's unit |
| Facade.To | lib/Unitime.ts:333-336 | `to(unit)` succeeds only for one of the seven codes, binding that code's converter, and for anything else fails at once with the "Unknown time unit" error |
| Facade.ToAcceptsEveryCode | dist/Unitime.js:370-373 | every code makes an instance bound to its own unit |
| Facade.InstanceMatchesStatic | lib/Unitime.ts:249-336 | `to(unit).X(input)` succeeds exactly when `X(input)` does, and then equals the bundle's accessor for the instance's unit |
| Facade.StaticExample | lib/Unitime.ts:249-289 | a static unit function on an input read as `d` yields the reference conversion of `d` at the chosen accessor |
| Facade.InstanceExample | lib/Unitime.ts:291-331 | an instance unit function on an input read as `d` yields the reference conversion of `d` |
| Facade.DocExamples | lib/Unitime.ts:19-29 | with limits that leave room for the results: `d(1).minutes()` is 1440, `h(12).days()` is 0.5, and `to("ms").d(1)` and `to("ms").h(12)` are 86400000 and 43200000 |
| Facade.DocExamplesWithNumber | lib/Unitime.ts:19-29 | the same four examples with the limits of `Number` |
| Facade.TestSuiteInputs | test/Unitime.test.js:45-71 | every static unit function accepts 1, 100, 100e2, "1", "100" and "100e2", and refuses "test", a missing argument and NaN; `ms("100").millis()` is 100 |
| Facade.TestSuiteTargets | test/Unitime.test.js:91-107 | `to` succeeds for every target of the test suite |

## Left out

- `lib/decorator/lazy.ts` memoises the seven `Scale` accessors. Memoisation
  changes no value, so each accessor is the constant `Scales.Of(lim, u)`.
- The `__decorate` and `__importDefault` helpers in `dist/Unitime.js` are
  compiler-emitted glue.
- IEEE-754 rounding: arithmetic is exact. The library itself only warns that
  fine-to-coarse results "might be truncated".
- Infinite numbers are not values of the model, and no number overflows or
  underflows. `asNumber` lets infinities through, since `isNaN(Infinity)` is
  false. `Js.StringToNumber("1e400")` is exactly 10^400, where JavaScript
  gives `Infinity`. `Js.StringToNumber("1e-400")` is 10^-400, where
  JavaScript gives 0.
- `Js.StringToNumber`: does not cover the `Infinity` literal or the `0x`,
  `0o` and `0b` prefixes of StringToNumber. These strings are NaN in the model
  but numbers in JavaScript.
- Objects and arrays as inputs are not values of the model. This includes the
  string array that a tagged template such as ``d`1` `` passes. For an
  array, `Number` reads the joined string, so the documented examples are
  stated on the strings themselves.
- Symbols and bigints as inputs are not values of the model. For them
  `isNaN(input)` (`lib/Unitime.ts:235`) throws a `TypeError`, not the
  library's "Failed to interpret" error. For a symbol, building the
  "Unknown time unit" message (`lib/Unitime.ts:134`) throws a `TypeError` too.
- The text of the thrown error messages: an error keeps its kind and the
  offending value only.
- `Function.prototype.bind` closures and the laziness of the bundle. A bound
  converter is its destination unit, and an accessor is a function of the
  bound pair.
- `dist/Unitime.d.ts` (type declarations) and `jest.config.js` (test
  configuration).

## Findings

| source | as written | input that shows it | evidently intended | confidence | as-written member | corrected member |
|---|---|---|---|---|---|---|
| lib/Unitime.ts:158-159 | a conversion to a finer unit whose exact result is below `-Number.MAX_VALUE` returns `Number.MIN_VALUE`, a positive number | `d(-1e307).minutes()`: `toUnit` from DAY to MINUTE gives the exact result -1.44e310, and the call returns `Number.MIN_VALUE` (5e-324) | saturate "depending on the sign" (lib/Unitime.ts:31-35), that is, return `-Number.MAX_VALUE` | not executed | Properties.NegativeOverflowTurnsPositive | Properties.IntendedKeepsSign |
