/**
 * The conversion functions of `lib/Unitime.ts`.
 *
 * Every conversion has three outcomes: the duration unchanged when source and
 * destination coincide; a division when the source is finer; otherwise the
 * duration is compared with an overflow threshold and either saturates or is
 * multiplied.  Below the negative threshold the source returns
 * Number.MIN_VALUE, the smallest POSITIVE number, although the evident intent
 * is the most negative one: the model keeps that behaviour (see `Saturate`
 * and `Properties.NegativeOverflowTurnsPositive`).
 */
module Convert {
  import opened Js
  import opened Errors
  import opened Units
  import opened Scales

  // ---------------------------------------------------------------------------
  // Reference semantics
  // ---------------------------------------------------------------------------

  /** A duration counted in units of `from` nanoseconds, counted exactly in units of `to` nanoseconds. */
  function Exact(d: real, from: nat, to: nat): real
    requires to >= 1
  {
    d * from as real / to as real
  }

  /**
   * The library's range policy: too large becomes the largest number, too
   * negative becomes Number.MIN_VALUE (positive, as the source has it).
   */
  function Saturate(lim: Limits, x: real): real
  {
    if x > lim.max then lim.max else if x < -lim.max then lim.min else x
  }

  /**
   * The saturation the documentation promises, "depending on the sign": too
   * large becomes the largest number and too negative its negation.  The
   * conversions do not use it; it is the intended counterpart of `Saturate`.
   */
  function SaturateIntended(lim: Limits, x: real): real
  {
    if x > lim.max then lim.max else if x < -lim.max then -lim.max else x
  }

  /** `Reference` with the intended saturation. */
  function ReferenceIntended(lim: Limits, d: real, from: nat, to: nat): real
    requires from >= 1 && to >= 1
  {
    if from <= to then Exact(d, from, to) else SaturateIntended(lim, Exact(d, from, to))
  }

  /**
   * What a conversion between magnitudes should return: the exact value,
   * saturated only where the source multiplies (from a coarser unit).
   */
  function Reference(lim: Limits, d: real, from: nat, to: nat): real
    requires from >= 1 && to >= 1
  {
    if from <= to then Exact(d, from, to) else Saturate(lim, Exact(d, from, to))
  }

  // ---------------------------------------------------------------------------
  // The conversion functions
  // ---------------------------------------------------------------------------

  /** The generic conversion `toUnit`, used for minutes, hours and days. */
  function ToUnit(lim: Limits, source: Scale, destination: Scale, dura: real): real
    requires source.Proper() && destination.Proper()
  {
    if source.scale == destination.scale then
      dura
    else if source.scale < destination.scale then
      dura / (destination.scale as real / source.scale as real)
    else if dura > lim.max / (source.scale as real / destination.scale as real) then
      lim.max
    else if dura < -(lim.max / (source.scale as real / destination.scale as real)) then
      lim.min
    else
      dura * (source.scale as real / destination.scale as real)
  }

  /** `toNanos`: every scale is at least NANO, so there is no "finer source" branch. */
  function ToNanos(lim: Limits, source: Scale, duration: real): real
  {
    if source.scale == NANO then
      duration
    else if duration > source.maxNanos then
      lim.max
    else if duration < -source.maxNanos then
      lim.min
    else
      duration * source.scale as real
  }

  /**
   * The shape shared by `toMicros`, `toMillis` and `toSeconds`: the source
   * scale, the destination's magnitude, the stored ratio between the two and
   * the stored overflow threshold.
   */
  function Rescale(lim: Limits, d: real, scale: nat, reference: nat, ratio: real, threshold: real): real
    requires ratio > 0.0
  {
    if scale == reference then
      d
    else if scale < reference then
      d / ratio
    else if d > threshold then
      lim.max
    else if d < -threshold then
      lim.min
    else
      d * ratio
  }

  function ToMicros(lim: Limits, source: Scale, duration: real): real
    requires source.Proper()
  {
    Rescale(lim, duration, source.scale, MICRO, source.microRatio, source.maxMicros)
  }


  function ToMillis(lim: Limits, source: Scale, duration: real): real
    requires source.Proper()
  {
    Rescale(lim, duration, source.scale, MILLI, source.milliRatio, source.maxMillis)
  }


  function ToSeconds(lim: Limits, source: Scale, duration: real): real
    requires source.Proper()
  {
    Rescale(lim, duration, source.scale, SECOND, source.secRatio, source.maxSecs)
  }


  function ToMinutes(lim: Limits, source: Scale, duration: real): real
    requires source.Proper()
  {
    ToUnit(lim, source, Of(lim, Minute), duration)
  }

  function ToHours(lim: Limits, source: Scale, duration: real): real
    requires source.Proper()
  {
    ToUnit(lim, source, Of(lim, Hour), duration)
  }

  function ToDays(lim: Limits, source: Scale, duration: real): real
    requires source.Proper()
  {
    ToUnit(lim, source, Of(lim, Day), duration)
  }

  // ---------------------------------------------------------------------------
  // Real arithmetic the meaning proofs rest on
  // ---------------------------------------------------------------------------

  /** Dividing by the ratio from a finer scale is the exact rescaling. */
  lemma ScaleDown(d: real, r: real, s: real, t: real)
    requires s > 0.0 && r > 0.0 && r * s == t
    ensures d / r == d * s / t
  {
    assert d * s / t == d * s / (r * s);
  }

  /** Multiplying by the ratio to a finer scale is the exact rescaling. */
  lemma ScaleUp(d: real, r: real, s: real, t: real)
    requires t > 0.0 && r * t == s
    ensures d * r == d * s / t
  {
    assert d * s == d * r * t;
  }

  /** A threshold times its factor is the limit, so comparing with the threshold compares the product with the limit. */
  lemma Threshold(d: real, threshold: real, k: real, m: real)
    requires k > 0.0 && threshold * k == m
    ensures d > threshold <==> d * k > m
    ensures d < -threshold <==> d * k < -m
  {
    assert d * k - m == (d - threshold) * k;
    assert d * k + m == (d + threshold) * k;
  }

  /** Dividing by the ratio of a coarser destination is the exact rescaling. */
  lemma FinerSource(d: real, s: real, t: real)
    requires 0.0 < s < t
    ensures d / (t / s) == d * s / t
  {
    var r := t / s;
    assert r * s == t;
    ScaleDown(d, r, s, t);
  }

  /** Multiplying by the ratio of a finer destination is the exact rescaling, and its overflow threshold is exact. */
  lemma CoarserSource(m: real, d: real, s: real, t: real)
    requires 0.0 < t < s
    ensures d * (s / t) == d * s / t
    ensures d > m / (s / t) <==> d * s / t > m
    ensures d < -(m / (s / t)) <==> d * s / t < -m
  {
    var k := s / t;
    assert k * t == s;
    assert k > 0.0;
    ScaleUp(d, k, s, t);
    var threshold := m / k;
    assert threshold * k == m;
    Threshold(d, threshold, k, m);
  }

  /** Rescaling between equal magnitudes changes nothing. */
  lemma SameScale(d: real, s: real)
    requires s > 0.0
    ensures d * s / s == d
  {
  }

  /**
   * A source coarser than the destination by the ratio `r`, with the threshold
   * that `r` maps to the limit `m`: multiplying is the exact rescaling and the
   * threshold tests are the limit tests.
   */
  lemma CoarserByRatio(m: real, d: real, r: real, s: real, t: real, threshold: real)
    requires t > 0.0 && r > 0.0 && r * t == s && threshold * r == m
    ensures d * r == d * s / t
    ensures d > threshold <==> d * s / t > m
    ensures d < -threshold <==> d * s / t < -m
  {
    ScaleUp(d, r, s, t);
    Threshold(d, threshold, r, m);
  }

  // ---------------------------------------------------------------------------
  // Each conversion computes the reference value
  // ---------------------------------------------------------------------------

  /** The shared shape computes the reference value once its ratio and threshold are the exact ones. */
  lemma RescaleMeaning(lim: Limits, d: real, scale: nat, reference: nat, ratio: real, threshold: real)
    requires scale >= 1 && reference >= 1 && ratio > 0.0
    requires scale < reference ==> ratio * scale as real == reference as real
    requires scale > reference ==> ratio * reference as real == scale as real && threshold * ratio == lim.max
    ensures Rescale(lim, d, scale, reference, ratio, threshold) == Reference(lim, d, scale, reference)
  {
    if scale == reference {
      SameScale(d, scale as real);
    } else if scale < reference {
      RescaleFiner(lim, d, scale, reference, ratio, threshold);
    } else {
      RescaleCoarser(lim, d, scale, reference, ratio, threshold);
    }
  }

  lemma RescaleFiner(lim: Limits, d: real, scale: nat, reference: nat, ratio: real, threshold: real)
    requires 1 <= scale < reference && ratio > 0.0 && ratio * scale as real == reference as real
    ensures Rescale(lim, d, scale, reference, ratio, threshold) == Exact(d, scale, reference)
  {
    ScaleDown(d, ratio, scale as real, reference as real);
  }

  lemma RescaleCoarser(lim: Limits, d: real, scale: nat, reference: nat, ratio: real, threshold: real)
    requires 1 <= reference < scale && ratio > 0.0
    requires ratio * reference as real == scale as real && threshold * ratio == lim.max
    ensures Rescale(lim, d, scale, reference, ratio, threshold) == Saturate(lim, Exact(d, scale, reference))
  {
    CoarserByRatio(lim.max, d, ratio, scale as real, reference as real, threshold);
  }

  lemma ToUnitMeaning(lim: Limits, source: Scale, destination: Scale, dura: real)
    requires source.Proper() && destination.Proper()
    ensures ToUnit(lim, source, destination, dura) == Reference(lim, dura, source.scale, destination.scale)
  {
    var s := source.scale as real;
    var t := destination.scale as real;
    if source.scale == destination.scale {
      SameScale(dura, s);
    } else if source.scale < destination.scale {
      FinerSource(dura, s, t);
    } else if source.scale > destination.scale {
      CoarserSource(lim.max, dura, s, t);
    }
  }

  lemma ToNanosMeaning(lim: Limits, source: Scale, duration: real)
    requires Calibrated(lim, source)
    ensures ToNanos(lim, source, duration) == Reference(lim, duration, source.scale, NANO)
  {
    if source.scale == NANO {
      SameScale(duration, 1.0);
    } else {
      NanosCoarser(lim, source, duration);
    }
  }

  lemma NanosCoarser(lim: Limits, source: Scale, duration: real)
    requires source.scale > NANO && source.maxNanos * source.scale as real == lim.max
    ensures ToNanos(lim, source, duration) == Saturate(lim, Exact(duration, source.scale, NANO))
  {
    CoarserByRatio(lim.max, duration, source.scale as real, source.scale as real, NANO as real, source.maxNanos);
  }


  lemma ToMicrosMeaning(lim: Limits, source: Scale, duration: real)
    requires Calibrated(lim, source)
    ensures ToMicros(lim, source, duration) == Reference(lim, duration, source.scale, MICRO)
  {
    RescaleMeaning(lim, duration, source.scale, MICRO, source.microRatio, source.maxMicros);
  }


  lemma ToMillisMeaning(lim: Limits, source: Scale, duration: real)
    requires Calibrated(lim, source)
    ensures ToMillis(lim, source, duration) == Reference(lim, duration, source.scale, MILLI)
  {
    RescaleMeaning(lim, duration, source.scale, MILLI, source.milliRatio, source.maxMillis);
  }


  lemma ToSecondsMeaning(lim: Limits, source: Scale, duration: real)
    requires Calibrated(lim, source)
    ensures ToSeconds(lim, source, duration) == Reference(lim, duration, source.scale, SECOND)
  {
    RescaleMeaning(lim, duration, source.scale, SECOND, source.secRatio, source.maxSecs);
  }


  /** `toMinutes`, `toHours` and `toDays` are the generic conversion to those scales. */
  lemma DerivedMeaning(lim: Limits, source: Scale, duration: real)
    requires source.Proper()
    ensures ToMinutes(lim, source, duration) == Reference(lim, duration, source.scale, MINUTE)
    ensures ToHours(lim, source, duration) == Reference(lim, duration, source.scale, HOUR)
    ensures ToDays(lim, source, duration) == Reference(lim, duration, source.scale, DAY)
  {
    ToUnitMeaning(lim, source, Of(lim, Minute), duration);
    ToUnitMeaning(lim, source, Of(lim, Hour), duration);
    ToUnitMeaning(lim, source, Of(lim, Day), duration);
  }

  /** `toMicros`, `toMillis` and `toSeconds` agree with the generic conversion to their unit. */
  lemma SpecialisedAgreeWithGeneric(lim: Limits, source: Scale, duration: real)
    requires Calibrated(lim, source)
    ensures ToMicros(lim, source, duration) == ToUnit(lim, source, Of(lim, Micro), duration)
    ensures ToMillis(lim, source, duration) == ToUnit(lim, source, Of(lim, Milli), duration)
    ensures ToSeconds(lim, source, duration) == ToUnit(lim, source, Of(lim, Second), duration)
    ensures ToNanos(lim, source, duration) == ToUnit(lim, source, Of(lim, Nano), duration)
  {
    ToNanosMeaning(lim, source, duration);
    ToMicrosMeaning(lim, source, duration);
    ToMillisMeaning(lim, source, duration);
    ToSecondsMeaning(lim, source, duration);
    ToUnitMeaning(lim, source, Of(lim, Nano), duration);
    ToUnitMeaning(lim, source, Of(lim, Micro), duration);
    ToUnitMeaning(lim, source, Of(lim, Milli), duration);
    ToUnitMeaning(lim, source, Of(lim, Second), duration);
  }

  // ---------------------------------------------------------------------------
  // Dispatch: `converter` and `converters`
  // ---------------------------------------------------------------------------

  /** The code `converter` knows for each destination unit. */
  function Code(u: Unit): string
  {
    match u
    case Nano => "ns"
    case Micro => "us"
    case Milli => "ms"
    case Second => "s"
    case Minute => "min"
    case Hour => "h"
    case Day => "d"
  }

  /** Different units have different codes. */
  lemma CodesAreDistinct(u: Unit, v: Unit)
    ensures Code(u) == Code(v) <==> u == v
  {
  }

  /**
   * `converter(unit)`: the strict-equality switch over the seven codes.  A
   * converter is named by its destination unit (see `Apply`); any other
   * value, string or not, is the "Unknown time unit" error.
   */
  function Converter(unit: Value): (r: Result<Unit>)
    ensures r.Ok? ==> unit == Str(Code(r.value))
    ensures r.Err? ==> r.error == UnknownTimeUnit(unit) && forall u :: unit != Str(Code(u))
  {
    match unit
    case Str(code) =>
      if code == "ns" then Ok(Nano)
      else if code == "us" then Ok(Micro)
      else if code == "ms" then Ok(Milli)
      else if code == "s" then Ok(Second)
      else if code == "min" then Ok(Minute)
      else if code == "h" then Ok(Hour)
      else if code == "d" then Ok(Day)
      else Err(UnknownTimeUnit(unit))
    case _ => Err(UnknownTimeUnit(unit))
  }

  /** Every code is recognised, and it selects the converter to its own unit. */
  lemma ConverterKnowsEveryCode(u: Unit)
    ensures Converter(Str(Code(u))) == Ok(u)
  {
  }

  /** Calling the converter that `converter` returned for `destination`. */
  function Apply(lim: Limits, destination: Unit, source: Scale, duration: real): real
    requires source.Proper()
  {
    match destination
    case Nano => ToNanos(lim, source, duration)
    case Micro => ToMicros(lim, source, duration)
    case Milli => ToMillis(lim, source, duration)
    case Second => ToSeconds(lim, source, duration)
    case Minute => ToMinutes(lim, source, duration)
    case Hour => ToHours(lim, source, duration)
    case Day => ToDays(lim, source, duration)
  }

  /** Whatever the destination, the selected converter computes the reference value. */
  lemma ApplyMeaning(lim: Limits, destination: Unit, source: Scale, duration: real)
    requires Calibrated(lim, source)
    ensures Apply(lim, destination, source, duration) == Reference(lim, duration, source.scale, Magnitude(destination))
  {
    match destination
    case Nano => ToNanosMeaning(lim, source, duration);
    case Micro => ToMicrosMeaning(lim, source, duration);
    case Milli => ToMillisMeaning(lim, source, duration);
    case Second => ToSecondsMeaning(lim, source, duration);
    case _ => DerivedMeaning(lim, source, duration);
  }

  /**
   * The object `converters(source, duration)` returns: seven accessors bound
   * to the same pair, each evaluated only when called.
   */
  datatype Convertable = Convertable(lim: Limits, source: Scale, duration: real)
  {
    function Nanos(): real
    {
      ToNanos(lim, source, duration)
    }

    function Micros(): real
      requires source.Proper()
    {
      ToMicros(lim, source, duration)
    }

    function Millis(): real
      requires source.Proper()
    {
      ToMillis(lim, source, duration)
    }

    function Seconds(): real
      requires source.Proper()
    {
      ToSeconds(lim, source, duration)
    }

    function Minutes(): real
      requires source.Proper()
    {
      ToMinutes(lim, source, duration)
    }

    function Hours(): real
      requires source.Proper()
    {
      ToHours(lim, source, duration)
    }

    function Days(): real
      requires source.Proper()
    {
      ToDays(lim, source, duration)
    }

    /** The accessor for `u`. */
    function Get(u: Unit): real
      requires source.Proper()
    {
      match u
      case Nano => Nanos()
      case Micro => Micros()
      case Milli => Millis()
      case Second => Seconds()
      case Minute => Minutes()
      case Hour => Hours()
      case Day => Days()
    }
  }

  function Converters(lim: Limits, source: Scale, duration: real): Convertable
  {
    Convertable(lim, source, duration)
  }

  /**
   * Each accessor of the bundle is the converter `converter` selects for
   * that unit, applied to the bundled pair, and so computes the reference
   * value.
   */
  lemma ConvertersMeaning(lim: Limits, source: Scale, duration: real, u: Unit)
    requires Calibrated(lim, source)
    ensures Converters(lim, source, duration).Get(u) == Apply(lim, u, source, duration)
    ensures Converters(lim, source, duration).Get(u) == Reference(lim, duration, source.scale, Magnitude(u))
  {
    ApplyMeaning(lim, u, source, duration);
  }
}
