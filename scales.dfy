/**
 * `class Scale`: one immutable record per unit, holding the unit's magnitude,
 * the ratios between it and MICRO, MILLI and SECOND, and the largest
 * durations that can be multiplied up without passing Number.MAX_VALUE.
 *
 * The seven static accessors are memoised getters; memoisation changes no
 * value, so each accessor is the constant `Of(lim, u)`.  The limits `lim`
 * stand for the `Number` constants (see `Js.Limits`).
 */
module Scales {
  import opened Js
  import opened Units

  datatype Scale = Scale(
    scale: nat,
    maxNanos: real,
    maxMicros: real,
    maxMillis: real,
    maxSecs: real,
    microRatio: real,
    milliRatio: real,
    secRatio: real)
  {
    /** Built by the (private) constructor from a member of the enum. */
    predicate Valid(lim: Limits)
    {
      IsMagnitude(scale) && this == New(lim, scale)
    }

    /** The magnitude and the three ratios are at least one, so dividing by them is defined. */
    predicate Proper()
    {
      scale >= 1 && microRatio >= 1.0 && milliRatio >= 1.0 && secRatio >= 1.0
    }
  }

  /**
   * The factor between a magnitude and a reference magnitude, taken in the
   * direction that makes it at least one.
   */
  function Ratio(scale: nat, reference: nat): (r: real)
    requires scale >= 1 && reference >= 1
    ensures r >= 1.0
  {
    if scale >= reference then scale as real / reference as real else reference as real / scale as real
  }

  /** The constructor `new Scale(scale)`. */
  function New(lim: Limits, scale: nat): Scale
    requires IsMagnitude(scale)
  {
    var microRatio := Ratio(scale, MICRO);
    var milliRatio := Ratio(scale, MILLI);
    var secRatio := Ratio(scale, SECOND);
    Scale(scale,
          lim.max / scale as real,
          lim.max / microRatio,
          lim.max / milliRatio,
          lim.max / secRatio,
          microRatio,
          milliRatio,
          secRatio)
  }

  /** The static accessors `Scale.nanoseconds` ... `Scale.days`. */
  function Of(lim: Limits, u: Unit): (s: Scale)
    ensures s.Valid(lim) && s.Proper() && s.scale == Magnitude(u)
  {
    MagnitudeOrder(u, u);
    New(lim, Magnitude(u))
  }

  /** A valid scale is the accessor of the unit with its magnitude. */
  lemma ValidIsOf(lim: Limits, s: Scale)
    requires s.Valid(lim)
    ensures s == Of(lim, UnitOf(s.scale))
  {
  }

  /**
   * A ratio is a whole number that takes the smaller of the two magnitudes
   * to the larger.
   */
  predicate IsRatio(r: real, scale: nat, reference: nat)
  {
    r == r.Floor as real
    && (if scale >= reference then r * reference as real == scale as real
        else r * scale as real == reference as real)
  }

  /**
   * What the constructor establishes: each ratio relates the scale to its
   * reference unit, and each threshold times its factor is exactly the
   * largest number.
   */
  predicate Calibrated(lim: Limits, s: Scale)
  {
    s.Proper()
    && IsRatio(s.microRatio, s.scale, MICRO)
    && IsRatio(s.milliRatio, s.scale, MILLI)
    && IsRatio(s.secRatio, s.scale, SECOND)
    && s.maxNanos * s.scale as real == lim.max
    && s.maxMicros * s.microRatio == lim.max
    && s.maxMillis * s.milliRatio == lim.max
    && s.maxSecs * s.secRatio == lim.max
  }

  lemma NanoCalibrated(lim: Limits)
    ensures Calibrated(lim, Of(lim, Nano))
  {
  }

  lemma MicroCalibrated(lim: Limits)
    ensures Calibrated(lim, Of(lim, Micro))
  {
  }

  lemma MilliCalibrated(lim: Limits)
    ensures Calibrated(lim, Of(lim, Milli))
  {
  }

  lemma SecondCalibrated(lim: Limits)
    ensures Calibrated(lim, Of(lim, Second))
  {
  }

  lemma MinuteCalibrated(lim: Limits)
    ensures Calibrated(lim, Of(lim, Minute))
  {
  }

  lemma HourCalibrated(lim: Limits)
    ensures Calibrated(lim, Of(lim, Hour))
  {
  }

  lemma DayCalibrated(lim: Limits)
    ensures Calibrated(lim, Of(lim, Day))
  {
  }

  /** Every scale the constructor builds is calibrated. */
  lemma ScaleIsCalibrated(lim: Limits, s: Scale)
    requires s.Valid(lim)
    ensures Calibrated(lim, s)
  {
    ValidIsOf(lim, s);
    match UnitOf(s.scale)
    case Nano => NanoCalibrated(lim);
    case Micro => MicroCalibrated(lim);
    case Milli => MilliCalibrated(lim);
    case Second => SecondCalibrated(lim);
    case Minute => MinuteCalibrated(lim);
    case Hour => HourCalibrated(lim);
    case Day => DayCalibrated(lim);
  }
}
