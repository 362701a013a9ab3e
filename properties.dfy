/**
 * What the conversions promise, stated once on `Convert.Reference` (every
 * conversion computes it, see `Convert.ApplyMeaning`): identity, exact
 * division towards coarser units, saturation towards finer ones, range,
 * round trips and composition.
 */
module Properties {
  import opened Js
  import opened Convert

  function Abs(x: real): real
  {
    if x < 0.0 then -x else x
  }

  // ---------------------------------------------------------------------------
  // Exact rescaling
  // ---------------------------------------------------------------------------

  /** The exact rescaling is the duration `d * from` counted in units of `to`. */
  lemma ExactCounts(d: real, from: nat, to: nat)
    requires to >= 1
    ensures Exact(d, from, to) * to as real == d * from as real
  {
    var t := to as real;
    var x := d * from as real;
    assert x / t * t == x;
  }

  /** Towards a coarser unit the magnitude does not grow, and the sign is kept. */
  lemma ExactShrinks(d: real, from: nat, to: nat)
    requires 1 <= from <= to
    ensures Abs(Exact(d, from, to)) <= Abs(d)
    ensures (d < 0.0 <==> Exact(d, from, to) < 0.0) && (d == 0.0 <==> Exact(d, from, to) == 0.0)
  {
    var f := from as real;
    var t := to as real;
    var q := f / t;
    assert 0.0 < q <= 1.0;
    assert Exact(d, from, to) == d * q;
    if d < 0.0 {
      assert -(d * q) == (-d) * q <= -d;
    } else {
      assert d * q <= d;
    }
  }

  /** Towards a finer unit the sign is kept too. */
  lemma ExactKeepsSign(d: real, from: nat, to: nat)
    requires from >= 1 && to >= 1
    ensures (d < 0.0 <==> Exact(d, from, to) < 0.0) && (d == 0.0 <==> Exact(d, from, to) == 0.0)
  {
    var q := from as real / to as real;
    assert q > 0.0;
    assert Exact(d, from, to) == d * q;
  }

  /** Rescaling there and back is the identity. */
  lemma ExactRoundTrip(d: real, from: nat, to: nat)
    requires from >= 1 && to >= 1
    ensures Exact(Exact(d, from, to), to, from) == d
  {
    var f := from as real;
    var t := to as real;
    var x := Exact(d, from, to);
    ExactCounts(d, from, to);
    assert x * t == d * f;
    assert x * t / f == d * f / f;
  }

  /** Rescaling in two steps is rescaling in one. */
  lemma ExactComposes(d: real, a: nat, b: nat, c: nat)
    requires a >= 1 && b >= 1 && c >= 1
    ensures Exact(Exact(d, a, b), b, c) == Exact(d, a, c)
  {
    var x := Exact(d, a, b);
    ExactCounts(d, a, b);
    assert x * b as real == d * a as real;
    assert x * b as real / c as real == d * a as real / c as real;
  }

  // ---------------------------------------------------------------------------
  // The reference conversion
  // ---------------------------------------------------------------------------

  /** Converting to the unit the duration is already in returns it unchanged. */
  lemma Identity(lim: Limits, d: real, m: nat)
    requires m >= 1
    ensures Reference(lim, d, m, m) == d
  {
    var x := d * m as real;
    assert x / m as real * m as real == x;
  }

  /**
   * From a finer to a coarser unit: never saturated, the result counts the
   * same duration, and its magnitude is at most the input's.
   */
  lemma FineToCoarse(lim: Limits, d: real, from: nat, to: nat)
    requires 1 <= from <= to
    ensures Reference(lim, d, from, to) * to as real == d * from as real
    ensures Abs(Reference(lim, d, from, to)) <= Abs(d)
  {
    ExactCounts(d, from, to);
    ExactShrinks(d, from, to);
  }

  /**
   * From a coarser to a finer unit: past the limit the result is the largest
   * number, below the negative limit it is `lim.min`, and otherwise it
   * counts the same duration.
   */
  lemma CoarseToFine(lim: Limits, d: real, from: nat, to: nat)
    requires lim.Valid() && 1 <= to < from
    ensures d * from as real > lim.max * to as real ==> Reference(lim, d, from, to) == lim.max
    ensures d * from as real < -lim.max * to as real ==> Reference(lim, d, from, to) == lim.min
    ensures -lim.max * to as real <= d * from as real <= lim.max * to as real ==>
              Reference(lim, d, from, to) * to as real == d * from as real
  {
    var x := Exact(d, from, to);
    var t := to as real;
    ExactCounts(d, from, to);
    assert x * t == d * from as real;
    Compare(x, lim.max, t);
    Compare(x, -lim.max, t);
  }

  /** Comparing a quotient with a bound is comparing the dividend with the bound times the divisor. */
  lemma Compare(x: real, m: real, t: real)
    requires t > 0.0
    ensures x > m <==> x * t > m * t
    ensures x < m <==> x * t < m * t
  {
    assert x * t - m * t == (x - m) * t;
  }

  /** A duration in range converts to a duration in range, whatever the units. */
  lemma StaysInRange(lim: Limits, d: real, from: nat, to: nat)
    requires lim.Valid() && from >= 1 && to >= 1
    requires -lim.max <= d <= lim.max
    ensures -lim.max <= Reference(lim, d, from, to) <= lim.max
  {
    if from <= to {
      ExactShrinks(d, from, to);
    }
  }

  /**
   * The saturation quirk: a negative duration too large to convert to a
   * finer unit comes out as the tiny positive `lim.min`, not as `-lim.max`,
   * so the sign is lost.
   */
  lemma NegativeOverflowTurnsPositive(lim: Limits, d: real, from: nat, to: nat)
    requires lim.Valid() && 1 <= to < from
    requires d * from as real < -lim.max * to as real
    ensures d < 0.0
    ensures Reference(lim, d, from, to) == lim.min > 0.0
  {
    CoarseToFine(lim, d, from, to);
    assert d * from as real < 0.0;
  }

  /** Apart from that quirk, the sign of a duration survives every conversion. */
  lemma SignIsKept(lim: Limits, d: real, from: nat, to: nat)
    requires lim.Valid() && from >= 1 && to >= 1
    requires from > to ==> d * from as real >= -lim.max * to as real
    ensures d < 0.0 <==> Reference(lim, d, from, to) < 0.0
    ensures d == 0.0 <==> Reference(lim, d, from, to) == 0.0
  {
    ExactKeepsSign(d, from, to);
    if from > to {
      CoarseToFine(lim, d, from, to);
    }
  }

  // ---------------------------------------------------------------------------
  // The intended saturation
  // ---------------------------------------------------------------------------

  /** The intended saturation keeps the sign and zero of every value. */
  lemma SaturateIntendedKeepsSign(lim: Limits, x: real)
    requires lim.Valid()
    ensures x < 0.0 <==> SaturateIntended(lim, x) < 0.0
    ensures x == 0.0 <==> SaturateIntended(lim, x) == 0.0
    ensures -lim.max <= SaturateIntended(lim, x) <= lim.max
  {
  }

  /** With the intended saturation, every conversion keeps the sign and zero of the duration. */
  lemma IntendedKeepsSign(lim: Limits, d: real, from: nat, to: nat)
    requires lim.Valid() && from >= 1 && to >= 1
    ensures d < 0.0 <==> ReferenceIntended(lim, d, from, to) < 0.0
    ensures d == 0.0 <==> ReferenceIntended(lim, d, from, to) == 0.0
  {
    ExactKeepsSign(d, from, to);
    SaturateIntendedKeepsSign(lim, Exact(d, from, to));
  }

  /** The saturation as written and the intended one differ exactly on the values below `-lim.max`. */
  lemma SaturateDiffers(lim: Limits, x: real)
    requires lim.Valid()
    ensures Saturate(lim, x) != SaturateIntended(lim, x) <==> x < -lim.max
  {
  }

  /**
   * The conversions as written and the intended ones differ exactly on a
   * negative overflow towards a finer unit.
   */
  lemma ReferenceDiffers(lim: Limits, d: real, from: nat, to: nat)
    requires lim.Valid() && from >= 1 && to >= 1
    ensures Reference(lim, d, from, to) != ReferenceIntended(lim, d, from, to) <==>
      from > to && Exact(d, from, to) < -lim.max
  {
    if from > to {
      SaturateDiffers(lim, Exact(d, from, to));
    }
  }

  /** Converting a duration in range to a coarser unit and back returns it. */
  lemma RoundTrip(lim: Limits, d: real, from: nat, to: nat)
    requires 1 <= from <= to
    requires -lim.max <= d <= lim.max
    ensures Reference(lim, Reference(lim, d, from, to), to, from) == d
  {
    ExactRoundTrip(d, from, to);
  }

  /** Converting to a finer unit without saturating and back returns the duration. */
  lemma RoundTripUnsaturated(lim: Limits, d: real, from: nat, to: nat)
    requires lim.Valid() && 1 <= to < from
    requires -lim.max * to as real <= d * from as real <= lim.max * to as real
    ensures Reference(lim, Reference(lim, d, from, to), to, from) == d
  {
    CoarseToFine(lim, d, from, to);
    ExactRoundTrip(d, from, to);
  }

  /** Two conversions towards coarser units are one conversion. */
  lemma Composition(lim: Limits, d: real, a: nat, b: nat, c: nat)
    requires 1 <= a <= b <= c
    ensures Reference(lim, Reference(lim, d, a, b), b, c) == Reference(lim, d, a, c)
  {
    ExactComposes(d, a, b, c);
  }
}
