/**
 * The seven time units and their magnitudes in nanoseconds (`enum Unit`).
 */
module Units {

  datatype Unit = Nano | Micro | Milli | Second | Minute | Hour | Day

  /** Position of a unit in the order NANO ... DAY. */
  function Rank(u: Unit): nat
  {
    match u
    case Nano => 0
    case Micro => 1
    case Milli => 2
    case Second => 3
    case Minute => 4
    case Hour => 5
    case Day => 6
  }

  /** The enum's numeric value; the compiled enum carries these literals. */
  function Magnitude(u: Unit): (m: nat)
    ensures m >= 1
  {
    match u
    case Nano => 1
    case Micro => 1000
    case Milli => 1000000
    case Second => 1000000000
    case Minute => 60000000000
    case Hour => 3600000000000
    case Day => 86400000000000
  }

  const NANO: nat := Magnitude(Nano)
  const MICRO: nat := Magnitude(Micro)
  const MILLI: nat := Magnitude(Milli)
  const SECOND: nat := Magnitude(Second)
  const MINUTE: nat := Magnitude(Minute)
  const HOUR: nat := Magnitude(Hour)
  const DAY: nat := Magnitude(Day)

  /** The literals are the values the enum declaration defines, each from the previous one. */
  lemma MagnitudeDefinitions()
    ensures NANO == 1
    ensures MICRO == 1000 * NANO
    ensures MILLI == 1000 * MICRO
    ensures SECOND == 1000 * MILLI
    ensures MINUTE == 60 * SECOND
    ensures HOUR == 60 * MINUTE
    ensures DAY == 24 * HOUR
  {
  }

  /** The numbers that are members of the enum. */
  predicate IsMagnitude(m: nat)
  {
    m == NANO || m == MICRO || m == MILLI || m == SECOND || m == MINUTE || m == HOUR || m == DAY
  }

  /** The enum member with a given value. */
  function UnitOf(m: nat): (u: Unit)
    requires IsMagnitude(m)
    ensures Magnitude(u) == m
  {
    if m == NANO then Nano
    else if m == MICRO then Micro
    else if m == MILLI then Milli
    else if m == SECOND then Second
    else if m == MINUTE then Minute
    else if m == HOUR then Hour
    else Day
  }

  /** Magnitudes increase strictly along NANO ... DAY, so a magnitude names its unit. */
  lemma MagnitudeOrder(u: Unit, v: Unit)
    ensures Rank(u) < Rank(v) <==> Magnitude(u) < Magnitude(v)
    ensures Magnitude(u) == Magnitude(v) <==> u == v
    ensures IsMagnitude(Magnitude(u))
    ensures UnitOf(Magnitude(u)) == u
  {
  }

  /** The unit after `u` in the order NANO ... DAY. */
  function Next(u: Unit): (w: Unit)
    requires u != Day
    ensures Rank(w) == Rank(u) + 1
  {
    match u
    case Nano => Micro
    case Micro => Milli
    case Milli => Second
    case Second => Minute
    case Minute => Hour
    case Hour => Day
  }

  /** The factor in the enum declaration between `u` and the next unit. */
  function Step(u: Unit): nat
    requires u != Day
  {
    match u
    case Nano => 1000
    case Micro => 1000
    case Milli => 1000
    case Second => 60
    case Minute => 60
    case Hour => 24
  }

  lemma StepIsFactor(u: Unit)
    requires u != Day
    ensures Magnitude(Next(u)) == Step(u) * Magnitude(u)
  {
  }

  /** The product of the steps from `u` up to `v`. */
  function Span(u: Unit, v: Unit): (k: nat)
    requires Rank(u) <= Rank(v)
    ensures k >= 1
    decreases Rank(v) - Rank(u)
  {
    if u == v then 1
    else
      assert u != Day;
      Step(u) * Span(Next(u), v)
  }

  /** Each magnitude divides every larger one: the quotient is the whole number `Span(u, v)`. */
  lemma {:induction false} MagnitudeDivides(u: Unit, v: Unit)
    requires Rank(u) <= Rank(v)
    ensures Magnitude(v) == Span(u, v) * Magnitude(u)
    decreases Rank(v) - Rank(u)
  {
    if u != v {
      assert u != Day;
      var w := Next(u);
      MagnitudeDivides(w, v);
      StepIsFactor(u);
      assert Magnitude(v) == Span(w, v) * (Step(u) * Magnitude(u));
      assert Span(u, v) == Step(u) * Span(w, v);
      assert Span(w, v) * (Step(u) * Magnitude(u)) == (Step(u) * Span(w, v)) * Magnitude(u);
    }
  }
}
