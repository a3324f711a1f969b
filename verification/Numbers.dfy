/** The values of type double, except that they are not rounded. */
module Numbers {
  datatype Number = Finite(r: real) | Infinite(negative: bool) | NaN

  function Plus(a: Number, b: Number): Number {
    match (a, b)
    case (Finite(x), Finite(y)) => Finite(x + y)
    case (Infinite(x), Infinite(y)) => if x == y then a else NaN
    case (NaN, _) => NaN
    case (_, NaN) => NaN
    case (Infinite(_), Finite(_)) => a
    case (Finite(_), Infinite(_)) => b
  }

  lemma PlusLaws(a: Number, b: Number, c: Number)
    ensures Plus(a, b) == Plus(b, a) && Plus(a, Plus(b, c)) == Plus(Plus(a, b), c) && Plus(a, Finite(0.0)) == a
  {
  }

  function Over(a: Number, n: nat): Number
    requires n > 0
  {
    if a.Finite? then Finite(a.r / n as real) else a
  }

  function Negated(a: Number): (r: Number)
    ensures a.Finite? ==> Plus(a, r) == Finite(0.0)
    ensures a.Infinite? ==> r.Infinite? && r != a
  {
    match a
    case Finite(x) => Finite(-x)
    case Infinite(negative) => Infinite(!negative)
    case NaN => NaN
  }

  /** a != b; a value that is no number differs from everything. */
  predicate Differs(a: Number, b: Number) { a != b || a.NaN? }

  const TWO_TO_202 := 6427752177035961102167848369364650410088811975131171341205504.0
  const TWO_TO_256 := 115792089237316195423570985008687907853269984665640564039457584007913129639936.0

  /** 2 to the power of 1024, less half of the last place of the greatest double:
      what is as large as this is rounded to infinity. */
  const OVERFLOW := TWO_TO_256 * TWO_TO_256 * TWO_TO_256 * (TWO_TO_256 - TWO_TO_202)

  predicate Overflows(r: real) { r >= OVERFLOW || r <= -OVERFLOW }

  lemma SmallIsInRange(r: real)
    requires -10.0 <= r <= 10.0
    ensures !Overflows(r)
  {
  }

  /** Two to the power of -1022. */
  const LEAST_NORMAL := 1.0 / (TWO_TO_256 * TWO_TO_256 * TWO_TO_256 * (TWO_TO_256 / 4.0))

  /** isnormal */
  predicate IsNormal(n: Number) { n.Finite? && (n.r >= LEAST_NORMAL || n.r <= -LEAST_NORMAL) }
}
