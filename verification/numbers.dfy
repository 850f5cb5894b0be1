/** JavaScript numbers as the calculator uses them, seen without rounding.
    A number is a real value, one of the two infinities, or NaN. Binary
    floating-point rounding and the sign of zero are not modelled; the
    special values follow the usual rules for +, -, *, / on them. */
module Numbers {

  datatype Num = Finite(value: real) | PosInfinity | NegInfinity | NaN

  predicate IsInfinite(n: Num) { n.PosInfinity? || n.NegInfinity? }

  predicate IsZero(n: Num) { n == Finite(0.0) }

  /** Strictly positive (for infinities, the sign of the infinity). */
  predicate IsPositive(n: Num) { n.PosInfinity? || (n.Finite? && n.value > 0.0) }

  function Infinity(positive: bool): (r: Num)
    ensures IsInfinite(r) && IsPositive(r) == positive
  {
    if positive then PosInfinity else NegInfinity
  }

  /** Unary minus. */
  function Neg(a: Num): (r: Num)
    ensures a.Finite? <==> r.Finite?
    ensures a.Finite? ==> r.value == -a.value
    ensures r.NaN? <==> a.NaN?
    ensures IsInfinite(a) ==> IsInfinite(r) && IsPositive(r) == !IsPositive(a)
  {
    match a
    case Finite(x) => Finite(-x)
    case PosInfinity => NegInfinity
    case NegInfinity => PosInfinity
    case NaN => NaN
  }

  /** `a + b` */
  function Add(a: Num, b: Num): (r: Num)
    ensures a.Finite? && b.Finite? ==> r == Finite(a.value + b.value)
    ensures r.NaN? <==> a.NaN? || b.NaN? || (IsInfinite(a) && IsInfinite(b) && a != b)
    ensures IsInfinite(r) <==> !r.NaN? && (IsInfinite(a) || IsInfinite(b))
  {
    match (a, b)
    case (NaN, _) => NaN
    case (_, NaN) => NaN
    case (Finite(x), Finite(y)) => Finite(x + y)
    case (PosInfinity, NegInfinity) => NaN
    case (NegInfinity, PosInfinity) => NaN
    case (PosInfinity, _) => PosInfinity
    case (NegInfinity, _) => NegInfinity
    case (Finite(_), _) => b
  }

  /** `a - b`, which is `a + (-b)` */
  function Sub(a: Num, b: Num): (r: Num)
    ensures a.Finite? && b.Finite? ==> r == Finite(a.value - b.value)
    ensures r.NaN? <==> a.NaN? || b.NaN? || (IsInfinite(a) && a == b)
  {
    Add(a, Neg(b))
  }

  /** `a * b` */
  function Mul(a: Num, b: Num): (r: Num)
    ensures a.Finite? && b.Finite? ==> r == Finite(a.value * b.value)
    ensures r.NaN? <==> a.NaN? || b.NaN? || (IsInfinite(a) && IsZero(b)) || (IsZero(a) && IsInfinite(b))
  {
    match (a, b)
    case (NaN, _) => NaN
    case (_, NaN) => NaN
    case (Finite(x), Finite(y)) => assert x * y == a.value * b.value; Finite(x * y)
    case (_, _) =>
      if IsZero(a) || IsZero(b) then NaN else Infinity(IsPositive(a) == IsPositive(b))
  }

  /** `a / b`; a zero divisor is taken as +0. */
  function Div(a: Num, b: Num): (r: Num)
    ensures a.Finite? && b.Finite? && b.value != 0.0 ==> r == Finite(a.value / b.value)
    ensures r.NaN? <==> a.NaN? || b.NaN? || (IsZero(a) && IsZero(b)) || (IsInfinite(a) && IsInfinite(b))
    ensures IsZero(b) && !a.NaN? && !IsZero(a) ==> r == Infinity(IsPositive(a))
    ensures a.Finite? && IsInfinite(b) ==> IsZero(r)
  {
    match (a, b)
    case (NaN, _) => NaN
    case (_, NaN) => NaN
    case (Finite(x), Finite(y)) =>
      if y != 0.0 then Finite(x / y)
      else if x == 0.0 then NaN
      else Infinity(x > 0.0)
    case (Finite(_), _) => Finite(0.0)
    case (_, Finite(y)) => Infinity(IsPositive(a) == (y >= 0.0))
    case (_, _) => NaN
  }

  /** JavaScript truthiness of a number: false exactly for 0 and NaN. */
  predicate Truthy(n: Num) { !(n.NaN? || IsZero(n)) }

  /** `n || 0`: the number itself unless it is falsy, then 0. */
  function OrZero(n: Num): (r: Num)
    ensures !n.NaN? ==> r == n
    ensures n.NaN? ==> r == Finite(0.0)
  {
    if Truthy(n) then n else Finite(0.0)
  }
}
