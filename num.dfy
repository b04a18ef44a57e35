/** JavaScript numbers, as far as the overlay branches on them.
    Finite values are exact reals; NaN and the two infinities are kept
    apart because `isNaN`, `=== Infinity` and the comparisons of the
    formatting code treat them specially. Signed zero is not modelled. */
module Num {

  datatype Num = Fin(v: real) | NaN | PosInf | NegInf

  /** Truncation toward zero, as JavaScript's `%` uses for its quotient. */
  function Trunc(q: real): (r: int)
    ensures q >= 0.0 ==> r == q.Floor
    ensures q < 0.0 ==> r == -((-q).Floor)
  {
    if q >= 0.0 then q.Floor else -((-q).Floor)
  }

  /** `a % b` for a finite positive constant divisor `b`. */
  function Rem(a: Num, b: real): (r: Num)
    requires b > 0.0
    ensures a.Fin? <==> r.Fin?
    ensures a.Fin? ==> r.v == a.v - b * Trunc(a.v / b) as real
  {
    match a
    case Fin(x) => Fin(x - b * Trunc(x / b) as real)
    case _ => NaN
  }

  /** `a / d` for a finite positive constant divisor `d`. */
  function DivBy(a: Num, d: real): (r: Num)
    requires d > 0.0
    ensures a.Fin? ==> r == Fin(a.v / d)
    ensures !a.Fin? ==> r == a
  {
    match a
    case Fin(x) => Fin(x / d)
    case _ => a
  }

  /** `a + c` for a finite constant `c`: NaN and the infinities absorb it. */
  function Plus(a: Num, c: real): (r: Num)
    ensures a.Fin? ==> r == Fin(a.v + c)
    ensures !a.Fin? ==> r == a
  {
    match a
    case Fin(x) => Fin(x + c)
    case _ => a
  }

  /** `Math.floor`. */
  function Floor(a: Num): (r: Num)
    ensures a.Fin? ==> r.Fin? && r.v == a.v.Floor as real && r.v <= a.v < r.v + 1.0
    ensures !a.Fin? ==> r == a
  {
    match a
    case Fin(x) => Fin(x.Floor as real)
    case _ => a
  }

  /** The sign of a finite real, as -1, 0 or 1. */
  function Sign(x: real): int
  {
    if x > 0.0 then 1 else if x < 0.0 then -1 else 0
  }

  function Signed(s: int): Num
  {
    if s > 0 then PosInf else if s < 0 then NegInf else NaN
  }

  /** IEEE division of two numbers (positive zero only). */
  function Div(a: Num, b: Num): (r: Num)
    ensures a.Fin? && b.Fin? && b.v != 0.0 ==> r == Fin(a.v / b.v)
    ensures a.Fin? && b.Fin? && b.v == 0.0 ==>
              r == (if a.v > 0.0 then PosInf else if a.v < 0.0 then NegInf else NaN)
    ensures a.NaN? || b.NaN? ==> r.NaN?
  {
    match (a, b)
    case (Fin(x), Fin(y)) => if y != 0.0 then Fin(x / y) else Signed(Sign(x))
    case (Fin(x), NaN) => NaN
    case (Fin(x), _) => Fin(0.0)
    case (NaN, _) => NaN
    case (PosInf, Fin(y)) => if y >= 0.0 then PosInf else NegInf
    case (NegInf, Fin(y)) => if y >= 0.0 then NegInf else PosInf
    case (_, _) => NaN
  }

  /** IEEE multiplication of two numbers (positive zero only). */
  function Mul(a: Num, b: Num): (r: Num)
    ensures a.Fin? && b.Fin? ==> r == Fin(a.v * b.v)
    ensures a.NaN? || b.NaN? ==> r.NaN?
  {
    if a.NaN? || b.NaN? then NaN
    else if a.Fin? && b.Fin? then Fin(a.v * b.v)
    else if a.Fin? then (if b.PosInf? then Signed(Sign(a.v)) else Signed(-Sign(a.v)))
    else if b.Fin? then (if a.PosInf? then Signed(Sign(b.v)) else Signed(-Sign(b.v)))
    else if a == b then PosInf
    else NegInf
  }

  /** `a > c` for a finite constant `c`: false for NaN, as in JavaScript. */
  predicate Greater(a: Num, c: real)
  {
    match a
    case Fin(x) => x > c
    case PosInf => true
    case _ => false
  }

  /** `a >= c` for a finite constant `c`. */
  predicate AtLeast(a: Num, c: real)
  {
    match a
    case Fin(x) => x >= c
    case PosInf => true
    case _ => false
  }

  /** `a < c` for a finite constant `c`. */
  predicate Less(a: Num, c: real)
  {
    match a
    case Fin(x) => x < c
    case NegInf => true
    case _ => false
  }
}

module Wrappers {
  datatype Option<+T> = None | Some(value: T)
}
