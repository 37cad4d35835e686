/** Floating-point numbers without rounding. */
module Floats {
  /** A float64 whose finite values are exact. */
  datatype Float = Fin(r: real) | Inf(negative: bool) | NaN

  /** x / y; a zero has no sign. */
  function Quotient(x: real, y: real): Float {
    if y != 0.0 then Fin(x / y)
    else if x == 0.0 then NaN
    else Inf(x < 0.0)
  }

  /** float64(a) / float64(b) */
  function Ratio(a: int, b: int): Float { Quotient(a as real, b as real) }

  /** math.Abs(x - y) */
  function AbsDiff(x: Float, y: Float): (d: Float)
    ensures d.Fin? <==> x.Fin? && y.Fin?
    ensures d.Fin? ==> d.r >= 0.0
    ensures d.Inf? ==> !d.negative
  {
    match (x, y)
    case (Fin(a), Fin(b)) => Fin(if a >= b then a - b else b - a)
    case (Inf(a), Inf(b)) => if a == b then NaN else Inf(false)
    case (NaN, _) => NaN
    case (_, NaN) => NaN
    case (_, _) => Inf(false)
  }

  /** x < y; nothing compares with NaN. */
  predicate Less(x: Float, y: Float) {
    match (x, y)
    case (Fin(a), Fin(b)) => a < b
    case (Fin(_), Inf(n)) => !n
    case (Inf(n), Fin(_)) => n
    case (Inf(m), Inf(n)) => m && !n
    case (_, _) => false
  }

  /** x >= r */
  predicate AtLeast(x: Float, r: real) {
    match x
    case Fin(a) => a >= r
    case Inf(n) => !n
    case NaN => false
  }
}
