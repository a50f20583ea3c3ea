/**
 The values a 64-bit float division can produce in the line-segment code: a
 finite real, positive or negative infinity, or NaN (the 0/0 of a segment whose
 two endpoints coincide). The operations follow IEEE 754 on these four kinds of
 value; rounding is not modelled, and a zero divisor is the positive zero that
 `x - x` yields.
 */
module ExtendedReal {

  datatype ExtReal = Finite(value: real) | PosInf | NegInf | NaN

  predicate IsNan(a: ExtReal) {
    a.NaN?
  }

  predicate IsInfinite(a: ExtReal) {
    a.PosInf? || a.NegInf?
  }

  /** The sign of a non-NaN value: 1, -1, or 0 for a finite zero. */
  function Sign(a: ExtReal): (s: int)
    requires !a.NaN?
    ensures -1 <= s <= 1
    ensures s == 0 <==> a == Finite(0.0)
  {
    match a
    case PosInf => 1
    case NegInf => -1
    case Finite(v) => if v > 0.0 then 1 else if v < 0.0 then -1 else 0
  }

  function Infinity(sign: int): ExtReal {
    if sign > 0 then PosInf else NegInf
  }

  function Neg(a: ExtReal): (r: ExtReal)
    ensures a.Finite? ==> r == Finite(-a.value)
    ensures r.NaN? <==> a.NaN?
  {
    match a
    case Finite(v) => Finite(-v)
    case PosInf => NegInf
    case NegInf => PosInf
    case NaN => NaN
  }

  function Add(a: ExtReal, b: ExtReal): (r: ExtReal)
    ensures a.Finite? && b.Finite? ==> r == Finite(a.value + b.value)
    ensures r.NaN? <==> a.NaN? || b.NaN? || (IsInfinite(a) && IsInfinite(b) && a != b)
  {
    if a.NaN? || b.NaN? then NaN
    else if a.Finite? && b.Finite? then Finite(a.value + b.value)
    else if IsInfinite(a) && IsInfinite(b) then (if a == b then a else NaN)
    else if IsInfinite(a) then a
    else b
  }

  function Sub(a: ExtReal, b: ExtReal): (r: ExtReal)
    ensures a.Finite? && b.Finite? ==> r == Finite(a.value - b.value)
  {
    Add(a, Neg(b))
  }

  function Mul(a: ExtReal, b: ExtReal): (r: ExtReal)
    ensures a.Finite? && b.Finite? ==> r == Finite(a.value * b.value)
    ensures r.NaN? <==> a.NaN? || b.NaN? || (IsInfinite(a) && b == Finite(0.0))
                         || (a == Finite(0.0) && IsInfinite(b))
  {
    if a.NaN? || b.NaN? then NaN
    else if a.Finite? && b.Finite? then Finite(a.value * b.value)
    else if Sign(a) * Sign(b) == 0 then NaN
    else Infinity(Sign(a) * Sign(b))
  }

  /**
   Division; a finite zero divisor is taken to be positive zero. An infinite
   dividend keeps its sign over a non-negative divisor and flips it over a
   negative one.
   */
  function Div(a: ExtReal, b: ExtReal): (r: ExtReal)
    ensures a.Finite? && b.Finite? && b.value != 0.0 ==> r == Finite(a.value / b.value)
    ensures r.NaN? <==> a.NaN? || b.NaN? || (IsInfinite(a) && IsInfinite(b)) || (a == Finite(0.0) && b == Finite(0.0))
    ensures IsInfinite(a) && b.Finite? ==> r == (if b.value < 0.0 then Neg(a) else a)
  {
    if a.NaN? || b.NaN? then NaN
    else if IsInfinite(a) && IsInfinite(b) then NaN
    else if IsInfinite(b) then Finite(0.0)
    else if IsInfinite(a) then Infinity(Sign(a) * (if b.value < 0.0 then -1 else 1))
    else if b.value != 0.0 then Finite(a.value / b.value)
    else if a.value == 0.0 then NaN
    else Infinity(Sign(a))
  }

  /** IEEE equality: NaN equals nothing, not even itself. */
  predicate Equal(a: ExtReal, b: ExtReal) {
    !a.NaN? && a == b
  }
}
