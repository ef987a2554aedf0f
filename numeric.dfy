/** JavaScript numbers, abstracted: a finite number is a real, and the
    non-finite IEEE values are `PosInf`, `NegInf` and `NaN`.  Arithmetic
    follows IEEE 754 on these values, with exact reals in place of rounded
    doubles and with no negative zero (a zero is `Finite(0.0)`, read as
    +0). */
module Numeric {

  datatype Num = Finite(r: real) | PosInf | NegInf | NaN

  /** The infinity of the given sign. */
  function Infinity(negative: bool): Num {
    if negative then NegInf else PosInf
  }

  /** The sign bit: a negative finite number or `-Infinity`. */
  predicate Negative(a: Num) {
    (a.Finite? && a.r < 0.0) || a.NegInf?
  }

  /** Unary `-`. */
  function Neg(a: Num): Num {
    match a
    case Finite(x) => Finite(-x)
    case PosInf => NegInf
    case NegInf => PosInf
    case NaN => NaN
  }

  /** Binary `+`: infinities of opposite signs cancel to NaN, an infinity
      absorbs a finite number. */
  function Add(a: Num, b: Num): Num {
    if a.NaN? || b.NaN? then NaN
    else if a.Finite? && b.Finite? then Finite(a.r + b.r)
    else if a.Finite? then b
    else if b.Finite? then a
    else if a == b then a
    else NaN
  }

  /** Binary `-`: `a - b` is `a + (-b)`. */
  function Sub(a: Num, b: Num): Num {
    Add(a, Neg(b))
  }

  /** Binary `*`: an infinity times zero is NaN; otherwise an infinite
      factor gives the infinity whose sign is the product of the signs. */
  function Mul(a: Num, b: Num): Num {
    if a.NaN? || b.NaN? then NaN
    else if a.Finite? && b.Finite? then Finite(a.r * b.r)
    else if a == Finite(0.0) || b == Finite(0.0) then NaN
    else Infinity(Negative(a) != Negative(b))
  }

  /** Binary `/`: dividing by zero gives an infinity of the dividend's sign,
      or NaN for `0 / 0`; a finite number over an infinity is zero; an
      infinity over an infinity is NaN. */
  function Div(a: Num, b: Num): Num {
    if a.NaN? || b.NaN? then NaN
    else if a.Finite? && b.Finite? then
      if b.r != 0.0 then Finite(a.r / b.r)
      else if a.r == 0.0 then NaN
      else Infinity(a.r < 0.0)
    else if a.Finite? then Finite(0.0)
    else if b.Finite? then Infinity(Negative(a) != Negative(b))
    else NaN
  }

  /** Absolute value of a real (`Math.abs` on a finite number). */
  function Abs(x: real): (r: real)
    ensures r >= 0.0 && (r == x || r == -x)
  {
    if x < 0.0 then -x else x
  }

  lemma NegNeg(a: Num)
    ensures Neg(Neg(a)) == a
  {
  }

  /** Dividing by zero never gives a finite number: an infinity for a
      non-zero dividend, NaN otherwise. */
  lemma DivByZero(a: Num)
    ensures !Div(a, Finite(0.0)).Finite?
    ensures Div(a, Finite(0.0)) == NaN <==> a == Finite(0.0) || a.NaN?
  {
  }

  /** A finite number over an infinity is zero, so `1 / (1 / 0)` is `0`. */
  lemma DivByInfinity(a: Num, b: Num)
    requires a.Finite? && (b.PosInf? || b.NegInf?)
    ensures Div(a, b) == Finite(0.0)
  {
  }

  /** On finite operands the four operations are exact real arithmetic,
      except that division by zero is not finite; a NaN operand makes every
      result NaN. */
  lemma FiniteArithmetic(a: Num, b: Num)
    ensures a.Finite? && b.Finite? ==>
      Add(a, b) == Finite(a.r + b.r) && Sub(a, b) == Finite(a.r - b.r) && Mul(a, b) == Finite(a.r * b.r)
    ensures a.Finite? && b.Finite? ==> (Div(a, b).Finite? <==> b.r != 0.0)
    ensures a.Finite? && b.Finite? && b.r != 0.0 ==> Div(a, b) == Finite(a.r / b.r)
    ensures a.NaN? || b.NaN? ==> Add(a, b) == Sub(a, b) == Mul(a, b) == Div(a, b) == NaN
  {
  }
}
