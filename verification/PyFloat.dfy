/** Python's floating-point numbers. Which numbers are exact, signs, infinities and the cases that raise are
    spelled out; how far a result is rounded is a parameter, of which nothing is assumed. */
module PyFloat {
  import opened Types

  datatype Float = Finite(x: real) | Infinite(negative: bool) | NaN

  predicate BelowZero(f: Float) {
    match f
    case Finite(x) => x < 0.0
    case Infinite(negative) => negative
    case NaN => false
  }

  type NonNegative = f: Float | !BelowZero(f) witness NaN

  predicate Integral(x: real) {
    x.Floor as real == x
  }

  /** Huge floating-point numbers have no fraction. */
  type HugeFloat = m: NonNegative | m.Finite? ==> Integral(m.x) witness NaN

  /** Roundings of magnitudes; None where Python raises an overflow error. A complex number is a code. */
  datatype Floats = Floats(round: real -> NonNegative, ofInt: nat -> Option<HugeFloat>,
                           quotient: (nat, nat) -> Option<NonNegative>,
                           power: (NonNegative, Float) -> Option<NonNegative>,
                           root: (real, real) -> Option<int>)

  function Minus(f: Float): (r: Float)
    ensures BelowZero(r) ==> !BelowZero(f)
  {
    match f
    case Finite(x) => Finite(-x)
    case Infinite(negative) => Infinite(!negative)
    case NaN => NaN
  }

  function Abs(f: Float): NonNegative {
    if BelowZero(f) then Minus(f) else f
  }

  function WithSign(negative: bool, f: NonNegative): (r: Float)
    ensures !negative ==> !BelowZero(r)
  {
    if negative then Minus(f) else f
  }

  // ----- rounding

  /** A bound below which every integer, and every multiple of 1/1024, is a floating-point number. */
  const EXACT := 8796093022208

  predicate IsExact(x: real) {
    -(EXACT as real) < x < EXACT as real && (x * 1024.0).Floor as real == x * 1024.0
  }

  /** The nearest number, symmetric about zero. */
  function Round(fp: Floats, x: real): (r: Float)
    ensures x >= 0.0 ==> !BelowZero(r)
  {
    if IsExact(x) then Finite(x) else if x < 0.0 then Minus(fp.round(-x)) else fp.round(x)
  }

  function OfInt(fp: Floats, v: int): (r: Option<Float>)
    ensures r.Some? && v >= 0 ==> !BelowZero(r.value)
    ensures r.Some? && r.value.Finite? ==> Integral(r.value.x)
  {
    if -EXACT < v < EXACT then Some(Finite(v as real))
    else
      var size := fp.ofInt(if v < 0 then -v else v);
      if size.Some? then NegatedIsIntegral(size.value); Some(WithSign(v < 0, size.value)) else None
  }

  lemma NegatedIsIntegral(f: Float)
    ensures f.Finite? && Integral(f.x) ==> Minus(f).Finite? && Integral(Minus(f).x)
  {
    if f.Finite? && Integral(f.x) {
      assert (-f.x).Floor == -(f.x.Floor);
    }
  }

  /** The quotient of two integers, which is not computed by way of floating-point numbers. */
  function DivideInts(fp: Floats, a: int, b: int): (r: Option<Float>)
    ensures r.Some? && a >= 0 && b >= 0 ==> !BelowZero(r.value)
  {
    if b == 0 then None
    else if -EXACT < a < EXACT && -EXACT < b < EXACT then Some(Round(fp, a as real / b as real))
    else
      var size := fp.quotient(if a < 0 then -a else a, if b < 0 then -b else b);
      if size.Some? then Some(WithSign((a < 0) != (b < 0), size.value)) else None
  }

  // ----- arithmetic

  function Plus(fp: Floats, a: Float, b: Float): (r: Float)
    ensures !BelowZero(a) && !BelowZero(b) ==> !BelowZero(r)
  {
    match (a, b)
    case (Finite(x), Finite(y)) => Round(fp, x + y)
    case (Infinite(s), Infinite(t)) => if s == t then a else NaN
    case (Infinite(_), Finite(_)) => a
    case (Finite(_), Infinite(_)) => b
    case _ => NaN
  }

  function Product(x: real, y: real): (r: real)
    ensures x >= 0.0 && y >= 0.0 ==> r >= 0.0
  {
    x * y
  }

  function Times(fp: Floats, a: Float, b: Float): (r: Float)
    ensures !BelowZero(a) && !BelowZero(b) ==> !BelowZero(r)
  {
    var negative := BelowZero(a) != BelowZero(b);
    match (a, b)
    case (Finite(x), Finite(y)) => Round(fp, Product(x, y))
    case (Infinite(_), Infinite(_)) => Infinite(negative)
    case (Infinite(_), Finite(y)) => if y == 0.0 then NaN else Infinite(negative)
    case (Finite(x), Infinite(_)) => if x == 0.0 then NaN else Infinite(negative)
    case _ => NaN
  }

  /** Division by zero raises. */
  function Over(fp: Floats, a: Float, b: Float): (r: Option<Float>)
    ensures r.Some? && !BelowZero(a) && !BelowZero(b) ==> !BelowZero(r.value)
  {
    if b == Finite(0.0) then None
    else if a.NaN? || b.NaN? then Some(NaN)
    else if b.Infinite? then Some(if a.Infinite? then NaN else Finite(0.0))
    else if a.Infinite? then Some(Infinite(a.negative != BelowZero(b)))
    else
      PositiveQuotient(a.x, b.x);
      Some(Round(fp, a.x / b.x))
  }

  lemma PositiveQuotient(x: real, y: real)
    requires y != 0.0
    ensures x >= 0.0 && y > 0.0 ==> x / y >= 0.0
  {
  }

  /** The remainder has the sign of the divisor. */
  function Remainder(fp: Floats, a: Float, b: Float): (r: Option<Float>)
    ensures b != Finite(0.0) ==> r.Some?
    ensures r.Some? && !BelowZero(a) && !BelowZero(b) ==> !BelowZero(r.value)
  {
    if b == Finite(0.0) then None
    else if !a.Finite? || b.NaN? then Some(NaN)
    else if b.Infinite? then Some(if a.x == 0.0 || (a.x < 0.0) == b.negative then a else b)
    else Some(Round(fp, RestOf(a.x, b.x)))
  }

  /** What is left of x after the largest multiple of y. */
  function RestOf(x: real, y: real): (r: real)
    requires y != 0.0
    ensures y > 0.0 ==> r >= 0.0
  {
    FloorBelow(x, y);
    x - y * (x / y).Floor as real
  }

  lemma FloorBelow(x: real, y: real)
    requires y != 0.0
    ensures y > 0.0 ==> x - y * (x / y).Floor as real >= 0.0
  {
    if y > 0.0 {
      assert y * (x / y).Floor as real <= y * (x / y);
      assert y * (x / y) == x;
    }
  }

  /** What a power is, if it does not raise: a negative number to a fractional exponent is complex. Roots of
      numbers that are not huge do not overflow. */
  datatype Power = Real(f: Float) | Unordered(code: int) | Raises

  function ToThe(fp: Floats, a: Float, b: Float): (r: Power)
    ensures r.Real? && !BelowZero(a) ==> !BelowZero(r.f)
    ensures r.Unordered? ==> a.Finite? && a.x < 0.0 && b.Finite? && !Integral(b.x)
  {
    if a == Finite(0.0) && b.Finite? && b.x < 0.0 then Raises
    else if a.Finite? && a.x < 0.0 && b.Finite? && !Integral(b.x) then
      var code := fp.root(a.x, b.x);
      if code.Some? then Unordered(code.value)
      else if 0.0 < b.x < 1.0 then Unordered(0)
      else Raises
    else
      var size := fp.power(Abs(a), b);
      if size.None? then Raises
      else Real(WithSign(BelowZero(a) && b.Finite? && Integral(b.x) && b.x.Floor % 2 == 1, size.value))
  }
}
