/** Python's numbers and what the binary operators make of them. */
module PyNumber {
  import opened Types
  import opened Emitted
  import opened PyFloat
  import PyInt

  /** An integer, a floating-point number, or a complex number, of which only a code is known. */
  datatype Num = Whole(v: int) | Fraction(f: Float) | Complex(code: int)

  /** What is left open of the arithmetic: how results are rounded, and everything about complex numbers but the
      operations they admit. */
  datatype Python = Python(floats: Floats, complex: (Op, Num, Num) -> Option<int>, minus: int -> int,
                           isZero: int -> bool)

  predicate Negative(n: Num) {
    match n
    case Whole(v) => v < 0
    case Fraction(f) => BelowZero(f)
    case Complex(_) => false
  }

  predicate Above256(n: Num) {
    match n
    case Whole(v) => v > 256
    case Fraction(Finite(x)) => x > 256.0
    case Fraction(f) => f == Infinite(false)
    case Complex(_) => false
  }

  predicate IsZero(py: Python, n: Num) {
    match n
    case Whole(v) => v == 0
    case Fraction(f) => f == Finite(0.0)
    case Complex(code) => py.isZero(code)
  }

  function Negated(py: Python, n: Num): Num {
    match n
    case Whole(v) => Whole(-v)
    case Fraction(f) => Fraction(Minus(f))
    case Complex(code) => Complex(py.minus(code))
  }

  /** The operations that integers are closed under. */
  function OnInts(op: Op, a: int, b: int): Option<int> {
    match op
    case Add => Some(a + b)
    case Sub => Some(a - b)
    case Mul => Some(a * b)
    case Mod => if b == 0 then None else Some(PyInt.Mod(a, b))
    case Pow => if b < 0 then None else Some(PyInt.Pow(a, b))
    case BitAnd => Some(PyInt.Bitwise(PyInt.And, a, b))
    case BitOr => Some(PyInt.Bitwise(PyInt.Or, a, b))
    case BitXor => Some(PyInt.Bitwise(PyInt.Xor, a, b))
    case Shl => if b < 0 then None else Some(PyInt.ShiftLeft(a, b))
    case Shr => if b < 0 then None else Some(PyInt.ShiftRight(a, b))
    case _ => None
  }

  function AsFloat(py: Python, n: Num): (r: Option<Float>)
    ensures r.Some? && !Negative(n) ==> !BelowZero(r.value)
    ensures r.Some? && n.Whole? && r.value.Finite? ==> Integral(r.value.x)
  {
    match n
    case Whole(v) => OfInt(py.floats, v)
    case Fraction(f) => Some(f)
    case Complex(_) => None
  }

  function AsFraction(f: Option<Float>): Option<Num> {
    if f.Some? then Some(Fraction(f.value)) else None
  }

  function OnFloats(py: Python, op: Op, a: Float, b: Float): Option<Num> {
    match op
    case Add => Some(Fraction(Plus(py.floats, a, b)))
    case Sub => Some(Fraction(Plus(py.floats, a, Minus(b))))
    case Mul => Some(Fraction(Times(py.floats, a, b)))
    case Div => AsFraction(Over(py.floats, a, b))
    case Mod => AsFraction(Remainder(py.floats, a, b))
    case Pow =>
      (match ToThe(py.floats, a, b)
       case Real(f) => Some(Fraction(f))
       case Unordered(code) => Some(Complex(code))
       case Raises => None)
    case _ => None
  }

  /** The value of a binary operation; None where it raises. */
  function Operate(py: Python, op: Op, a: Num, b: Num): Option<Num> {
    if a.Whole? && b.Whole? && op == Div then AsFraction(DivideInts(py.floats, a.v, b.v))
    else if a.Whole? && b.Whole? && !(op == Pow && b.v < 0) then
      var v := OnInts(op, a.v, b.v);
      if v.Some? then Some(Whole(v.value)) else None
    else if a.Complex? || b.Complex? then
      if op in {Add, Sub, Mul, Div, Pow} && py.complex(op, a, b).Some? then Some(Complex(py.complex(op, a, b).value))
      else None
    else
      var x, y := AsFloat(py, a), AsFloat(py, b);
      if x.Some? && y.Some? then OnFloats(py, op, x.value, y.value) else None
  }

  /** Integers come from integers only, and not by division. */
  lemma WholeIff(py: Python, op: Op, a: Num, b: Num)
    ensures Operate(py, op, a, b).Some? && Operate(py, op, a, b).value.Whole? <==>
            a.Whole? && b.Whole? && OnInts(op, a.v, b.v).Some?
    ensures a.Whole? && b.Whole? && OnInts(op, a.v, b.v).Some? ==>
            Operate(py, op, a, b) == Some(Whole(OnInts(op, a.v, b.v).value))
  {
    hide PyInt.Mod, PyInt.Pow, PyInt.Bitwise, PyInt.ShiftLeft, PyInt.ShiftRight, Plus, Times, Over, Remainder, ToThe,
         DivideInts, OfInt;
  }

  /** A fraction comes from a fraction, a division or a negative exponent. */
  lemma FractionFrom(py: Python, op: Op, a: Num, b: Num)
    requires a.Whole? && b.Whole? && op != Div && (op == Pow ==> b.v >= 0)
    ensures Operate(py, op, a, b).Some? ==> Operate(py, op, a, b).value.Whole?
  {
    hide PyInt.Mod, PyInt.Pow, PyInt.Bitwise, PyInt.ShiftLeft, PyInt.ShiftRight;
  }

  /** A complex number comes from a complex number or a fractional exponent. */
  lemma ComplexFrom(py: Python, op: Op, a: Num, b: Num)
    requires !a.Complex? && !b.Complex? && !(op == Pow && b.Fraction?)
    ensures Operate(py, op, a, b).Some? ==> !Operate(py, op, a, b).value.Complex?
  {
    hide PyInt.Mod, PyInt.Pow, PyInt.Bitwise, PyInt.ShiftLeft, PyInt.ShiftRight, Plus, Times, Over, Remainder,
         DivideInts, Round, OfInt;
  }

  /** Numbers that are not negative have no negative sum, product, quotient, remainder or power. */
  lemma StaysNonNegative(py: Python, op: Op, a: Num, b: Num)
    requires !Negative(a) && !Negative(b) && op != Sub && (a.Fraction? || b.Fraction? || op == Div)
    ensures Operate(py, op, a, b).Some? ==> !Negative(Operate(py, op, a, b).value)
  {
    hide PyInt.Mod, PyInt.Pow, PyInt.Bitwise, PyInt.ShiftLeft, PyInt.ShiftRight, Plus, Times, Over, Remainder,
         DivideInts, Round, OfInt;
  }
}
