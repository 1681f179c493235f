/** What Python's operators compute, as laws that tie each to something simpler. The bounds of integer expressions
    rest on it. */
module Operators {
  import opened Types
  import opened Emitted
  import opened PyFloat
  import opened PyNumber
  import PyInt

  /** Every operator is an arithmetic one, which integers have a value for unless it divides, or yields a truth value;
      equality and inequality compare both numbers and truth values, and nothing else does. */
  lemma KindsOfOperators(op: Op)
    ensures Arithmetic(op) <==> op == Div || OnInts(op, 1, 1).Some?
    ensures Arithmetic(op) <==> !Logical(op) && !Comparison(op)
    ensures Logical(op) && Comparison(op) <==> op == Eq || op == Ne
    ensures op == And || op == Or <==> Logical(op) && !Comparison(op)
  {
    hide PyInt.Mod, PyInt.Pow, PyInt.Bitwise, PyInt.ShiftLeft, PyInt.ShiftRight;
  }

  // ----- sums, products, remainders

  /** A difference is what has to be added, and takes a sum back. */
  lemma DifferenceUndoesSum(a: int, b: int)
    ensures OnInts(Sub, a, b).Some? && OnInts(Sub, a, b).value + b == a
    ensures OnInts(Add, a, b).Some? && OnInts(Sub, OnInts(Add, a, b).value, b) == Some(a)
  {
  }

  /** A product is a repeated sum. */
  lemma ProductIsRepeatedSum(a: int, b: int)
    ensures OnInts(Mul, a, 0) == Some(0)
    ensures OnInts(Mul, a, b).Some? && OnInts(Mul, a, b + 1) == Some(OnInts(Mul, a, b).value + a)
  {
  }

  /** A remainder differs from the number by a multiple of the divisor, and lies between zero and the divisor. */
  lemma RemainderIs(a: int, b: int) returns (q: int)
    requires b != 0
    ensures OnInts(Mod, a, b).Some? && a == b * q + OnInts(Mod, a, b).value
    ensures if b > 0 then 0 <= OnInts(Mod, a, b).value < b else b < OnInts(Mod, a, b).value <= 0
  {
    if b > 0 {
      q := a / b;
    } else {
      q := (-a) / (-b);
      assert -a == (-b) * q + (-a) % (-b);
    }
  }

  // ----- powers and shifts

  lemma {:induction false} PowerOfSum(b: int, i: nat, j: nat)
    ensures OnInts(Pow, b, 0) == Some(1) && OnInts(Pow, b, 1) == Some(b)
    ensures PyInt.Pow(b, i + j) == PyInt.Pow(b, i) * PyInt.Pow(b, j)
    ensures OnInts(Pow, b, i + j) == Some(OnInts(Pow, b, i).value * OnInts(Pow, b, j).value)
    decreases i
  {
    assert PyInt.Pow(b, 1) == b * PyInt.Pow(b, 0);
    if i > 0 {
      PowerOfSum(b, i - 1, j);
      Associative(b, PyInt.Pow(b, i - 1), PyInt.Pow(b, j));
      assert i + j - 1 == i - 1 + j;
    }
  }

  lemma Associative(a: int, b: int, c: int)
    ensures a * (b * c) == a * b * c
  {
  }

  lemma {:induction false} ShiftIsDoubling(a: int, k: nat)
    ensures OnInts(Shl, a, 0) == Some(a)
    ensures OnInts(Shl, a, k + 1) == Some(2 * OnInts(Shl, a, k).value)
  {
    assert PyInt.Pow2(k + 1) == 2 * PyInt.Pow2(k);
    Associative(a, 2, PyInt.Pow2(k));
  }

  /** A shift to the right is the largest number that shifted back does not exceed the given one. */
  lemma ShiftRightIsFloor(a: int, k: nat)
    ensures OnInts(Shr, a, k).Some?
    ensures OnInts(Shl, OnInts(Shr, a, k).value, k).value <= a < OnInts(Shl, OnInts(Shr, a, k).value + 1, k).value
  {
    var m, q := PyInt.Pow2(k), a / PyInt.Pow2(k);
    assert a == m * q + a % m;
    assert (q + 1) * m == m * q + m;
  }

  lemma ShiftBack(a: int, k: nat)
    ensures OnInts(Shr, OnInts(Shl, a, k).value, k) == Some(a)
  {
    var m := PyInt.Pow2(k);
    PyInt.QuotientIsUnique(a * m, a, 0, m);
  }

  /** What has no value. */
  lemma NoValueIff(op: Op, a: int, b: int)
    requires Arithmetic(op) && op != Div
    ensures OnInts(op, a, b).None? <==> (op == Mod && b == 0) || (op in {Pow, Shl, Shr} && b < 0)
  {
    hide PyInt.Mod, PyInt.Pow, PyInt.Bitwise, PyInt.ShiftLeft, PyInt.ShiftRight;
  }

  // ----- bits

  /** Bit number k in two's complement. */
  predicate BitAt(a: int, k: nat)
    decreases k
  {
    if k == 0 then a % 2 == 1 else BitAt(a / 2, k - 1)
  }

  function Combined(op: Op, x: bool, y: bool): bool
    requires op in {BitAnd, BitOr, BitXor}
  {
    match op
    case BitAnd => x && y
    case BitOr => x || y
    case _ => x != y
  }

  /** The bitwise operators work on every bit alone. */
  lemma {:induction false} EveryBit(op: Op, a: int, b: int, k: nat)
    requires op in {BitAnd, BitOr, BitXor}
    ensures OnInts(op, a, b).Some?
    ensures BitAt(OnInts(op, a, b).value, k) == Combined(op, BitAt(a, k), BitAt(b, k))
    decreases k
  {
    var bits := OnBits(op);
    if PyInt.Magnitude(a) == 0 && PyInt.Magnitude(b) == 0 {
      AllTheSame(k);
    } else {
      var half, bit := PyInt.Bitwise(bits, a / 2, b / 2), PyInt.Bit(bits, a % 2, b % 2);
      assert OnInts(op, a, b) == Some(2 * half + bit);
      assert (2 * half + bit) / 2 == half && (2 * half + bit) % 2 == bit;
      if k > 0 { EveryBit(op, a / 2, b / 2, k - 1); }
    }
  }

  function OnBits(op: Op): (r: PyInt.BitOp)
    requires op in {BitAnd, BitOr, BitXor}
    ensures forall a, b :: OnInts(op, a, b) == Some(PyInt.Bitwise(r, a, b))
  {
    match op
    case BitAnd => PyInt.And
    case BitOr => PyInt.Or
    case _ => PyInt.Xor
  }

  lemma {:induction false} AllTheSame(k: nat)
    ensures !BitAt(0, k) && BitAt(-1, k)
  {
    assert -1 / 2 == -1 && -1 % 2 == 1;
    if k > 0 { AllTheSame(k - 1); }
  }

  /** No two numbers have the same bits, so the law above leaves nothing open. */
  lemma {:induction false} BitsDetermine(a: int, b: int)
    requires forall k: nat :: BitAt(a, k) == BitAt(b, k)
    ensures a == b
    decreases PyInt.Magnitude(a) + PyInt.Magnitude(b)
  {
    assert BitAt(a, 0) == BitAt(b, 0);
    if PyInt.Magnitude(a) + PyInt.Magnitude(b) == 0 {
      AllTheSame(0);
    } else {
      forall k: nat ensures BitAt(a / 2, k) == BitAt(b / 2, k) {
        assert BitAt(a, k + 1) == BitAt(b, k + 1);
      }
      BitsDetermine(a / 2, b / 2);
    }
  }

  /** A bit is what a shift brings to the front. */
  lemma {:induction false} BitIsShifted(a: int, k: nat)
    ensures BitAt(a, k) <==> PyInt.ShiftRight(a, k) % 2 == 1
    decreases k
  {
    if k > 0 {
      BitIsShifted(a / 2, k - 1);
      HalfFirst(a, PyInt.Pow2(k - 1));
    }
  }

  lemma HalfFirst(a: int, m: int)
    requires m > 0
    ensures a / 2 / m == a / (2 * m)
  {
    var h := a / 2;
    var q := h / m;
    assert h == m * q + h % m && a == 2 * h + a % 2;
    var r := 2 * (h % m) + a % 2;
    assert a == 2 * m * q + r && 0 <= r < 2 * m;
    PyInt.QuotientIsUnique(a, q, r, 2 * m);
  }

  /** And and or share the sum out; exclusive or is their difference. */
  lemma {:induction false} BitsAddUp(a: int, b: int)
    ensures OnInts(BitAnd, a, b).value + OnInts(BitOr, a, b).value == a + b
    ensures OnInts(BitXor, a, b).value == OnInts(BitOr, a, b).value - OnInts(BitAnd, a, b).value
    decreases PyInt.Magnitude(a) + PyInt.Magnitude(b)
  {
    if PyInt.Magnitude(a) + PyInt.Magnitude(b) > 0 {
      BitsAddUp(a / 2, b / 2);
      assert a == 2 * (a / 2) + a % 2 && b == 2 * (b / 2) + b % 2;
    }
  }

  // ----- fractions

  /** A quotient of integers undoes a product. */
  lemma QuotientUndoesProduct(fp: Floats, q: int, b: int)
    requires -EXACT < q * b < EXACT && -EXACT < b < EXACT && b != 0 && -EXACT < q < EXACT
    ensures DivideInts(fp, q * b, b) == Some(Finite(q as real))
  {
    hide IsExact, Round;
    RealProduct(q, b);
    Cancel(q as real, b as real);
    WholeIsExact(q);
    NotRounded(fp, q as real);
  }

  lemma RealProduct(a: int, b: int)
    ensures (a * b) as real == a as real * b as real
  {
  }

  lemma Cancel(x: real, y: real)
    requires y != 0.0
    ensures x * y / y == x
  {
  }

  lemma NotRounded(fp: Floats, x: real)
    requires IsExact(x)
    ensures Round(fp, x) == Finite(x)
  {
  }

  lemma WholeIsExact(v: int)
    requires -EXACT < v < EXACT
    ensures IsExact(v as real)
  {
    assert v as real * 1024.0 == (v * 1024) as real;
  }

  /** As long as nothing is rounded, a difference undoes a sum. */
  lemma FractionsAddUp(py: Python, x: real, y: real)
    requires IsExact(x) && IsExact(x + y)
    ensures var sum := OnFloats(py, Add, Finite(x), Finite(y));
            sum.Some? && sum.value.Fraction? && OnFloats(py, Sub, sum.value.f, Finite(y)) == Some(Fraction(Finite(x)))
  {
    hide IsExact, Round;
    NotRounded(py.floats, x);
    NotRounded(py.floats, x + y);
  }

  /** And a quotient a product. */
  lemma FractionsMultiply(py: Python, x: real, y: real)
    requires IsExact(x) && IsExact(x * y) && y != 0.0
    ensures var product := OnFloats(py, Mul, Finite(x), Finite(y));
            && product.Some? && product.value.Fraction?
            && OnFloats(py, Div, product.value.f, Finite(y)) == Some(Fraction(Finite(x)))
  {
    hide IsExact, Over, Times;
    TimesExactly(py.floats, x, y, x * y);
    Cancel(x, y);
    OverExactly(py.floats, x * y, y, x);
  }

  /** A product with one, and with one more. */
  lemma FractionsRepeat(py: Python, x: real, y: real)
    requires IsExact(x) && IsExact(x * y) && IsExact(x * (y + 1.0))
    ensures OnFloats(py, Mul, Finite(x), Finite(1.0)) == Some(Fraction(Finite(x)))
    ensures var product := OnFloats(py, Mul, Finite(x), Finite(y));
            && product.Some? && product.value.Fraction?
            && OnFloats(py, Mul, Finite(x), Finite(y + 1.0)) == OnFloats(py, Add, product.value.f, Finite(x))
  {
    hide IsExact, Plus, Times;
    TimesExactly(py.floats, x, 1.0, x);
    TimesExactly(py.floats, x, y, x * y);
    TimesExactly(py.floats, x, y + 1.0, x * (y + 1.0));
    assert x * (y + 1.0) == x * y + x;
    PlusExactly(py.floats, x * y, x, x * (y + 1.0));
  }

  lemma PlusExactly(fp: Floats, x: real, y: real, sum: real)
    requires sum == x + y && IsExact(sum)
    ensures Plus(fp, Finite(x), Finite(y)) == Finite(sum)
  {
    hide IsExact, Round;
    NotRounded(fp, sum);
  }

  lemma TimesExactly(fp: Floats, x: real, y: real, product: real)
    requires product == x * y && IsExact(product)
    ensures Times(fp, Finite(x), Finite(y)) == Finite(product)
  {
    hide IsExact, Round;
    assert Product(x, y) == product;
    NotRounded(fp, product);
  }

  lemma OverExactly(fp: Floats, product: real, y: real, x: real)
    requires y != 0.0 && product / y == x && IsExact(x)
    ensures Over(fp, Finite(product), Finite(y)) == Some(Finite(x))
  {
    hide IsExact, Round;
    NotRounded(fp, x);
  }

  /** Nor does a remainder that is not rounded lie outside its divisor. */
  lemma RemainderOfFraction(py: Python, x: real, y: real) returns (q: int)
    requires y > 0.0
    ensures 0.0 <= x - y * q as real < y
    ensures IsExact(x - y * q as real) ==>
              OnFloats(py, Mod, Finite(x), Finite(y)) == Some(Fraction(Finite(x - y * q as real)))
  {
    hide Remainder;
    q := (x / y).Floor;
    FloorIs(x, y, q);
    if IsExact(x - y * q as real) { RemainderExactly(py.floats, x, y, q, x - y * q as real); }
  }

  lemma RemainderExactly(fp: Floats, x: real, y: real, q: int, rest: real)
    requires y > 0.0 && q == (x / y).Floor && rest == x - y * q as real && IsExact(rest)
    ensures Remainder(fp, Finite(x), Finite(y)) == Some(Finite(rest))
  {
    hide IsExact, Round;
    assert RestOf(x, y) == rest;
    NotRounded(fp, rest);
  }

  lemma FloorIs(x: real, y: real, q: int)
    requires y > 0.0 && q == (x / y).Floor
    ensures 0.0 <= x - y * q as real < y
  {
    var part := x / y - q as real;
    assert x == y * (q as real + part) == y * q as real + y * part;
    PartOf(y, part);
  }

  lemma PartOf(y: real, part: real)
    requires y > 0.0 && 0.0 <= part < 1.0
    ensures 0.0 <= y * part < y
  {
    assert y - y * part == y * (1.0 - part);
  }

  /** Integers and the fractions equal to them compare alike. */
  lemma ComparedAlike(py: Python, v: int)
    ensures Negative(Whole(v)) == Negative(Fraction(Finite(v as real)))
    ensures Above256(Whole(v)) == Above256(Fraction(Finite(v as real)))
    ensures IsZero(py, Whole(v)) == IsZero(py, Fraction(Finite(v as real)))
  {
  }

  /** In between, a fraction is above 256 if and only if what is missing to 256 is negative. */
  lemma ComparedExactly(x: real, y: real)
    ensures Above256(Fraction(Finite(x))) <==> Negative(Fraction(Finite(256.0 - x)))
    ensures x <= y && Negative(Fraction(Finite(y))) ==> Negative(Fraction(Finite(x)))
    ensures Negative(Fraction(Finite(x))) && Negative(Fraction(Minus(Finite(x)))) ==> false
    ensures !Negative(Fraction(Finite(x))) && !Negative(Fraction(Minus(Finite(x)))) ==> x == 0.0
  {
  }

  /** A power is complex, or raises, exactly where a negative number has an exponent that is no integer; zero has no
      negative power. */
  lemma PowersOfFractions(py: Python, a: real, b: real)
    ensures var power := OnFloats(py, Pow, Finite(a), Finite(b));
            && (power.Some? && power.value.Complex? ==> a < 0.0 && !Integral(b))
            && (a < 0.0 && !Integral(b) ==> power.None? || power.value.Complex?)
            && (a < 0.0 && 0.0 < b < 1.0 ==> power.Some?)
            && (a == 0.0 && b < 0.0 ==> power.None?)
  {
  }

  /** An infinite number stays infinite, with the sign that the operands give it, unless it meets its opposite. */
  lemma InfinitiesStay(py: Python, s: bool, t: bool, x: real)
    ensures OnFloats(py, Add, Infinite(s), Finite(x)) == OnFloats(py, Add, Finite(x), Infinite(s)) ==
            Some(Fraction(Infinite(s)))
    ensures OnFloats(py, Add, Infinite(s), Infinite(t)) == Some(Fraction(if s == t then Infinite(s) else NaN))
    ensures OnFloats(py, Sub, Infinite(s), Infinite(t)) == Some(Fraction(if s == t then NaN else Infinite(s)))
    ensures OnFloats(py, Mul, Infinite(s), Infinite(t)) == Some(Fraction(Infinite(s != t)))
    ensures x != 0.0 ==> OnFloats(py, Mul, Infinite(s), Finite(x)) == OnFloats(py, Mul, Finite(x), Infinite(s)) ==
                         OnFloats(py, Div, Infinite(s), Finite(x)) == Some(Fraction(Infinite(s != (x < 0.0))))
    ensures OnFloats(py, Div, Finite(x), Infinite(s)) == Some(Fraction(Finite(0.0)))
    ensures OnFloats(py, Div, Finite(x), Finite(0.0)).None? && OnFloats(py, Mod, Finite(x), Finite(0.0)).None?
  {
  }
}
