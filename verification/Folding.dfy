/** What becomes of integer operations on literals: an unsigned type never shows a result that it cannot hold. */
module Folding {
  import opened Types
  import opened Emitted
  import opened IntBounds
  import opened Messages
  import opened Mirror
  import opened Flaws
  import opened PyNumber
  import opened Operators
  import PyInt

  function Amount(v: nat): (e: Expr)
    ensures LiteralOnly(e)
  {
    Lit(NO_LITERAL.(intval := v))
  }

  function UnsignedType(n: nat): VType {
    Int(n, false)
  }

  function Two(op: Op, v: nat, w: nat): (e: Expr)
    requires Arithmetic(op)
    ensures e.BinOp? && LiteralOnly(e)
  {
    BinOp(op, Amount(v), Amount(w))
  }

  function Reduced(op: Op, v: nat, w: nat, c: nat): (e: Expr)
    requires Arithmetic(op)
    ensures e.BinOp? && LiteralOnly(e)
  {
    BinOp(Sub, Two(op, v, w), Amount(c))
  }

  lemma SmallWritten(py: Python, n: nat, v: nat, nested: bool)
    requires n > 0 && v < PyInt.Pow2(n)
    ensures Written(py, Amount(v), UnsignedType(n), nested) == OInt(v)
    ensures InBounds(UnsignedType(n), v) && Value(py, OInt(v)) == Some(Whole(v))
  {
    RangeSize(n, false);
    PyInt.QuotientIsUnique(v, 0, v, PyInt.Pow2(n));
    LiteralWritten(py, NO_LITERAL.(intval := v), UnsignedType(n), nested);
  }

  /** An operation that the first check leaves alone: written as it is if its value is in range, else the remainder
      of the value. */
  lemma OperationFolded(py: Python, n: nat, l: OExpr, op: Op, r: OExpr, x: int)
    requires n > 0 && NumberOk(py, UnsignedType(n), op, r) && Value(py, r).Some?
    requires Value(py, OBin(op, l, r)) == Some(Whole(x))
    ensures Folded(py, UnsignedType(n), l, op, r) ==
            if 0 <= x < PyInt.Pow2(n) then OBin(op, l, r) else OInt(x % PyInt.Pow2(n))
  {
    hide Value, InBounds, Generate;
    InRangeIff(n, x);
  }

  lemma InRangeIff(n: nat, x: int)
    requires n > 0
    ensures InBounds(UnsignedType(n), x) <==> 0 <= x < PyInt.Pow2(n)
    ensures Generate(n, false, x) == x % PyInt.Pow2(n)
  {
    RangeSize(n, false);
  }

  lemma TwoNumbers(py: Python, n: nat, op: Op, v: nat, w: nat, x: int, nested: bool)
    requires n > 0 && v < PyInt.Pow2(n) && w < PyInt.Pow2(n) && Arithmetic(op) && op != Div
    requires NumberOk(py, UnsignedType(n), op, OInt(w)) && OnInts(op, v, w) == Some(x)
    ensures Written(py, Two(op, v, w), UnsignedType(n), nested) ==
            InParens(nested, if 0 <= x < PyInt.Pow2(n) then OBin(op, OInt(v), OInt(w)) else OInt(x % PyInt.Pow2(n)))
  {
    hide Written, Folded, Value, Operate, OnInts, NumberOk;
    SmallWritten(py, n, v, true);
    SmallWritten(py, n, w, true);
    OperationValue(py, op, OInt(v), OInt(w), v, w, x);
    OperationFolded(py, n, OInt(v), op, OInt(w), x);
    OperationWritten(py, Two(op, v, w), UnsignedType(n), nested);
  }

  lemma OperationValue(py: Python, op: Op, l: OExpr, r: OExpr, a: int, b: int, x: int)
    requires Value(py, l) == Some(Whole(a)) && Value(py, r) == Some(Whole(b)) && OnInts(op, a, b) == Some(x)
    requires !BareMinus(l)
    ensures Value(py, OBin(op, l, r)) == Some(Whole(x)) && Value(py, OParen(OBin(op, l, r))) == Some(Whole(x))
  {
    hide Operate, OnInts;
    WholeIff(py, op, Whole(a), Whole(b));
  }

  /** A difference below zero is wrapped around: 3 - 5 becomes 254 in eight bits. */
  lemma DifferenceWritten(py: Python, n: nat, v: nat, w: nat)
    requires n > 0 && v < PyInt.Pow2(n) && w < PyInt.Pow2(n)
    ensures Written(py, Two(Sub, v, w), UnsignedType(n), false) ==
            if v >= w then OBin(Sub, OInt(v), OInt(w)) else OInt(PyInt.Pow2(n) + v - w)
  {
    hide Written;
    DifferenceUndoesSum(v, w);
    TwoNumbers(py, n, Sub, v, w, v - w, false);
    if v < w { PyInt.QuotientIsUnique(v - w, -1, PyInt.Pow2(n) + v - w, PyInt.Pow2(n)); }
  }

  /** A sum that is too large loses the size of the type. */
  lemma SumWritten(py: Python, n: nat, v: nat, w: nat)
    requires n > 0 && v < PyInt.Pow2(n) && w < PyInt.Pow2(n)
    ensures Written(py, Two(Add, v, w), UnsignedType(n), false) ==
            if v + w < PyInt.Pow2(n) then OBin(Add, OInt(v), OInt(w)) else OInt(v + w - PyInt.Pow2(n))
  {
    hide Written;
    DifferenceUndoesSum(v, w);
    TwoNumbers(py, n, Add, v, w, v + w, false);
    if v + w >= PyInt.Pow2(n) { PyInt.QuotientIsUnique(v + w, 1, v + w - PyInt.Pow2(n), PyInt.Pow2(n)); }
  }

  /** Two less than the value of an operation in range is evaluated through the parentheses. */
  lemma TwoBelow(py: Python, n: nat, op: Op, v: nat, w: nat, x: nat)
    requires n > 0 && v < PyInt.Pow2(n) && w < PyInt.Pow2(n) && x + 2 < PyInt.Pow2(n) && Arithmetic(op) && op != Div
    requires NumberOk(py, UnsignedType(n), op, OInt(w)) && OnInts(op, v, w) == Some(x)
    ensures Written(py, Reduced(op, v, w, x + 2), UnsignedType(n), false) ==
            OInt(PyInt.Pow2(n) - 2)
  {
    hide Written, Folded, Value, Operate, OnInts;
    var l, r := OBin(op, OInt(v), OInt(w)), OInt(x + 2);
    TwoNumbers(py, n, op, v, w, x, true);
    SmallWritten(py, n, v, true);
    SmallWritten(py, n, w, true);
    SmallWritten(py, n, x + 2, true);
    OperationValue(py, op, OInt(v), OInt(w), v, w, x);
    DifferenceUndoesSum(x, x + 2);
    OperationValue(py, Sub, OParen(l), r, x, x + 2, -2);
    OperationFolded(py, n, OParen(l), Sub, r, -2);
    PyInt.QuotientIsUnique(-2, -1, PyInt.Pow2(n) - 2, PyInt.Pow2(n));
    OperationWritten(py, Reduced(op, v, w, x + 2), UnsignedType(n), false);
  }

  /** 6 * 7, 7 % 4, 3 ** 4, 12 & 10, 12 | 10 and 12 ^ 10, each minus two more, in eight bits. */
  lemma OperatorWitnesses(py: Python)
    ensures Written(py, Reduced(Mul, 6, 7, 44), UnsignedType(8), false) == OInt(254)
    ensures Written(py, Reduced(Mod, 7, 4, 5), UnsignedType(8), false) == OInt(254)
    ensures Written(py, Reduced(Pow, 3, 4, 83), UnsignedType(8), false) == OInt(254)
    ensures Written(py, Reduced(BitAnd, 12, 10, 10), UnsignedType(8), false) == OInt(254)
    ensures Written(py, Reduced(BitOr, 12, 10, 16), UnsignedType(8), false) == OInt(254)
    ensures Written(py, Reduced(BitXor, 12, 10, 8), UnsignedType(8), false) == OInt(254)
  {
    hide *;
    EightBitWitness(py, Mul, 6, 7, 42, 44);
    EightBitWitness(py, Mod, 7, 4, 3, 5);
    EightBitWitness(py, Pow, 3, 4, 81, 83);
    EightBitWitness(py, BitAnd, 12, 10, 8, 10);
    EightBitWitness(py, BitOr, 12, 10, 14, 16);
    EightBitWitness(py, BitXor, 12, 10, 6, 8);
  }

  lemma EightBitWitness(py: Python, op: Op, v: nat, w: nat, x: nat, c: nat)
    requires (op, v, w, x) in {(Mul, 6, 7, 42), (Mod, 7, 4, 3), (Pow, 3, 4, 81), (BitAnd, 12, 10, 8),
                               (BitOr, 12, 10, 14), (BitXor, 12, 10, 6)}
    requires c == x + 2
    ensures Written(py, Reduced(op, v, w, c), UnsignedType(8), false) == OInt(254)
  {
    hide Written, Value, NumberOk, OnInts, Reduced, PyInt.Pow2;
    EightBits();
    SmallResults();
    FineOperand(py, 8, op, w);
    TwoBelow(py, 8, op, v, w, x);
  }

  lemma EightBits()
    ensures PyInt.Pow2(8) == 256
  {
    assert PyInt.Pow2(7) == 128;
  }

  /** No reason to adjust a number above zero; as the amount of a shift it may not be too large. */
  lemma FineOperand(py: Python, n: nat, op: Op, w: nat)
    requires Arithmetic(op) && w > 0 && (op == Shl || op == Shr ==> n == 256 && w <= 256)
    ensures NumberOk(py, UnsignedType(n), op, OInt(w)) && Value(py, OInt(w)) == Some(Whole(w))
  {
  }

  lemma SmallResults()
    ensures OnInts(Mul, 6, 7) == Some(42) && OnInts(Mod, 7, 4) == Some(3) && OnInts(Pow, 3, 4) == Some(81)
    ensures OnInts(BitAnd, 12, 10) == Some(8) && OnInts(BitOr, 12, 10) == Some(14) && OnInts(BitXor, 12, 10) == Some(6)
  {
    hide PyInt.Bitwise;
    assert PyInt.Pow(3, 2) == 9 && PyInt.Pow(3, 3) == 27;
    BitsOfTwelveAndTen(PyInt.And);
    BitsOfTwelveAndTen(PyInt.Or);
    BitsOfTwelveAndTen(PyInt.Xor);
  }

  lemma BitsOfTwelveAndTen(op: PyInt.BitOp)
    ensures PyInt.Bitwise(op, 12, 10) == match op case And => 8 case Or => 14 case Xor => 6
  {
    hide PyInt.Bitwise;
    LowestBit(op, 12, 10);
    LowestBit(op, 6, 5);
    LowestBit(op, 3, 2);
    LowestBit(op, 1, 1);
    NoBits(op);
  }

  lemma LowestBit(op: PyInt.BitOp, a: nat, b: nat)
    requires a > 0 || b > 0
    ensures PyInt.Bitwise(op, a, b) == 2 * PyInt.Bitwise(op, a / 2, b / 2) + PyInt.Bit(op, a % 2, b % 2)
  {
  }

  lemma NoBits(op: PyInt.BitOp)
    ensures PyInt.Bitwise(op, 0, 0) == 0
  {
  }

  /** 3 << 4 and 48 >> 4, each minus two more: shifts exist in 256 bits only. */
  lemma ShiftWitnesses(py: Python)
    ensures Written(py, Reduced(Shl, 3, 4, 50), UnsignedType(256), false) == OInt(PyInt.Pow2(256) - 2)
    ensures Written(py, Reduced(Shr, 48, 4, 5), UnsignedType(256), false) == OInt(PyInt.Pow2(256) - 2)
  {
    hide Written, Value, NumberOk, OnInts, PyInt.Pow2;
    FineOperand(py, 256, Shl, 4);
    FineOperand(py, 256, Shr, 4);
    Wide();
    SmallShifts();
    TwoBelow(py, 256, Shl, 3, 4, 48);
    TwoBelow(py, 256, Shr, 48, 4, 3);
  }

  lemma SmallShifts()
    ensures OnInts(Shl, 3, 4) == Some(48) && OnInts(Shr, 48, 4) == Some(3)
  {
    assert PyInt.Pow2(4) == 16 by { assert PyInt.Pow2(3) == 8; }
  }

  lemma Wide()
    ensures PyInt.Pow2(256) > 256
  {
    AtLeast(256);
  }

  lemma {:induction false} AtLeast(n: nat)
    ensures PyInt.Pow2(n) > n
  {
    if n > 0 { AtLeast(n - 1); }
  }
}
