/** Messages for which an expected property of what is written fails. Nothing in them is a variable, so what is
    written does not depend on any choice. */
module Witnesses {
  import opened Types
  import opened Emitted
  import opened IntBounds
  import opened Literals
  import opened Checker
  import opened Messages
  import opened Mirror
  import opened Flaws
  import opened Printing
  import opened PyNumber
  import opened PyFloat
  import opened Climbing
  import Asked
  import PyInt

  function Numeral(v: nat): Expr {
    Lit(NO_LITERAL.(intval := v))
  }

  // ----- two readings

  /** -5 ** 2 in eight signed bits. */
  const SIGNED_POWER := BinOp(Pow, Numeral(123), Numeral(130))

  lemma SignedPowerIsWritten(py: Python)
    ensures Written(py, SIGNED_POWER, Int(8, true), false) == OBin(Pow, OInt(-5), OInt(2))
  {
    hide Generate, PyInt.Pow2;
    var t, l, r := Int(8, true), OInt(-5), OInt(2);
    SmallLiteral(123);
    SmallLiteral(130);
    assert Written(py, SIGNED_POWER.l, t, true) == l && Written(py, SIGNED_POWER.r, t, true) == r;
    assert CheckBinopBounds(py, t, l, Pow, r) == (l, Pow, r);
    assert PyInt.Pow(5, 2) == 25 by { assert PyInt.Pow(5, 1) == 5; }
    assert Value(py, OBin(Pow, l, r)) == Some(Whole(-25));
    SmallBounds();
  }

  lemma SmallBounds()
    ensures forall v :: -128 <= v < 128 ==> InBounds(Int(8, true), v)
    ensures forall v :: 0 <= v < 256 ==> InBounds(Int(8, false), v)
  {
    assert PyInt.Pow2(7) == 128;
  }

  /** It is read as (-5) ** 2 and as -(5 ** 2). */
  lemma SignedPowerHasTwoReadings()
    ensures var e := OBin(Pow, OInt(-5), OInt(2));
            && Readable(e) && !OnlyReading(e)
            && ReadsAs(Tokens(e), OBin(Pow, ONeg(OInt(5)), OInt(2)))
            && ReadsAs(Tokens(e), ONeg(OBin(Pow, OInt(5), OInt(2))))
  {
    var e := OBin(Pow, OInt(-5), OInt(2));
    WrittenReads(e);
    OtherReads(e);
    UniquelyReadable(e);
  }

  // ----- a sign where none belongs

  /** 1 / 2 - 3 in eight unsigned bits. */
  const BELOW_ZERO := BinOp(Sub, BinOp(Div, Numeral(1), Numeral(2)), Numeral(3))
  const BELOW_ZERO_TREE := OBin(Sub, OParen(OBin(Div, OInt(1), OInt(2))), OInt(3))

  lemma UnsignedLiteral(v: nat)
    requires v < 256
    ensures Generate(8, false, v) == v
  {
    assert PyInt.Pow2(8) == 256 by { assert PyInt.Pow2(7) == 128; }
  }

  /** The sign is written in front of the text, -1 / 2 - 3 in effect: an unsigned type has no sign, and the value is
      still negative. */
  lemma MisplacedMinus(py: Python)
    ensures Written(py, BELOW_ZERO, Int(8, false), false) == OMinus(BELOW_ZERO_TREE)
    ensures NegativeFraction(py, OMinus(BELOW_ZERO_TREE)) && Strays(OMinus(BELOW_ZERO_TREE))
  {
    hide Written, Folded, Value, NumberOk, NegativeFraction, Generate;
    var t, half, three := Int(8, false), BELOW_ZERO_TREE.l, OInt(3);
    HalfAgain(py);
    LiteralWritten(py, BELOW_ZERO.r.lit, t, true);
    UnsignedLiteral(3);
    NegativeOnes(py);
    FoldedBelowZero(py, t, half, Sub, three);
    OperationWritten(py, BELOW_ZERO, t, false);
  }

  lemma HalfAgain(py: Python)
    ensures Written(py, BELOW_ZERO.l, Int(8, false), true) == BELOW_ZERO_TREE.l
  {
    hide Written, Folded, Value, InBounds, Generate;
    var t := Int(8, false);
    LiteralWritten(py, BELOW_ZERO.l.l.lit, t, true);
    LiteralWritten(py, BELOW_ZERO.l.r.lit, t, true);
    UnsignedLiteral(1);
    UnsignedLiteral(2);
    HalfIsHalf(py);
    NumberIs(py, OInt(2), 2);
    FoldedUntouched(py, t, OInt(1), Div, OInt(2), Fraction(Finite(0.5)));
    OperationWritten(py, BELOW_ZERO.l, t, true);
  }

  lemma NegativeOnes(py: Python)
    ensures NegativeFraction(py, BELOW_ZERO_TREE) && NegativeFraction(py, OMinus(BELOW_ZERO_TREE))
    ensures NumberOk(py, Int(8, false), Sub, OInt(3))
  {
    hide Value;
    HalfLessThree(py);
  }

  /** An operation without a power or a shift whose value is below zero and no integer. */
  lemma FoldedBelowZero(py: Python, t: VType, l: OExpr, op: Op, r: OExpr)
    requires t.Int? && t.n > 0 && !t.signed && op != Pow && NumberOk(py, t, op, r)
    requires NegativeFraction(py, OBin(op, l, r))
    ensures Folded(py, t, l, op, r) == OMinus(OBin(op, l, r))
  {
    hide Value;
  }

  lemma HalfLessThree(py: Python)
    ensures Value(py, BELOW_ZERO_TREE) == Some(Fraction(Finite(-2.5)))
    ensures Value(py, OMinus(BELOW_ZERO_TREE)) == Some(Fraction(Finite(-3.5)))
  {
    HalfIsHalf(py);
    var l := BELOW_ZERO_TREE.l;
    assert Value(py, l) == Some(Fraction(Finite(0.5)));
    assert NegationTimes(py, Value(py, l), 1) == Some(Fraction(Finite(-0.5))) by {
      assert NegationTimes(py, Negation(py, Value(py, l)), 0) == Negation(py, Value(py, l));
    }
  }

  // ----- a fraction where an integer belongs

  /** 1 << 300 / 1 in 256 unsigned bits. */
  const FRACTION_SHIFT := BinOp(Shl, Numeral(1), BinOp(Div, Numeral(300), Numeral(1)))

  lemma WideLiteral(v: nat)
    requires v < 512
    ensures Generate(256, false, v) == v
  {
    Asked.SmallValue(256, v);
  }

  /** The amount is brought below 257 as the fraction it is. */
  lemma FractionAmount(py: Python)
    ensures Written(py, FRACTION_SHIFT, Int(256, false), false) == OBin(Shl, OInt(1), OFraction(Finite(43.0)))
  {
    hide Written, Folded, Value, InBounds, Operate, Generate;
    var t, one, amount := Int(256, false), OInt(1), OParen(OBin(Div, OInt(300), OInt(1)));
    LiteralWritten(py, FRACTION_SHIFT.l.lit, t, true);
    LiteralWritten(py, FRACTION_SHIFT.r.l.lit, t, true);
    LiteralWritten(py, FRACTION_SHIFT.r.r.lit, t, true);
    WideLiteral(1);
    WideLiteral(300);
    AmountIs(py);
    NumberIs(py, one, 1);
    FoldedUntouched(py, t, OInt(300), Div, one, Fraction(Finite(300.0)));
    OperationWritten(py, FRACTION_SHIFT.r, t, true);
    ShiftFolded(py, one, amount);
    OperationWritten(py, FRACTION_SHIFT, t, false);
  }

  lemma AmountIs(py: Python)
    ensures Value(py, OBin(Div, OInt(300), OInt(1))) == Some(Fraction(Finite(300.0)))
    ensures Value(py, OParen(OBin(Div, OInt(300), OInt(1)))) == Some(Fraction(Finite(300.0)))
  {
  }

  lemma ShiftFolded(py: Python, l: OExpr, r: OExpr)
    requires Value(py, r) == Some(Fraction(Finite(300.0)))
    ensures Folded(py, Int(256, false), l, Shl, r) == OBin(Shl, l, OFraction(Finite(43.0)))
  {
    hide PyInt.Pow2, InBounds, Value;
    ThreeHundred(py);
    var out := OBin(Shl, l, OFraction(Finite(43.0)));
    assert CheckBinopBounds(py, Int(256, false), l, Shl, r) == (l, Shl, OFraction(Finite(43.0)));
    ShiftByFraction(py, l);
  }

  lemma ShiftByFraction(py: Python, l: OExpr)
    ensures Value(py, OBin(Shl, l, OFraction(Finite(43.0)))).None?
  {
  }

  lemma ThreeHundred(py: Python)
    ensures Remainder(py.floats, Finite(300.0), Finite(257.0)) == Some(Finite(43.0))
  {
    assert (300.0 / 257.0).Floor == 1;
  }

  // ----- an effect that is left out

  /** The address of a contract that is created, to the power of a truth value, both as numbers. */
  const DROPPED := BinOp(Pow, ConvertAddress(CreateProxy(Lit(NO_LITERAL), None, None), NO_LITERAL),
                         ConvertBool(Lit(NO_LITERAL), NO_LITERAL))

  /** Neither can be evaluated, so the creation is not written, though visiting it asks for nonpayable. */
  lemma DroppedCreation(sight: Sight, l: OExpr, out: OExpr)
    requires !sight.constant && Mirrors(DROPPED.l, UINT, sight, l) && Mirrors(DROPPED, UINT, sight, out)
    ensures Effect(l) == NON_PAYABLE && Effect(out) == PURE && Flawed(Dropping, DROPPED)
  {
    hide Folded, Value, LiteralMirrors, AddressText;
    assert IntMirrors(DROPPED, UINT, sight, out);
    var left, right :| Mirrors(DROPPED.l, UINT, sight, left) && Mirrors(DROPPED.r, UINT, sight, right) &&
                       Enclosed(left) && Enclosed(right) && Bare(out) == Folded(sight.py, UINT, left, Pow, right);
    CreationIsUnknown(sight, l);
    CreationIsUnknown(sight, left);
    TruthIsUnknown(sight, right);
    FoldedEffect(sight.py, UINT, left, Pow, right);
    BareEffect(out);
  }

  lemma CreationIsUnknown(sight: Sight, l: OExpr)
    requires !sight.constant && Mirrors(DROPPED.l, UINT, sight, l)
    ensures Effect(l) == NON_PAYABLE && Value(sight.py, l).None?
  {
    hide CheckLiteralBounds;
    assert IntMirrors(DROPPED.l, UINT, sight, l) && LeafMirrors(DROPPED.l, UINT, sight, l);
    var e := DROPPED.l;
    assert ConversionSource(e, UINT) == Some(Address);
    var inner :| Mirrors(e.e, Address, sight, inner) && l == Converted(sight.py, e, Address, UINT, inner);
    assert ProxyMirrors(e.e, sight, inner);
    ConvertedEffect(sight.py, e, Address, UINT, inner);
    EffectIsSmall(inner);
    AppEffect(inner.f, inner.args);
  }

  lemma TruthIsUnknown(sight: Sight, r: OExpr)
    requires Mirrors(DROPPED.r, UINT, sight, r)
    ensures Effect(r) == PURE && Value(sight.py, r).None?
  {
    hide CheckLiteralBounds;
    assert IntMirrors(DROPPED.r, UINT, sight, r) && LeafMirrors(DROPPED.r, UINT, sight, r);
    var e := DROPPED.r;
    assert ConversionSource(e, UINT) == Some(Bool);
    var inner :| Mirrors(e.e, Bool, sight, inner) && r == Converted(sight.py, e, Bool, UINT, inner);
    assert BoolMirrors(e.e, sight, inner) && LeafMirrors(e.e, Bool, sight, inner);
    ConvertedEffect(sight.py, e, Bool, UINT, inner);
  }
}
