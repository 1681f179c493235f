/** Where known numbers that are no integers come from: quotients, and for complex numbers quotients in exponents. */
module Quotients {
  import opened Types
  import opened Declarations
  import opened Emitted
  import opened IntBounds
  import opened Checker
  import opened Messages
  import opened Mirror
  import opened Flaws
  import opened PyNumber

  predicate KnownUnwhole(py: Python, e: OExpr) {
    KnownNumber(py, e, (n: Num) => !n.Whole?)
  }

  predicate KnownComplex(py: Python, e: OExpr) {
    KnownNumber(py, e, (n: Num) => n.Complex?)
  }

  lemma OperationShape(py: Python, op: Op, a: Num, b: Num)
    requires op == Pow && b.Whole? ==> b.v >= 0
    ensures var r := Operate(py, op, a, b);
            && (r.Some? && !r.value.Whole? ==> op == Div || !a.Whole? || !b.Whole?)
            && (r.Some? && r.value.Complex? ==> a.Complex? || b.Complex? || (op == Pow && b.Fraction?))
  {
    hide Operate;
    if a.Whole? && b.Whole? && op != Div { FractionFrom(py, op, a, b); }
    if !a.Complex? && !b.Complex? && !(op == Pow && b.Fraction?) { ComplexFrom(py, op, a, b); }
  }

  /** What the value of an operation tells of its operands. */
  predicate Explained(py: Python, e: OExpr, op: Op, l: OExpr, r: OExpr) {
    && (KnownUnwhole(py, e) ==> op == Div || KnownUnwhole(py, l) || KnownUnwhole(py, r))
    && (KnownComplex(py, e) ==> KnownComplex(py, l) || KnownComplex(py, r) || (op == Pow && KnownUnwhole(py, r)))
  }

  lemma BinShape(py: Python, op: Op, l: OExpr, r: OExpr)
    requires op == Pow ==> !Known(r, v => v < 0)
    ensures Explained(py, OBin(op, l, r), op, l, r) && Explained(py, OMinus(OBin(op, l, r)), op, l, r)
  {
    hide Operate;
    ValueIsWhole(py, r);
    var e := OBin(op, l, r);
    var a, b := Value(py, l), Value(py, r);
    if a.Some? && b.Some? {
      OperationShape(py, op, a.value, b.value);
      OperationShape(py, op, Negated(py, a.value), b.value);
    }
    OneNegation(py, a);
    OneNegation(py, Value(py, e));
    assert Value(py, OMinus(e)) == Minused(py, e, 1);
    if op == Pow {
      assert Minused(py, e, 1) == Negation(py, Value(py, e));
      NegationKeepsKind(py, Value(py, e));
    }
  }

  lemma NegationKeepsKind(py: Python, n: Option<Num>)
    ensures Negation(py, n).Some? <==> n.Some?
    ensures n.Some? ==> (Negation(py, n).value.Whole? <==> n.value.Whole?)
    ensures n.Some? ==> (Negation(py, n).value.Complex? <==> n.value.Complex?)
  {
  }

  lemma OneNegation(py: Python, n: Option<Num>)
    ensures NegationTimes(py, n, 1) == Negation(py, n)
  {
    assert NegationTimes(py, Negation(py, n), 0) == Negation(py, n);
  }

  /** The right operand after the check is known and no integer only if it was so before. */
  lemma RightShape(py: Python, t: VType, left: OExpr, op: Op, right: OExpr)
    requires t.Int? && t.n > 0 && !right.OBin? && !right.OMinus?
    ensures var r := CheckBinopBounds(py, t, left, op, right).2;
            (KnownUnwhole(py, r) ==> KnownUnwhole(py, right)) && (KnownComplex(py, r) ==> KnownComplex(py, right))
  {
    hide Operate, OnInts;
    var v := Value(py, right);
    OneNegation(py, v);
    NegationKeepsKind(py, v);
    assert Value(py, ONeg(right)) == Negation(py, v) && Value(py, OMinus(right)) == Minused(py, right, 1);
    assert Value(py, OMinus(right)) == Negation(py, v);
    if v.Some? { NumberWritten(py, Modulo257(py, v.value)); }
    NumberWritten(py, OInt(1));
  }

  lemma NumberWritten(py: Python, e: OExpr)
    ensures e.OInt? ==> Value(py, e) == Some(Whole(e.v))
    ensures e.OFraction? ==> Value(py, e) == Some(Fraction(e.value))
  {
  }

  lemma LeftShape(py: Python, t: VType, left: OExpr, op: Op, right: OExpr)
    requires t.Int? && t.n > 0
    ensures var (l, o, _) := CheckBinopBounds(py, t, left, op, right);
            && (KnownUnwhole(py, l) ==> KnownUnwhole(py, left)) && (KnownComplex(py, l) ==> KnownComplex(py, left))
            && (o == op || (o == Add && (op == Shl || op == Shr)))
  {
    hide Operate;
    assert Value(py, OInt(1)) == Some(Whole(1));
  }

  lemma FoldedShape(py: Python, t: VType, l: OExpr, op: Op, r: OExpr)
    requires t.Int? && t.n > 0 && !r.OBin? && !r.OMinus?
    ensures Explained(py, Folded(py, t, l, op, r), op, l, r)
  {
    hide Value, CheckBinopBounds, OperandOk;
    var (a, o, b) := CheckBinopBounds(py, t, l, op, r);
    BinopChecked(py, t, l, op, r);
    LeftShape(py, t, l, op, r);
    RightShape(py, t, l, op, r);
    CheckedExponent(t, o, b);
    BinShape(py, o, a, b);
    FoldedIs(py, t, OBin(o, a, b));
  }

  lemma CheckedExponent(t: VType, op: Op, r: OExpr)
    requires OperandOk(t, op, r)
    ensures op == Pow ==> !Known(r, v => v < 0)
  {
  }

  lemma FoldedIs(py: Python, t: VType, e: OExpr)
    requires t.Int? && t.n > 0
    ensures var out := CheckLiteralBounds(py, t, e);
            out == e || out == OMinus(e) || (!KnownUnwhole(py, out) && !KnownComplex(py, out))
  {
    hide Operate;
  }

  lemma SameInParens(py: Python, e: OExpr)
    ensures Value(py, Bare(e)) == Value(py, e)
  {
  }

  lemma NegationShape(py: Python, t: VType, x: OExpr)
    requires t.Int? && t.n > 0 && t.signed
    ensures var out := CheckLiteralBounds(py, t, ONeg(x));
            (KnownUnwhole(py, out) ==> KnownUnwhole(py, x)) && (KnownComplex(py, out) ==> KnownComplex(py, x))
  {
    hide Operate;
  }

  lemma LeafShape(py: Python, e: Expr, t: VType, sight: Sight, out: OExpr)
    requires t.Int? && LeafMirrors(e, t, sight, out)
    ensures !KnownUnwhole(py, out) && !out.OBin? && !out.OMinus?
  {
    hide Mirrors, ConversionSource, CheckLiteralBounds;
  }

  /** Known values that are no integers come from quotients in the message, complex ones from quotients in
      exponents. */
  lemma {:induction false} KnownShape(e: Expr, t: VType, sight: Sight, out: OExpr)
    requires IntMirrors(e, t, sight, out)
    ensures KnownUnwhole(sight.py, out) ==> Quotient(e)
    ensures KnownComplex(sight.py, out) ==> PowerOfQuotient(e)
  {
    hide Value, Folded, CheckLiteralBounds, LeafMirrors, OperandOk;
    var py := sight.py;
    SameInParens(py, out);
    if e.BinOp? && Arithmetic(e.op) {
      var l, r :| Mirrors(e.l, t, sight, l) && Mirrors(e.r, t, sight, r) && Enclosed(l) && Enclosed(r) &&
                  Bare(out) == Folded(py, t, l, e.op, r);
      KnownShape(e.l, t, sight, l);
      KnownShape(e.r, t, sight, r);
      FoldedShape(py, t, l, e.op, r);
    } else if e.UnOp? {
      var x :| Mirrors(e.e, t, sight, x) && Enclosed(x) &&
               (if t.signed then Bare(out) == CheckLiteralBounds(py, t, ONeg(x)) else out == x);
      KnownShape(e.e, t, sight, x);
      if t.signed { NegationShape(py, t, x); }
    } else {
      LeafShape(py, e, t, sight, out);
    }
  }

  /** An operand that cannot be compared comes from a power of a quotient. */
  lemma UncomparableOperand(e: Expr, t: VType, sight: Sight, right: OExpr)
    requires t.Int? && e.BinOp? && Mirrors(e.r, t, sight, right)
    ensures Uncomparable(sight.py, t, e.op, right) ==> Flawed(Raising, e)
  {
    hide IntMirrors, PowerOfQuotient, Quotient;
    KnownShape(e.r, t, sight, right);
  }

  /** A literal is written as it is. */
  lemma LiteralIsWritten(e: Expr, t: VType, sight: Sight, out: OExpr)
    requires t.Int? && t.n > 0 && Mirrors(e, t, sight, out)
    ensures e.Lit? ==> out == Written(sight.py, e, t, false) == Written(sight.py, e, t, true)
  {
    hide Generate;
    if e.Lit? {
      assert IntMirrors(e, t, sight, out) && LeafMirrors(e, t, sight, out);
      assert LiteralMirrors(e.lit, t, out);
    }
  }
}
