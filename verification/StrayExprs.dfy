/** The two exceptions that the rules of Checker make come from known fractions only: from a quotient that is
    evaluated, or a decimal that is converted after a subtraction. A message without those is written without them. */
module StrayExprs {
  import opened Types
  import opened Declarations
  import opened Emitted
  import opened IntBounds
  import opened Literals
  import opened Checker
  import opened Messages
  import opened Mirror
  import opened Sizing
  import opened Flaws
  import opened Quotients
  import opened PyNumber
  import opened PyFloat

  predicate ArgsStray(args: seq<Arg>) {
    exists i :: 0 <= i < |args| && Strays(args[i].e)
  }

  // ----- integer operations

  /** A negative fraction as an exponent at an unsigned type, or a fraction above 256 as the amount of a shift. */
  predicate RightAstray(py: Python, t: VType, op: Op, r: OExpr)
    requires t.Int?
  {
    || (op == Pow && !t.signed && NegativeFraction(py, r))
    || ((op == Shl || op == Shr) && t.n == 256 && KnownNumber(py, r, (n: Num) => n.Fraction? && Above256(n)))
  }

  /** Exactly when a checked operation brings in an exception of its own: by its right operand, or as a negative
      fraction at an unsigned type. */
  predicate Astray(py: Python, t: VType, l: OExpr, op: Op, r: OExpr)
    requires t.Int?
  {
    RightAstray(py, t, op, r) || (!t.signed && NegativeFraction(py, Checked(py, t, l, op, r)))
  }

  /** The operation after its operands were checked. */
  function Checked(py: Python, t: VType, l: OExpr, op: Op, r: OExpr): OExpr
    requires t.Int?
  {
    var (a, o, b) := CheckBinopBounds(py, t, l, op, r);
    OBin(o, a, b)
  }

  /** The right operand is where the first two come in. */
  lemma RightStraysIff(py: Python, t: VType, l: OExpr, op: Op, r: OExpr)
    requires t.Int? && t.n > 0 && !Strays(r) && !r.OBin?
    ensures var b := CheckBinopBounds(py, t, l, op, r).2;
            && (Strays(b) <==> RightAstray(py, t, op, r))
            && (Strays(b) ==> KnownUnwhole(py, b))
  {
    hide Value, Negation, NegativeFraction, Modulo257, WithMinus, Strays, KnownUnwhole, IsZero, Negative, Above256;
    NumberStraysNot(OInt(1));
    if op == Pow {
      ExponentStraysIff(py, t, r);
    } else if Value(py, r).Some? {
      AmountStraysIff(py, r);
    }
  }

  lemma ExponentStraysIff(py: Python, t: VType, r: OExpr)
    requires t.Int? && !Strays(r) && !r.OBin?
    ensures Strays(WithMinus(py, t, r)) <==> !t.signed && NegativeFraction(py, r)
    ensures Strays(WithMinus(py, t, r)) ==> KnownUnwhole(py, WithMinus(py, t, r))
    ensures NegativeFraction(py, r) ==> KnownNumber(py, r, n => Negative(n))
  {
    hide Value, Negation;
    NegationKeepsKind(py, Value(py, r));
    MinusInFront(py, r);
  }

  lemma AmountStraysIff(py: Python, r: OExpr)
    requires Value(py, r).Some?
    ensures var b := Modulo257(py, Value(py, r).value);
            && (Strays(b) <==> KnownFraction(py, r)) && (Strays(b) ==> KnownUnwhole(py, b))
  {
    hide Remainder;
    NumberWritten(py, Modulo257(py, Value(py, r).value));
  }

  lemma MinusInFront(py: Python, e: OExpr)
    requires !e.OBin? && !e.OMinus?
    ensures Value(py, OMinus(e)) == Negation(py, Value(py, e))
  {
    hide Operate, Negation;
    OneNegation(py, Value(py, e));
    assert Value(py, OMinus(e)) == Minused(py, e, 1);
  }

  lemma LeftDoesNotStray(py: Python, t: VType, l: OExpr, op: Op, r: OExpr)
    requires t.Int? && t.n > 0 && !Strays(l)
    ensures !Strays(CheckBinopBounds(py, t, l, op, r).0)
  {
    hide Value;
  }

  /** With an operand that is known and no integer there is no integer result. */
  lemma UnwholeStays(py: Python, op: Op, l: OExpr, r: OExpr)
    requires KnownUnwhole(py, r)
    ensures Eval(OBin(op, l, r)).None?
  {
    hide OnInts;
    ValueIsWhole(py, r);
  }

  lemma CheckedOnce(py: Python, t: VType, e: OExpr)
    requires t.Int? && t.n > 0
    ensures var out := CheckLiteralBounds(py, t, e);
            && (out == e || out == OMinus(e) || (out.OInt? && Eval(e).Some?))
            && (out == OMinus(e) <==> !t.signed && NegativeFraction(py, e))
  {
    hide Eval, Value, Generate;
    ValueIsWhole(py, e);
    MinusDiffers(e);
  }

  lemma OperationStrays(op: Op, l: OExpr, r: OExpr)
    ensures Strays(OBin(op, l, r)) <==> Strays(l) || Strays(r)
    ensures Strays(OMinus(OBin(op, l, r)))
  {
  }

  lemma NumberStraysNot(e: OExpr)
    ensures e.OInt? ==> !Strays(e)
  {
  }

  lemma ResultStrays(py: Python, t: VType, e: OExpr)
    requires t.Int? && t.n > 0 && (Strays(e) ==> Eval(e).None?)
    ensures Strays(CheckLiteralBounds(py, t, e)) <==> Strays(e) || (!t.signed && NegativeFraction(py, e))
  {
    hide Value, Eval, CheckLiteralBounds, NegativeFraction;
    CheckedOnce(py, t, e);
    NumberStraysNot(CheckLiteralBounds(py, t, e));
  }

  /** Exactly then: an operation strays that had operands without exceptions. */
  lemma FoldedStraysIff(py: Python, t: VType, l: OExpr, op: Op, r: OExpr)
    requires t.Int? && t.n > 0 && !Strays(l) && !Strays(r) && !r.OBin?
    ensures Strays(Folded(py, t, l, op, r)) <==> Astray(py, t, l, op, r)
  {
    hide *;
    var (a, o, b) := CheckBinopBounds(py, t, l, op, r);
    LeftDoesNotStray(py, t, l, op, r);
    RightStraysIff(py, t, l, op, r);
    OperationStrays(o, a, b);
    if Strays(b) { UnwholeStays(py, o, a, b); }
    ResultStrays(py, t, OBin(o, a, b));
    FoldedIsChecked(py, t, l, op, r);
  }

  lemma FoldedIsChecked(py: Python, t: VType, l: OExpr, op: Op, r: OExpr)
    requires t.Int? && t.n > 0
    ensures var (a, o, b) := CheckBinopBounds(py, t, l, op, r);
            && Folded(py, t, l, op, r) == CheckLiteralBounds(py, t, OBin(o, a, b))
            && (Astray(py, t, l, op, r) <==>
                RightAstray(py, t, op, r) || (!t.signed && NegativeFraction(py, OBin(o, a, b))))
  {
    hide CheckBinopBounds, CheckLiteralBounds, NegativeFraction, RightAstray;
  }

  lemma ChecksStrayFrom(py: Python, t: VType, l: OExpr, op: Op, r: OExpr)
    requires t.Int? && t.n > 0
    ensures var (a, _, b) := CheckBinopBounds(py, t, l, op, r);
            (Strays(a) ==> Strays(l)) && (Strays(b) ==> Strays(r) || KnownUnwhole(py, r))
  {
    hide Value, Minused, Remainder, IsZero;
  }

  lemma FoldedStraysFrom(py: Python, t: VType, l: OExpr, op: Op, r: OExpr)
    requires t.Int? && t.n > 0 && !r.OBin? && !r.OMinus?
    ensures Strays(Folded(py, t, l, op, r)) ==>
              Strays(l) || Strays(r) || op == Div || KnownUnwhole(py, l) || KnownUnwhole(py, r)
  {
    hide *;
    var (a, o, b) := CheckBinopBounds(py, t, l, op, r);
    ChecksStrayFrom(py, t, l, op, r);
    FoldedIsChecked(py, t, l, op, r);
    OperationStrays(o, a, b);
    CheckedOnce(py, t, OBin(o, a, b));
    NumberStraysNot(Folded(py, t, l, op, r));
    CheckedShape(py, t, l, op, r);
  }

  lemma CheckedShape(py: Python, t: VType, l: OExpr, op: Op, r: OExpr)
    requires t.Int? && t.n > 0 && !r.OBin? && !r.OMinus?
    ensures var (a, o, b) := CheckBinopBounds(py, t, l, op, r);
            NegativeFraction(py, OBin(o, a, b)) ==> op == Div || KnownUnwhole(py, l) || KnownUnwhole(py, r)
  {
    hide Value, CheckBinopBounds, OperandOk;
    var (a, o, b) := CheckBinopBounds(py, t, l, op, r);
    BinopChecked(py, t, l, op, r);
    LeftShape(py, t, l, op, r);
    RightShape(py, t, l, op, r);
    CheckedExponent(t, o, b);
    BinShape(py, o, a, b);
  }

  // ----- decimals

  /** What is known of a decimal: it is no integer, and not negative unless something is subtracted. */
  predicate DecimalKnown(py: Python, e: Expr, out: OExpr) {
    && (Value(py, out).Some? ==> !Value(py, out).value.Whole?)
    && (!Subtracts(e) ==> !BareMinus(out) && (Value(py, out).Some? ==> !Negative(Value(py, out).value)))
  }

  lemma {:induction false} DecimalShape(e: Expr, sight: Sight, out: OExpr)
    requires DecimalMirrors(e, sight, out)
    ensures DecimalKnown(sight.py, e, out)
  {
    hide LeafMirrors, Value, BareMinus;
    var py, bare := sight.py, Bare(out);
    SameInParens(py, out);
    if e.BinOp? && Arithmetic(e.op) {
      DecimalShape(e.l, sight, bare.l);
      DecimalShape(e.r, sight, bare.r);
      DecimalOperation(py, e, bare);
      InParensKnown(py, e, out);
    } else if e.UnOp? {
      DecimalShape(e.e, sight, bare.e);
      NegatedDecimal(py, e, bare);
      InParensKnown(py, e, out);
    } else {
      DecimalLeaf(py, e, sight, out);
    }
  }

  lemma InParensKnown(py: Python, e: Expr, out: OExpr)
    requires DecimalKnown(py, e, Bare(out))
    ensures DecimalKnown(py, e, out)
  {
    SameInParens(py, out);
  }

  lemma NegatedDecimal(py: Python, e: Expr, out: OExpr)
    requires e.UnOp? && out.ONeg? && DecimalKnown(py, e.e, out.e)
    ensures DecimalKnown(py, e, out)
  {
    NegationKeepsKind(py, Value(py, out.e));
  }

  lemma DecimalOperation(py: Python, e: Expr, out: OExpr)
    requires e.BinOp? && out.OBin? && out.op == e.op && DecimalKnown(py, e.l, out.l) && DecimalKnown(py, e.r, out.r)
    ensures DecimalKnown(py, e, out)
  {
    hide Operate;
    var a, b := Value(py, out.l), Value(py, out.r);
    if a.Some? && b.Some? {
      WholeIff(py, out.op, a.value, b.value);
      WholeIff(py, out.op, Negated(py, a.value), b.value);
      if a.value.Complex? || b.value.Complex? { ComplexIsNotNegative(py, out.op, a.value, b.value); }
      if !Subtracts(e) && a.value.Fraction? && b.value.Fraction? { StaysNonNegative(py, out.op, a.value, b.value); }
    }
  }

  lemma ComplexIsNotNegative(py: Python, op: Op, a: Num, b: Num)
    requires a.Complex? || b.Complex?
    ensures Operate(py, op, a, b).Some? ==> !Negative(Operate(py, op, a, b).value)
  {
  }

  lemma DecimalLeaf(py: Python, e: Expr, sight: Sight, out: OExpr)
    requires LeafMirrors(e, Decimal, sight, out)
    ensures DecimalKnown(py, e, out)
  {
    hide Mirrors, ConversionSource, CheckLiteralBounds, DecimalText, DecimalValue;
  }

  // ----- expressions: what strays has a flaw in its message

  lemma {:induction false} StrayHasFlaw(e: Expr, t: VType, sight: Sight, out: OExpr)
    requires Mirrors(e, t, sight, out)
    ensures Strays(out) ==> Has(Straying, e)
    decreases e, 3
  {
    hide Has, Strays, IntMirrors, BoolMirrors, DecimalMirrors, AddressMirrors, HashMirrors, RawCallMirrors,
         ConcatMirrors, ListMirrors, LeafMirrors;
    match t {
      case Int(_, _) => IntStrays(e, t, sight, out);
      case Bool => BoolStrays(e, sight, out);
      case Decimal => DecimalStrays(e, sight, out);
      case Address => AddressStrays(e, sight, out);
      case BytesM(_) => BytesMStrays(e, t, sight, out);
      case Bytes(m) =>
        if e.RawCallExpr? && !sight.constant && m > 0 {
          RawCallStrays(e, m, sight, out);
        } else if e.ConcatOf? {
          ConcatStrays(e, t, sight, out);
        } else {
          LeafStrays(e, t, sight, out);
        }
      case Str(_) => if e.ConcatOf? { ConcatStrays(e, t, sight, out); } else { LeafStrays(e, t, sight, out); }
      case FixedList(_, _) => ListStrays(e, t, sight, out);
      case DynArray(_, _) => ListStrays(e, t, sight, out);
      case NoType =>
    }
  }

  lemma {:induction false} LeafStrays(e: Expr, t: VType, sight: Sight, out: OExpr)
    requires LeafMirrors(e, t, sight, out)
    ensures Strays(out) ==> Has(Straying, e)
    decreases e, 1
  {
    hide Mirrors, CheckLiteralBounds, NegativeFraction, Has, Flawed, NameOk, Strays;
    if !e.VarRef? && ConversionSource(e, t).Some? {
      var from := ConversionSource(e, t).value;
      var inner :| Mirrors(e.e, from, sight, inner) && out == Converted(sight.py, e, from, t, inner);
      StrayHasFlaw(e.e, from, sight, inner);
      ConvertedHas(e, t);
      var known := out.args[0].e;
      CallStrays(out);
      NumberStraysNot(known);
      assert ArgsStray(out.args) <==> Strays(known);
      if t.Int? && t.n > 0 && (e.ConvertInt? || e.ConvertDecimal?) {
        CheckedOnce(sight.py, t, inner);
        SourceNegative(e, t, sight, inner);
      }
    } else {
      PlainLeaf(e, t, sight, out);
    }
  }

  lemma PlainLeaf(e: Expr, t: VType, sight: Sight, out: OExpr)
    requires LeafMirrors(e, t, sight, out) && (e.VarRef? || ConversionSource(e, t).None?)
    ensures !Strays(out)
  {
    hide NameOk, ConversionSource;
  }

  lemma ConvertedHas(e: Expr, t: VType)
    requires ConversionSource(e, t).Some?
    ensures Has(Straying, e.e) || Flawed(Straying, e) ==> Has(Straying, e)
  {
    hide Flawed;
  }

  /** A number that is converted and known to be a negative fraction comes from a quotient or a subtraction. */
  lemma SourceNegative(e: Expr, t: VType, sight: Sight, inner: OExpr)
    requires (e.ConvertInt? || e.ConvertDecimal?) && t.Int? && ConversionSource(e, t).Some?
    requires Mirrors(e.e, ConversionSource(e, t).value, sight, inner)
    ensures NegativeFraction(sight.py, inner) ==> Flawed(Straying, e)
  {
    hide Value, IntMirrors, DecimalMirrors, Quotient, Subtracts, PowerOfQuotient;
    if e.ConvertInt? {
      KnownShape(e.e, ConversionSource(e, t).value, sight, inner);
    } else {
      DecimalShape(e.e, sight, inner);
    }
  }

  lemma BareStrays(out: OExpr)
    ensures Strays(out) <==> Strays(Bare(out))
  {
  }

  lemma {:induction false} IntStrays(e: Expr, t: VType, sight: Sight, out: OExpr)
    requires IntMirrors(e, t, sight, out)
    ensures Strays(out) ==> Has(Straying, e)
    decreases e, 2
  {
    hide Mirrors, LeafMirrors, Folded, CheckLiteralBounds, Strays, KnownUnwhole, Value;
    BareStrays(out);
    if e.BinOp? && Arithmetic(e.op) {
      var l, r :| Mirrors(e.l, t, sight, l) && Mirrors(e.r, t, sight, r) && Enclosed(l) && Enclosed(r) &&
                  Bare(out) == Folded(sight.py, t, l, e.op, r);
      StrayHasFlaw(e.l, t, sight, l);
      StrayHasFlaw(e.r, t, sight, r);
      FoldedStraysFrom(sight.py, t, l, e.op, r);
      OperandKnown(e.l, t, sight, l);
      OperandKnown(e.r, t, sight, r);
    } else if e.UnOp? {
      var x :| Mirrors(e.e, t, sight, x) && Enclosed(x) &&
               (if t.signed then Bare(out) == CheckLiteralBounds(sight.py, t, ONeg(x)) else out == x);
      StrayHasFlaw(e.e, t, sight, x);
      CheckedOnce(sight.py, t, ONeg(x));
      NegatedStrays(x);
      NumberStraysNot(Bare(out));
    } else {
      LeafStrays(e, t, sight, out);
    }
  }

  lemma OperandKnown(e: Expr, t: VType, sight: Sight, out: OExpr)
    requires t.Int? && Mirrors(e, t, sight, out)
    ensures KnownUnwhole(sight.py, out) ==> Quotient(e)
  {
    hide IntMirrors, KnownUnwhole, Quotient, PowerOfQuotient;
    KnownShape(e, t, sight, out);
  }

  lemma NegatedStrays(x: OExpr)
    ensures Strays(ONeg(x)) <==> Strays(x)
    ensures Strays(ONot(x)) <==> Strays(x)
  {
  }

  lemma BinStrays(out: OExpr)
    requires Bare(out).OBin?
    ensures Strays(out) <==> Strays(Bare(out).l) || Strays(Bare(out).r)
  {
  }

  lemma {:induction false} BoolStrays(e: Expr, sight: Sight, out: OExpr)
    requires BoolMirrors(e, sight, out)
    ensures Strays(out) ==> Has(Straying, e)
    decreases e, 2
  {
    hide Mirrors, LeafMirrors, RawCallMirrors, Strays, Flawed;
    var bare := Bare(out);
    BareStrays(out);
    if e.BoolBinOp? && Logical(e.op) {
      StrayHasFlaw(e.l, Bool, sight, bare.l);
      StrayHasFlaw(e.r, Bool, sight, bare.r);
      BinStrays(out);
    } else if e.BoolUnOp? {
      StrayHasFlaw(e.e, Bool, sight, bare.e);
      NegatedStrays(bare.e);
    } else if (e.IntBoolBinOp? || e.DecBoolBinOp?) && Comparison(e.op) {
      var t := if e.IntBoolBinOp? then UINT else Decimal;
      StrayHasFlaw(e.l, t, sight, bare.l);
      StrayHasFlaw(e.r, t, sight, bare.r);
      BinStrays(out);
    } else if e.RawCallExpr? && !sight.constant {
      RawCallStrays(e, 0, sight, out);
    } else {
      LeafStrays(e, Bool, sight, out);
    }
  }

  lemma {:induction false} DecimalStrays(e: Expr, sight: Sight, out: OExpr)
    requires DecimalMirrors(e, sight, out)
    ensures Strays(out) ==> Has(Straying, e)
    decreases e, 2
  {
    hide Mirrors, LeafMirrors, Strays, Flawed;
    var bare := Bare(out);
    BareStrays(out);
    if e.BinOp? && Arithmetic(e.op) {
      StrayHasFlaw(e.l, Decimal, sight, bare.l);
      StrayHasFlaw(e.r, Decimal, sight, bare.r);
      BinStrays(out);
    } else if e.UnOp? {
      StrayHasFlaw(e.e, Decimal, sight, bare.e);
      NegatedStrays(bare.e);
    } else {
      LeafStrays(e, Decimal, sight, out);
    }
  }

  // ----- calls

  lemma CallStrays(out: OExpr)
    requires out.OApp?
    ensures Strays(out) <==> ArgsStray(out.args)
  {
  }

  lemma {:induction false} ArgStrays(e: Expr, t: VType, sight: Sight, args: seq<Arg>, i: nat)
    requires ArgMirrors(e, t, sight, args, i)
    ensures Strays(args[i].e) ==> Has(Straying, e)
    decreases e, 4
  {
    hide Mirrors, Strays, Has;
    StrayHasFlaw(e, t, sight, args[i].e);
  }

  lemma {:induction false} OptionStrays(e: Option<Expr>, t: VType, sight: Sight, args: seq<Arg>, i: nat)
    requires OptionMirrors(e, t, sight, args, i)
    ensures e.Some? ==> i < |args| && (Strays(args[i].e) ==> HasOption(Straying, e))
    decreases e
  {
    hide Mirrors, Strays, Has;
    if e.Some? { ArgStrays(e.value, t, sight, args, i); }
  }

  lemma {:induction false} BytesMStrays(e: Expr, t: VType, sight: Sight, out: OExpr)
    requires t.BytesM? && Mirrors(e, t, sight, out)
    ensures Strays(out) ==> Has(Straying, e)
    decreases e, 2
  {
    hide ArgMirrors, LeafMirrors, Strays, Flawed;
    if e.HashOf? {
      var hash := if t.m == 32 then out else out.args[0].e;
      ArgStrays(e.arg.e, HashedType(e.arg), sight, hash.args, 0);
      CallStrays(hash);
      if t.m != 32 { CallStrays(out); }
    } else {
      LeafStrays(e, t, sight, out);
    }
  }

  lemma {:induction false} RawArgsStray(rc: RawCallMessage, sight: Sight, later: Sight, args: seq<Arg>)
    requires RawCallArgs(rc, sight, later, args)
    ensures ArgsStray(args) ==> HasRaw(Straying, rc)
    decreases rc, 0
  {
    hide ArgMirrors, OptionMirrors, Strays, Has, HasOption;
    ArgStrays(rc.to, Address, sight, args, 0);
    ArgStrays(rc.data, Bytes(100), sight, args, 1);
    OptionStrays(rc.gas, UINT, later, args, 2);
    OptionStrays(rc.value, UINT, later, args, 2 + Given(rc.gas));
  }

  lemma {:induction false} RawCallStrays(e: Expr, size: nat, sight: Sight, out: OExpr)
    requires e.RawCallExpr? && RawCallMirrors(e.rc, size, sight, out)
    ensures Strays(out) ==> Has(Straying, e)
    decreases e, 1
  {
    hide RawCallArgs, Strays, HasRaw, Flawed;
    RawArgsStray(e.rc, sight, sight, out.args);
    CallStrays(out);
  }

  lemma {:induction false} AddressStrays(e: Expr, sight: Sight, out: OExpr)
    requires AddressMirrors(e, sight, out)
    ensures Strays(out) ==> Has(Straying, e)
    decreases e, 2
  {
    hide LeafMirrors, ProxyMirrors, BlueprintMirrors, EcRecMirrors, Strays, Has;
    if e.CreateProxy? && !sight.constant {
      ProxyStrays(e, sight, out);
    } else if e.CreateFromBlueprint? && !sight.constant {
      BlueprintStrays(e, sight, out);
    } else if e.EcRec? {
      EcRecStrays(e, sight, out);
    } else {
      LeafStrays(e, Address, sight, out);
    }
  }

  lemma {:induction false} ProxyStrays(e: Expr, sight: Sight, out: OExpr)
    requires e.CreateProxy? && ProxyMirrors(e, sight, out)
    ensures Strays(out) ==> Has(Straying, e)
    decreases e, 1
  {
    hide ArgMirrors, OptionMirrors, Strays, HasOption, Flawed;
    CallStrays(out);
    ArgStrays(e.target, Address, sight, out.args, 0);
    OptionStrays(e.value, UINT, sight, out.args, 1);
    OptionStrays(e.salt, BytesM(32), sight, out.args, 1 + Given(e.value));
  }

  lemma {:induction false} BlueprintStrays(e: Expr, sight: Sight, out: OExpr)
    requires e.CreateFromBlueprint? && BlueprintMirrors(e, sight, out)
    ensures Strays(out) ==> Has(Straying, e)
    decreases e, 1
  {
    hide ArgMirrors, OptionMirrors, Strays, HasOption, Flawed;
    var raw := RawCount(e);
    CallStrays(out);
    ArgStrays(e.target, Address, sight, out.args, 0);
    if raw == 1 { ArgStrays(e.rawArgs.value.arg, Bytes(100), sight, out.args, 1); }
    OptionStrays(e.value, UINT, sight, out.args, 1 + raw);
    OptionStrays(e.codeOffset, UINT, sight, out.args, 1 + raw + Given(e.value));
    OptionStrays(e.salt, BytesM(32), sight, out.args, 1 + raw + Given(e.value) + Given(e.codeOffset));
  }

  lemma {:induction false} EitherStrays(whole: Expr, given: Option<Expr>, t: VType, e: Expr, sight: Sight,
                                        args: seq<Arg>, i: nat)
    requires e < whole && (given.Some? ==> given.value < whole)
    requires if given.Some? then ArgMirrors(given.value, t, sight, args, i) else ArgMirrors(e, UINT, sight, args, i)
    ensures Strays(args[i].e) ==> HasOption(Straying, given) || Has(Straying, e)
    decreases whole, 0
  {
    hide Mirrors, Strays, Has;
    if given.Some? { ArgStrays(given.value, t, sight, args, i); } else { ArgStrays(e, UINT, sight, args, i); }
  }

  lemma {:induction false} EcRecStrays(e: Expr, sight: Sight, out: OExpr)
    requires e.EcRec? && EcRecMirrors(e, sight, out)
    ensures Strays(out) ==> Has(Straying, e)
    decreases e, 1
  {
    hide ArgMirrors, Strays, HasOption, Flawed;
    CallStrays(out);
    ArgStrays(e.hash, BytesM(32), sight, out.args, 0);
    EitherStrays(e, e.v8, Int(8, false), e.vi, sight, out.args, 1);
    EitherStrays(e, e.rb, BytesM(32), e.ri, sight, out.args, 2);
    EitherStrays(e, e.sb, BytesM(32), e.si, sight, out.args, 3);
  }

  // ----- concatenations and lists

  lemma {:induction false} PartStrays(part: Part, t: VType, size: nat, sight: Sight, a: Arg)
    requires PartMirrors(part, t, size, sight, a)
    ensures Strays(a.e) ==> HasPart(Straying, part)
    decreases part
  {
    hide Mirrors, Strays, Has;
    if t.Bytes? && part.bm.Some? && size != 0 {
      StrayHasFlaw(part.bm.value, a.at, sight, a.e);
    } else {
      StrayHasFlaw(part.e, a.at, sight, a.e);
    }
  }

  predicate PartsHave(parts: seq<Part>) {
    exists i :: 0 <= i < |parts| && HasPart(Straying, parts[i])
  }

  lemma {:induction false} PartsStray(parts: seq<Part>, t: VType, sight: Sight, args: seq<Arg>)
    requires MoreParts(parts, t, sight, args) && |args| >= 2
    ensures ArgsStray(args) ==> Strays(args[0].e) || Strays(args[1].e) || PartsHave(parts)
    decreases parts
  {
    hide Strays, PartMirrors, HasPart, TotalSize;
    if parts != [] {
      var front, last := parts[..|parts| - 1], parts[|parts| - 1];
      if MoreParts(front, t, sight, args) {
        PartsStray(front, t, sight, args);
      } else {
        PartsStray(front, t, sight, args[..|args| - 1]);
        PartStrays(last, t, last.size, sight, args[|args| - 1]);
        if ArgsStray(args) && !Strays(args[|args| - 1].e) {
          var i :| 0 <= i < |args| && Strays(args[i].e);
          assert args[..|args| - 1][i] == args[i];
        }
      }
      if PartsHave(front) {
        var i :| 0 <= i < |front| && HasPart(Straying, front[i]);
        assert parts[i] == front[i];
      }
    }
  }

  lemma {:induction false} ConcatStrays(e: Expr, t: VType, sight: Sight, out: OExpr)
    requires e.ConcatOf? && HasCapacity(t) && ConcatMirrors(e, t, sight, out)
    ensures Strays(out) ==> Has(Straying, e)
    decreases e, 0
  {
    hide PartMirrors, MoreParts, ScaledSizes, Strays, HasPart, Flawed;
    var (a, b) := ScaledSizes(e.a.size, e.b.size, t.m);
    CallStrays(out);
    PartStrays(e.a, t, a, sight, out.args[0]);
    PartStrays(e.b, t, b, sight, out.args[1]);
    PartsStray(e.c, t, sight, out.args);
  }

  lemma {:induction false} LiteralListStraysNot(out: OExpr)
    requires Mirror.Literally(out)
    ensures !Strays(out)
  {
    if out.OApp? {
      forall i | 0 <= i < |out.args| ensures !Strays(out.args[i].e) {
        LiteralListStraysNot(out.args[i].e);
      }
    }
  }

  predicate ItemsHave(es: seq<Expr>) {
    exists i :: 0 <= i < |es| && Has(Straying, es[i])
  }

  lemma {:induction false} ItemsStray(e: Expr, t: VType, sight: Sight, args: seq<Arg>)
    requires e.ListOf? && IsList(t) && ItemsMirror(e, t, sight, args)
    ensures ArgsStray(args) ==> Has(Straying, e.rexp) || ItemsHave(e.exps)
    decreases e, 0
  {
    hide ArgMirrors, Strays, Has, Mirror.Literally;
    if ArgsStray(args) {
      var i :| 0 <= i < |args| && Strays(args[i].e);
      if i >= Taken(|e.exps|, t.size) {
        LiteralListStraysNot(args[i].e);
      } else if i == 0 {
        ArgStrays(e.rexp, t.base, sight, args, 0);
      } else {
        ArgStrays(e.exps[i - 1], t.base, sight, args, i);
      }
    }
  }

  lemma ListHas(e: Expr)
    requires e.ListOf?
    ensures HasOther(Straying, e.other) || Has(Straying, e.rexp) || ItemsHave(e.exps) ==> Has(Straying, e)
  {
    hide HasOther, Flawed;
  }

  lemma {:induction false} ListStrays(e: Expr, t: VType, sight: Sight, out: OExpr)
    requires IsList(t) && ListMirrors(e, t, sight, out)
    ensures Strays(out) ==> Has(Straying, e)
    decreases e, 2
  {
    hide NameOk, ArgMirrors, ItemsMirror, Strays, Flawed, Mirror.Literally;
    if out.OApp? { CallStrays(out); } else { NameStraysNot(out); }
    if e.ListOf? { ListHas(e); }
    if e.ListOf? && e.other.ListVar? && out.ORef? {
    } else if e.ListOf? && e.other.EcAddOf? && PointType(t) {
      ArgStrays(e.other.x, POINT, sight, out.args, 0);
      ArgStrays(e.other.y, POINT, sight, out.args, 1);
    } else if e.ListOf? && e.other.EcMulOf? && PointType(t) {
      ArgStrays(e.other.point, POINT, sight, out.args, 0);
      ArgStrays(e.other.scalar, UINT, sight, out.args, 1);
    } else if e.ListOf? {
      ItemsStray(e, t, sight, out.args);
    } else {
      LiteralListStraysNot(out);
    }
  }

  lemma NameStraysNot(out: OExpr)
    ensures out.ORef? ==> !Strays(out)
  {
  }
}
