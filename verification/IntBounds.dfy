/** Constant folding of integer expressions: literals, evaluation of what is written, and the two checks
    that keep every evaluable integer expression inside its type. */
module IntBounds {
  import opened Types
  import opened Declarations
  import opened Emitted
  import opened Literals
  import opened PyInt
  import opened PyFloat
  import opened PyNumber

  function Low(n: nat, signed: bool): int
    requires n > 0
  {
    if signed then 0 - Pow2(n - 1) else 0
  }

  function Up(n: nat, signed: bool): int
    requires n > 0
  {
    if signed then Pow2(n - 1) - 1 else Pow2(n) - 1
  }

  predicate InBounds(t: VType, v: int) {
    t.Int? && t.n > 0 && Low(t.n, t.signed) <= v <= Up(t.n, t.signed)
  }

  /** The integer literal generator: it wraps into the range and shifts by the lower bound. */
  function Generate(n: nat, signed: bool, value: int): (r: int)
    requires n > 0
    ensures Low(n, signed) <= r <= Up(n, signed)
  {
    PyInt.Mod(value, Up(n, signed) - Low(n, signed) + 1) + Low(n, signed)
  }

  lemma RangeSize(n: nat, signed: bool)
    requires n > 0
    ensures Up(n, signed) - Low(n, signed) + 1 == Pow2(n)
  {
  }

  /** What a generated literal keeps of the value: for unsigned types the residue mod 2^n, for signed types
      the residue of value + 2^(n-1). */
  lemma GenerateCongruent(n: nat, signed: bool, value: int)
    requires n > 0
    ensures Congruent(Generate(n, signed, value), if signed then value + Pow2(n - 1) else value, Pow2(n))
  {
    RangeSize(n, signed);
    var m, h := Pow2(n), Pow2(n - 1);
    ModCongruent(value, m);
    if signed {
      var d := value % m - value;
      assert Generate(n, signed, value) - (value + h) == d - m;
      AddModulus(d - m, m);
    }
  }

  // ----- evaluation

  /** A minus sign that binds weaker than **: it is not enclosed in parentheses. */
  predicate BareMinus(e: OExpr) {
    e.ONeg? || e.OMinus? || (e.OInt? && e.v < 0)
  }

  /** The integer that a Python reader of the written expression computes, if any: a variable, a conversion or
      another call is not evaluable, an operation that raises has no value, and a quotient is no integer. */
  function Eval(e: OExpr): Option<int>
    decreases e, 0
  {
    match e
    case OInt(v) => Some(v)
    case OParen(x) => Eval(x)
    case ONeg(x) => Opposite(Eval(x))
    case OMinus(x) => EvalMinused(x, 1)
    case OBin(op, l, r) =>
      var a, b := Eval(l), Eval(r);
      if a.None? || b.None? then None
      else if op == Pow && BareMinus(l) then Opposite(OnInts(op, -a.value, b.value))
      else OnInts(op, a.value, b.value)
    case _ => None
  }

  function Opposite(v: Option<int>): Option<int> {
    if v.Some? then Some(-v.value) else None
  }

  function OppositeTimes(v: Option<int>, signs: nat): Option<int>
    decreases signs
  {
    if signs == 0 then v else OppositeTimes(Opposite(v), signs - 1)
  }

  /** The integer of the text of e with minus signs in front: they bind to the leftmost operand, but weaker than
      a power. */
  function EvalMinused(e: OExpr, signs: nat): Option<int>
    decreases e, 1
  {
    match e
    case OMinus(x) => EvalMinused(x, signs + 1)
    case OBin(op, l, r) =>
      if op == Pow then OppositeTimes(Eval(e), signs)
      else
        var a, b := OppositeTimes(Eval(l), signs), Eval(r);
        if a.None? || b.None? then None else OnInts(op, a.value, b.value)
    case _ => OppositeTimes(Eval(e), signs)
  }

  /** The number that a Python reader computes, if any: as for integers, and fractions and complex numbers too. */
  function Value(py: Python, e: OExpr): Option<Num>
    decreases e, 0
  {
    match e
    case OInt(v) => Some(Whole(v))
    case OFraction(f) => Some(Fraction(f))
    case OLit(t, text) => if t.Decimal? then DecimalNumber(py, text) else None
    case OParen(x) => Value(py, x)
    case ONeg(x) => Negation(py, Value(py, x))
    case OMinus(x) => Minused(py, x, 1)
    case OBin(op, l, r) =>
      var a, b := Value(py, l), Value(py, r);
      if a.None? || b.None? then None
      else if op == Pow && BareMinus(l) then Negation(py, Operate(py, op, Negated(py, a.value), b.value))
      else Operate(py, op, a.value, b.value)
    case _ => None
  }

  function Negation(py: Python, n: Option<Num>): Option<Num> {
    if n.Some? then Some(Negated(py, n.value)) else None
  }

  function NegationTimes(py: Python, n: Option<Num>, signs: nat): Option<Num>
    decreases signs
  {
    if signs == 0 then n else NegationTimes(py, Negation(py, n), signs - 1)
  }

  function Minused(py: Python, e: OExpr, signs: nat): Option<Num>
    decreases e, 1
  {
    match e
    case OMinus(x) => Minused(py, x, signs + 1)
    case OBin(op, l, r) =>
      if op == Pow then NegationTimes(py, Value(py, e), signs)
      else
        var a, b := NegationTimes(py, Value(py, l), signs), Value(py, r);
        if a.None? || b.None? then None else Operate(py, op, a.value, b.value)
    case _ => NegationTimes(py, Value(py, e), signs)
  }

  /** The floating-point number nearest to a decimal literal. */
  function DecimalNumber(py: Python, text: string): Option<Num> {
    var x := DecimalValue(text);
    if x.Some? then Some(Fraction(Round(py.floats, x.value))) else None
  }

  predicate IsWhole(n: Option<Num>, v: Option<int>) {
    if v.Some? then n == Some(Whole(v.value)) else n.Some? ==> !n.value.Whole?
  }

  /** Rounding has no say in the integers: an expression has an integer value in one arithmetic if and only if it
      has it in every other. */
  lemma {:induction false} ValueIsWhole(py: Python, e: OExpr)
    ensures IsWhole(Value(py, e), Eval(e))
    decreases e, 0
  {
    hide Operate, OnInts, DecimalValue, Round, Minused, EvalMinused;
    match e {
      case OParen(x) => ValueIsWhole(py, x);
      case ONeg(x) => ValueIsWhole(py, x);
      case OMinus(x) => MinusedIsWhole(py, x, 1);
      case OBin(op, l, r) =>
        ValueIsWhole(py, l);
        ValueIsWhole(py, r);
        var a, b := Value(py, l), Value(py, r);
        if a.Some? && b.Some? {
          WholeIff(py, op, a.value, b.value);
          WholeIff(py, op, Negated(py, a.value), b.value);
        }
      case _ =>
    }
  }

  lemma {:induction false} MinusedIsWhole(py: Python, e: OExpr, signs: nat)
    ensures IsWhole(Minused(py, e, signs), EvalMinused(e, signs))
    decreases e, 1
  {
    hide Operate, OnInts, Value, Eval;
    match e {
      case OMinus(x) => MinusedIsWhole(py, x, signs + 1);
      case OBin(op, l, r) =>
        ValueIsWhole(py, e);
        ValueIsWhole(py, l);
        ValueIsWhole(py, r);
        TimesIsWhole(py, Value(py, e), Eval(e), signs);
        TimesIsWhole(py, Value(py, l), Eval(l), signs);
        var a, b := NegationTimes(py, Value(py, l), signs), Value(py, r);
        if a.Some? && b.Some? { WholeIff(py, op, a.value, b.value); }
      case _ =>
        ValueIsWhole(py, e);
        TimesIsWhole(py, Value(py, e), Eval(e), signs);
    }
  }

  lemma {:induction false} TimesIsWhole(py: Python, n: Option<Num>, v: Option<int>, signs: nat)
    requires IsWhole(n, v)
    ensures IsWhole(NegationTimes(py, n, signs), OppositeTimes(v, signs))
    decreases signs
  {
    if signs > 0 { TimesIsWhole(py, Negation(py, n), Opposite(v), signs - 1); }
  }

  predicate Known(e: OExpr, p: int -> bool) {
    Eval(e).Some? && p(Eval(e).value)
  }

  predicate KnownNumber(py: Python, e: OExpr, p: Num -> bool) {
    Value(py, e).Some? && p(Value(py, e).value)
  }

  predicate KnownFraction(py: Python, e: OExpr) {
    KnownNumber(py, e, (n: Num) => n.Fraction?)
  }

  /** A known negative number that is no integer. */
  predicate NegativeFraction(py: Python, e: OExpr) {
    KnownNumber(py, e, (n: Num) => n.Fraction? && Negative(n))
  }

  // ----- the two checks

  /** Two numbers of which one is complex cannot be compared: the check raises where it compares its right
      operand. */
  predicate Uncomparable(py: Python, t: VType, op: Op, right: OExpr) {
    t.Int? && (op == Pow || ((op == Shl || op == Shr) && t.n == 256)) && KnownNumber(py, right, (n: Num) => n.Complex?)
  }

  /** A minus in front of an operand. At an unsigned type it is out of place. */
  function WithMinus(py: Python, t: VType, e: OExpr): OExpr
    requires t.Int?
  {
    if NegativeFraction(py, e) && !t.signed then OMinus(e) else ONeg(e)
  }

  /** Adjusts an operation before it is written: a negative exponent is negated, a power of two unknowns
      gets base 1, shifts exist only at 256 bits and by at most 256, and a zero divisor becomes 1. */
  function CheckBinopBounds(py: Python, t: VType, left: OExpr, op: Op, right: OExpr): (r: (OExpr, Op, OExpr))
    requires t.Int?
  {
    var right1 := if op == Pow && KnownNumber(py, right, n => Negative(n)) then WithMinus(py, t, right) else right;
    var left1 := if op == Pow && Value(py, right).None? && Value(py, left).None? then OInt(1) else left;
    var op1 := if (op == Shl || op == Shr) && t.n != 256 then Add else op;
    var right2 := if (op1 == Shl || op1 == Shr) && KnownNumber(py, right, n => Above256(n))
                  then Modulo257(py, Value(py, right).value) else right1;
    var right3 := if (op1 == Div || op1 == Mod) && KnownNumber(py, right, n => IsZero(py, n)) then OInt(1) else right2;
    (left1, op1, right3)
  }

  function Modulo257(py: Python, n: Num): OExpr {
    match n
    case Whole(v) => OInt(PyInt.Mod(v, 257))
    case Fraction(f) => OFraction(Remainder(py.floats, f, Finite(257.0)).value)
    case Complex(_) => OInt(0)
  }

  /** Replaces an expression that evaluates out of range by a literal in range. A fraction is not brought into
      range; at an unsigned type a negative one gets a minus sign in front of its text. */
  function CheckLiteralBounds(py: Python, t: VType, e: OExpr): (r: OExpr)
    requires t.Int? && t.n > 0
    ensures || r == e
            || (r.OInt? && Eval(e).Some? && !InBounds(t, Eval(e).value) && InBounds(t, r.v))
            || (r == OMinus(e) && !t.signed && Eval(e).None? && NegativeFraction(py, e))
  {
    ValueIsWhole(py, e);
    match Value(py, e)
    case Some(Whole(v)) => if InBounds(t, v) then e else OInt(Generate(t.n, t.signed, v))
    case Some(Fraction(f)) => if BelowZero(f) && !t.signed then OMinus(e) else e
    case _ => e
  }

  /** On everything but fractions the check is a retraction onto the expressions that do not evaluate out of
      range: it leaves those alone, always lands among them, and a replaced value keeps its residue (shifted, if
      signed). */
  lemma CheckIsRetraction(py: Python, t: VType, e: OExpr)
    requires t.Int? && t.n > 0
    ensures RangeOk(t, CheckLiteralBounds(py, t, e))
    ensures CheckLiteralBounds(py, t, e) == e <==> RangeOk(t, e) && (NegativeFraction(py, e) ==> t.signed)
    ensures !NegativeFraction(py, e) ==>
              CheckLiteralBounds(py, t, CheckLiteralBounds(py, t, e)) == CheckLiteralBounds(py, t, e)
    ensures !RangeOk(t, e) ==>
              Eval(CheckLiteralBounds(py, t, e)).Some? &&
              Congruent(Eval(CheckLiteralBounds(py, t, e)).value,
                        if t.signed then Eval(e).value + Pow2(t.n - 1) else Eval(e).value, Pow2(t.n))
  {
    hide PyInt.Pow2, Congruent;
    ValueIsWhole(py, e);
    if !RangeOk(t, e) {
      GenerateCongruent(t.n, t.signed, Eval(e).value);
    } else {
      MinusIsNoInteger(e);
      MinusDiffers(e);
    }
  }

  lemma MinusDiffers(e: OExpr)
    ensures ONeg(e) != e && OMinus(e) != e
  {
    assert e < ONeg(e) && e < OMinus(e);
  }

  /** A minus sign in front of the text makes no integer of what is none. */
  lemma MinusIsNoInteger(e: OExpr)
    ensures Eval(e).None? ==> Eval(OMinus(e)).None?
  {
    if Eval(e).None? {
      SignsIgnored(Eval(e), 1);
      if e.OMinus? {
        SignsDoNotMatter(e.e, 1, 2);
      } else if e.OBin? {
        SignsIgnored(Eval(e.l), 1);
      }
    }
  }

  lemma {:induction false} SignsIgnored(v: Option<int>, signs: nat)
    ensures OppositeTimes(v, signs).None? <==> v.None?
    decreases signs
  {
    if signs > 0 { SignsIgnored(Opposite(v), signs - 1); }
  }

  lemma {:induction false} SignsDoNotMatter(e: OExpr, j: nat, k: nat)
    ensures EvalMinused(e, j).None? <==> EvalMinused(e, k).None?
  {
    hide PyInt.Mod, PyInt.Pow, PyInt.Bitwise, PyInt.ShiftLeft, PyInt.ShiftRight;
    SignsIgnored(Eval(e), j);
    SignsIgnored(Eval(e), k);
    if e.OMinus? {
      SignsDoNotMatter(e.e, j + 1, k + 1);
    } else if e.OBin? {
      SignsIgnored(Eval(e.l), j);
      SignsIgnored(Eval(e.l), k);
    }
  }

  /** e has no value out of the range of t. */
  predicate RangeOk(t: VType, e: OExpr) {
    Eval(e).Some? ==> InBounds(t, Eval(e).value)
  }

  /** What the right operand may be after the check: no known zero divisor, no known negative exponent, no
      known shift out of 0..256, and no shift at all below 256 bits. */
  predicate OperandOk(t: VType, op: Op, right: OExpr) {
    && ((op == Mod || op == Div) ==> !Known(right, v => v == 0))
    && (op == Pow ==> !Known(right, v => v < 0))
    && ((op == Shl || op == Shr) ==> t.Int? && t.n == 256 && !Known(right, v => v > 256))
  }

  lemma BinopChecked(py: Python, t: VType, left: OExpr, op: Op, right: OExpr)
    requires t.Int? && t.n > 0
    ensures var (l, o, r) := CheckBinopBounds(py, t, left, op, right); OperandOk(t, o, r)
  {
    hide Operate, OnInts, Remainder;
    ValueIsWhole(py, right);
    MinusIsNoInteger(right);
  }

  /** The right operand gives no reason to be adjusted. */
  predicate NumberOk(py: Python, t: VType, op: Op, right: OExpr) {
    && ((op == Mod || op == Div) ==> !KnownNumber(py, right, n => IsZero(py, n)))
    && (op == Pow ==> !KnownNumber(py, right, n => Negative(n)))
    && ((op == Shl || op == Shr) ==> t.Int? && t.n == 256 && !KnownNumber(py, right, n => Above256(n)))
  }

  /** The check changes nothing if and only if there is nothing to adjust: the right operand is fine and it is
      no power of two unknowns. */
  lemma BinopUntouchedIff(py: Python, t: VType, left: OExpr, op: Op, right: OExpr)
    requires t.Int? && t.n > 0 && !right.OFraction?
    ensures CheckBinopBounds(py, t, left, op, right) == (left, op, right) <==>
            NumberOk(py, t, op, right) &&
            (op == Pow && Value(py, left).None? && Value(py, right).None? ==> left == OInt(1))
  {
    hide Value, Negative, Above256, IsZero, Modulo257;
    MinusDiffers(right);
    ZeroIsNotOne(py, right);
    if KnownNumber(py, right, n => Above256(n)) { SmallerModulo(py, right); }
  }

  lemma ZeroIsNotOne(py: Python, e: OExpr)
    ensures KnownNumber(py, e, n => IsZero(py, n)) ==> e != OInt(1)
  {
  }

  lemma SmallerModulo(py: Python, right: OExpr)
    requires KnownNumber(py, right, n => Above256(n)) && !right.OFraction?
    ensures Modulo257(py, Value(py, right).value) != right
  {
    hide Operate, OnInts, Remainder, Minused;
  }

  /** What an adjusted right operand evaluates to: the negated exponent, the shift modulo 257, or one. */
  lemma BinopAdjusts(py: Python, t: VType, left: OExpr, op: Op, right: OExpr)
    requires t.Int? && t.n > 0 && CheckBinopBounds(py, t, left, op, right).2 != right
    requires !right.OBin? && !right.OMinus? && !Uncomparable(py, t, op, right)
    ensures Value(py, right).Some?
    ensures Value(py, CheckBinopBounds(py, t, left, op, right).2) ==
            Some(if op == Pow then Negated(py, Value(py, right).value)
                 else if op == Shl || op == Shr then Modulus257(py, Value(py, right).value) else Whole(1))
  {
    hide Operate, OnInts, Remainder;
    var v := Value(py, right).value;
    if op == Shl || op == Shr {
      if v.Whole? { ShiftAmount(v.v); }
    } else if op == Pow {
      assert NegationTimes(py, Value(py, right), 1) == Negation(py, Value(py, right)) by {
        assert NegationTimes(py, Negation(py, Value(py, right)), 0) == Negation(py, Value(py, right));
      }
    }
  }

  /** The remainder by 257 of a number, a fraction included. */
  function Modulus257(py: Python, n: Num): Num {
    match n
    case Whole(v) => Whole(v % 257)
    case Fraction(f) => Fraction(Remainder(py.floats, f, Finite(257.0)).value)
    case Complex(_) => n
  }

  lemma ShiftAmount(v: int)
    ensures PyInt.Mod(v, 257) == v % 257 && 0 <= PyInt.Mod(v, 257) <= 256
  {
  }

  /** A negated exponent leaves the type's range exactly when the exponent was the lower bound: the one
      constant the converter writes that can be out of range. */
  lemma NegatedExponentRange(t: VType, right: OExpr)
    requires t.Int? && t.n > 0 && Known(right, v => v < 0) && RangeOk(t, right)
    ensures RangeOk(t, ONeg(right)) <==> Eval(right).value != Low(t.n, t.signed)
  {
  }

  /** The witness: 1 ** -128 in an 8-bit signed type is written with the exponent 128. */
  lemma NegatedExponentWitness(py: Python)
    ensures var t := Int(8, true);
            var (l, o, r) := CheckBinopBounds(py, t, OInt(1), Pow, OInt(-128));
            InBounds(t, -128) && RangeOk(t, OBin(o, l, r)) && !RangeOk(t, r) &&
            CheckLiteralBounds(py, t, OBin(o, l, r)) == OBin(Pow, OInt(1), ONeg(OInt(-128)))
  {
    assert Pow2(7) == 128;
    PowOfOne(128);
  }

  lemma {:induction false} PowOfOne(e: nat)
    ensures PyInt.Pow(1, e) == 1
  {
    if e > 0 { PowOfOne(e - 1); }
  }
}
