/** What the converter guarantees for every expression it writes, and how the guarantee is put together. */
module Soundness {
  import opened Types
  import opened Declarations
  import opened Emitted
  import opened IntBounds
  import opened Literals
  import opened Checker
  import opened PyNumber

  /** The names an expression mentions. */
  function Refs(e: OExpr): set<Name> {
    match e
    case OInt(_) => {}
    case OLit(_, _) => {}
    case ORef(n) => {n}
    case OParen(x) => Refs(x)
    case OMinus(x) => Refs(x)
    case OFraction(_) => {}
    case ONot(x) => Refs(x)
    case ONeg(x) => Refs(x)
    case OBin(_, l, r) => Refs(l) + Refs(r)
    case OApp(_, args) => RefsOfArgs(args)
  }

  function RefsOfArgs(args: seq<Arg>): set<Name> {
    if args == [] then {} else RefsOfArgs(args[..|args| - 1]) + RefsOfArg(args[|args| - 1])
  }

  function RefsOfArg(a: Arg): set<Name> {
    Refs(a.e)
  }

  predicate ConstantName(n: Name) {
    var root := Root(n);
    root.Var? && root.prefix == Constant && !IsStorage(n)
  }

  /** What the value of a constant may be: it mentions constants only and has no effect. */
  predicate ConstantValue(e: OExpr) {
    Effect(e) == PURE && forall n :: n in Refs(e) ==> ConstantName(n)
  }

  /** An expression written for type t: well typed in the environment, within the mutability reached, readable,
      and a constant value where one is asked for. */
  ghost predicate Sound(e: OExpr, t: VType, env: Env, mutability: nat, constant: bool) {
    && WellTyped(e, t, env)
    && Effect(e) <= mutability
    && Readable(e)
    && (constant ==> ConstantValue(e))
  }

  lemma SoundLater(e: OExpr, t: VType, env: Env, m: nat, m': nat, c: bool)
    requires Sound(e, t, env, m, c) && m <= m'
    ensures Sound(e, t, env, m', c)
  {
  }

  lemma SoundInt(v: int, t: VType, env: Env, m: nat, c: bool)
    requires InBounds(t, v)
    ensures Sound(OInt(v), t, env, m, c)
  {
  }

  lemma SoundLit(t: VType, text: string, env: Env, m: nat, c: bool)
    requires !t.Int? && LiteralOk(t, text)
    ensures Sound(OLit(t, text), t, env, m, c)
  {
  }

  lemma SoundRef(n: Name, t: VType, env: Env, m: nat, c: bool)
    requires NameOk(n, t, env) && (IsStorage(n) ==> m >= VIEW) && (c ==> ConstantName(n))
    ensures Sound(ORef(n), t, env, m, c)
  {
  }

  lemma SoundParen(e: OExpr, t: VType, env: Env, m: nat, c: bool)
    requires Sound(e, t, env, m, c)
    ensures Sound(OParen(e), t, env, m, c)
  {
  }

  lemma SoundNeg(e: OExpr, t: VType, env: Env, m: nat, c: bool)
    requires Sound(e, t, env, m, c) && Enclosed(e)
    requires t.Decimal? || (t.Int? && t.signed && RangeOk(t, ONeg(e)))
    ensures Sound(ONeg(e), t, env, m, c)
  {
  }

  lemma SoundMinus(py: Python, e: OExpr, t: VType, env: Env, m: nat, c: bool)
    requires Sound(e, t, env, m, c) && (t.Int? || t.Decimal?) && NegativeFraction(py, e)
    ensures Sound(OMinus(e), t, env, m, c)
  {
    hide Operate, Eval, Value;
    ValueIsWhole(py, e);
  }

  lemma SoundNot(e: OExpr, env: Env, m: nat, c: bool)
    requires Sound(e, Bool, env, m, c) && Enclosed(e)
    ensures Sound(ONot(e), Bool, env, m, c)
  {
  }

  /** Decimal arithmetic, logic and comparisons. */
  lemma SoundBin(op: Op, l: OExpr, r: OExpr, operands: VType, t: VType, env: Env, m: nat, c: bool)
    requires Sound(l, operands, env, m, c) && Sound(r, operands, env, m, c) && Enclosed(l) && Enclosed(r)
    requires || (t.Decimal? && operands == Decimal && Arithmetic(op))
             || (t.Bool? && operands == Bool && Logical(op))
             || (t.Bool? && Comparison(op) && (operands == Int(256, false) || operands == Decimal))
    ensures Sound(OBin(op, l, r), t, env, m, c)
  {
  }

  /** An integer operation after both checks: typed, in range whenever it has an integer value, and without known
      zero divisors or negative exponents. */
  lemma SoundIntBin(py: Python, t: VType, op: Op, l: OExpr, r: OExpr, env: Env, m: nat, c: bool)
    requires t.Int? && t.n >= 8 && Arithmetic(op)
    requires Sound(l, t, env, m, c) && Sound(r, t, env, m, c) && Enclosed(l) && Enclosed(r)
    ensures var (l', o, r') := CheckBinopBounds(py, t, l, op, r);
            var e := CheckLiteralBounds(py, t, OBin(o, l', r'));
            Sound(e, t, env, m, c) && (e.OBin? || e.OInt? || (e.OMinus? && e.e.OBin?))
  {
    hide CheckBinopBounds, CheckLiteralBounds, Sound, Eval, InBounds, OperandOk;
    var (l', o, r') := CheckBinopBounds(py, t, l, op, r);
    LeftChecked(py, t, op, l, r, env, m, c);
    RightOperand(py, t, op, l, r, env, m, c);
    if RangeOk(t, OBin(o, l', r')) { SoundOperation(t, o, l', r', env, m, c); }
    SoundChecked(py, t, OBin(o, l', r'), env, m, c);
  }

  lemma LeftChecked(py: Python, t: VType, op: Op, l: OExpr, r: OExpr, env: Env, m: nat, c: bool)
    requires t.Int? && t.n >= 8 && Arithmetic(op) && Sound(l, t, env, m, c) && Enclosed(l)
    ensures var (l', o, _) := CheckBinopBounds(py, t, l, op, r);
            Arithmetic(o) && Sound(l', t, env, m, c) && Enclosed(l')
  {
    hide Value;
    SmallInBounds(t);
  }

  lemma SoundOperation(t: VType, op: Op, l: OExpr, r: OExpr, env: Env, m: nat, c: bool)
    requires t.Int? && Arithmetic(op) && Sound(l, t, env, m, c) && Enclosed(l) && OperandOk(t, op, r)
    requires Effect(r) <= m && Readable(r) && (Enclosed(r) || ((r.ONeg? || r.OMinus?) && Enclosed(r.e)))
    requires c ==> ConstantValue(r)
    requires WellTyped(r, t, env) || (op == Pow && NegatedExponent(r, t) && WellTyped(r.e, t, env))
    requires RangeOk(t, OBin(op, l, r))
    ensures Sound(OBin(op, l, r), t, env, m, c)
  {
    hide Eval, OperandOk;
  }

  lemma SoundChecked(py: Python, t: VType, e: OExpr, env: Env, m: nat, c: bool)
    requires t.Int? && t.n >= 8 && e.OBin? && (RangeOk(t, e) ==> Sound(e, t, env, m, c))
    ensures var out := CheckLiteralBounds(py, t, e);
            Sound(out, t, env, m, c) && (out.OBin? || out.OInt? || (out.OMinus? && out.e.OBin?))
  {
    hide Eval, Value, OperandOk;
    var out := CheckLiteralBounds(py, t, e);
    if out == e || out == OMinus(e) {
      CheckIsRetraction(py, t, e);
      MinusDiffers(e);
    }
  }

  lemma SmallInBounds(t: VType)
    requires t.Int? && t.n >= 8
    ensures InBounds(t, 0) && InBounds(t, 1)
    ensures t.n == 256 ==> forall v :: 0 <= v <= 256 ==> InBounds(t, v)
  {
    PowAtLeast(t.n);
    PowAtLeast(t.n - 1);
  }

  lemma {:induction false} PowAtLeast(n: nat)
    ensures n >= 7 ==> PyInt.Pow2(n) >= 128
    ensures n >= 9 ==> PyInt.Pow2(n) >= 512
  {
    if n > 0 { PowAtLeast(n - 1); }
  }

  lemma RightOperand(py: Python, t: VType, op: Op, l: OExpr, r: OExpr, env: Env, m: nat, c: bool)
    requires t.Int? && t.n >= 8
    requires Sound(r, t, env, m, c) && Enclosed(r)
    ensures var (_, o, r') := CheckBinopBounds(py, t, l, op, r);
            && Effect(r') <= m && Readable(r') && (Enclosed(r') || ((r'.ONeg? || r'.OMinus?) && Enclosed(r'.e)))
            && (c ==> ConstantValue(r'))
            && OperandOk(t, o, r')
            && (WellTyped(r', t, env) || (o == Pow && NegatedExponent(r', t) && WellTyped(r'.e, t, env)))
  {
    hide CheckBinopBounds, Value, Eval, InBounds, OperandOk, Known;
    BinopChecked(py, t, l, op, r);
    RightIs(py, t, l, op, r);
    ValueIsWhole(py, r);
    NegationInRange(py, t, r);
  }

  /** What becomes of a right operand. */
  lemma RightIs(py: Python, t: VType, l: OExpr, op: Op, r: OExpr)
    requires t.Int? && t.n >= 8
    ensures var (_, o, b) := CheckBinopBounds(py, t, l, op, r);
            || b == r || (b.OInt? && InBounds(t, b.v)) || (b.OFraction? && t.n == 256)
            || (b == ONeg(r) && o == Pow && (Known(r, v => v < 0) || (t.signed && Eval(r).None?)))
            || (b == OMinus(r) && Eval(r).None?)
  {
    hide Value, Eval, InBounds;
    SmallInBounds(t);
    ValueIsWhole(py, r);
  }

  /** The negation of what is no integer is none. */
  lemma NegationInRange(py: Python, t: VType, e: OExpr)
    requires t.Int?
    ensures Eval(e).None? ==> RangeOk(t, ONeg(e))
  {
  }

  ghost predicate SoundArgs(args: seq<Arg>, env: Env, m: nat, c: bool) {
    forall i :: 0 <= i < |args| ==> Sound(args[i].e, args[i].at, env, m, c)
  }

  lemma SoundArgsAppend(args: seq<Arg>, a: Arg, env: Env, m: nat, m': nat, c: bool)
    requires SoundArgs(args, env, m, c) && m <= m' && Sound(a.e, a.at, env, m', c)
    ensures SoundArgs(args + [a], env, m', c)
  {
  }

  lemma {:induction false} ArgsEffect(args: seq<Arg>, env: Env, m: nat, c: bool)
    requires SoundArgs(args, env, m, c)
    ensures EffectOfArgs(args) <= m
    ensures c ==> EffectOfArgs(args) == PURE && forall n :: n in RefsOfArgs(args) ==> ConstantName(n)
  {
    if args != [] {
      ArgsEffect(args[..|args| - 1], env, m, c);
      assert Sound(args[|args| - 1].e, args[|args| - 1].at, env, m, c);
    }
  }

  lemma SoundApp(f: Builtin, args: seq<Arg>, t: VType, env: Env, m: nat, c: bool)
    requires SoundArgs(args, env, m, c) && ResultOk(f, args, t)
    requires OwnEffect(f) <= m && (c ==> OwnEffect(f) == PURE)
    ensures Sound(OApp(f, args), t, env, m, c)
  {
    hide ResultOk;
    ArgsEffect(args, env, m, c);
    forall i | 0 <= i < |args| ensures WellTyped(args[i].e, args[i].at, env) {
      assert Sound(args[i].e, args[i].at, env, m, c);
    }
    assert WellTyped(OApp(f, args), t, env);
  }
}
