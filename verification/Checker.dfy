/** Independent rules for the program the converter writes: typing, scope, call agreement, effects. Nothing
    here looks at the converter. The environment is the set of declarations in force. */
module Checker {
  import opened Types
  import opened Declarations
  import opened Emitted
  import opened IntBounds
  import opened Literals

  type Env = set<Decl>

  const PURE: nat := 0
  const VIEW: nat := 1
  const NON_PAYABLE: nat := 2

  datatype Sig = Sig(mutability: nat, inputs: seq<VType>, outputs: seq<VType>)

  /** What a function body is checked against: the functions it may call and its own outputs. */
  datatype Ctx = Ctx(callable: map<nat, Sig>, outputs: seq<VType>)

  // ----- expressions

  ghost predicate NameOk(n: Name, t: VType, env: Env) {
    exists d :: d in env && Offers(d, n, t, false)
  }

  ghost predicate WellTyped(e: OExpr, t: VType, env: Env) {
    match e
    case OInt(v) => InBounds(t, v)
    case OLit(lt, text) => lt == t && !t.Int? && LiteralOk(t, text)
    case ORef(n) => NameOk(n, t, env)
    case OParen(x) => WellTyped(x, t, env)
    // The two exceptions, see Strays below.
    case OMinus(x) => (t.Int? || t.Decimal?) && Eval(x).None? && WellTyped(x, t, env)
    case OFraction(_) => t.Int? && t.n == 256
    case ONot(x) => t.Bool? && WellTyped(x, Bool, env)
    case ONeg(x) => ((t.Int? && t.signed) || t.Decimal?) && WellTyped(x, t, env) && (t.Int? ==> RangeOk(t, e))
    case OBin(op, l, r) =>
      if t.Int? then
        Arithmetic(op) && WellTyped(l, t, env) && OperandOk(t, op, r) && RangeOk(t, e) &&
        (WellTyped(r, t, env) || (op == Pow && NegatedExponent(r, t) && WellTyped(r.e, t, env)))
      else if t.Decimal? then
        Arithmetic(op) && WellTyped(l, t, env) && WellTyped(r, t, env)
      else
        t.Bool? &&
        ((Logical(op) && WellTyped(l, Bool, env) && WellTyped(r, Bool, env)) ||
         (Comparison(op) && WellTyped(l, Int(256, false), env) && WellTyped(r, Int(256, false), env)) ||
         (Comparison(op) && WellTyped(l, Decimal, env) && WellTyped(r, Decimal, env)))
    case OApp(f, args) =>
      ResultOk(f, args, t) && forall i :: 0 <= i < |args| ==> WellTyped(args[i].e, args[i].at, env)
  }

  /** Somewhere the expression breaks the rules of the language in one of two ways, which the rules above let pass
      because the converter writes them: a minus sign in front of something that is not known to be an integer,
      at a type that need not have signs, or a fraction as the amount of a shift. */
  predicate Strays(e: OExpr) {
    match e
    case OMinus(_) => true
    case OFraction(_) => true
    case OParen(x) => Strays(x)
    case ONot(x) => Strays(x)
    case ONeg(x) => Strays(x)
    case OBin(_, l, r) => Strays(l) || Strays(r)
    case OApp(_, args) => exists i :: 0 <= i < |args| && Strays(args[i].e)
    case _ => false
  }

  /** -(r) for an exponent r that is known to be negative. */
  predicate NegatedExponent(e: OExpr, t: VType) {
    e.ONeg? && Known(e.e, v => v < 0)
  }

  function TotalSize(args: seq<Arg>): nat {
    if args == [] then 0
    else TotalSize(args[..|args| - 1]) + PartSize(args[|args| - 1].at)
  }

  function PartSize(t: VType): nat {
    if t.Bytes? || t.Str? || t.BytesM? then t.m else 0
  }

  predicate IsWord(t: VType) {
    t == Int(256, false) || t == BytesM(32)
  }

  /** Target and data, then gas and value. */
  predicate RawArgTypes(args: seq<Arg>) {
    && |args| >= 2 && args[0].at == Address && args[1].at == Bytes(100)
    && forall i :: 2 <= i < |args| ==> args[i].at == Int(256, false)
  }

  /** Which types can be converted to which: numbers and addresses to fixed bytes that hold them, addresses to and
      from unsigned integers only. */
  predicate Convertible(from: VType, to: VType) {
    match from
    case Int(n, signed) =>
      to.Int? || (to.Address? && !signed) || (to.BytesM? && to.m * 8 >= n) || to.Bool? || to.Decimal?
    case Decimal => to.BytesM? ==> to.m >= 21
    case Address => (to.Int? && !to.signed) || (to.BytesM? && to.m >= 20) || to.Bool?
    case Bytes(m) => m <= 32
    case FixedList(_, _) => false
    case DynArray(_, _) => false
    case NoType => false
    case _ => true
  }

  /** How the argument types of a call determine its type. */
  ghost predicate ResultOk(f: Builtin, args: seq<Arg>, t: VType) {
    match f
    case ListLiteral =>
      IsList(t) && (forall i :: 0 <= i < |args| ==> args[i].at == t.base) &&
      1 <= |args| <= t.size && (t.FixedList? && !t.base.FixedList? ==> |args| == t.size)
    case Convert(to) => to == t && |args| == 1 && Convertible(args[0].at, to)
    case Concat =>
      |args| >= 2 && (t.Bytes? || t.Str?) && TotalSize(args) <= t.m &&
      forall i :: 0 <= i < |args| ==>
        if t.Str? then args[i].at.Str? else args[i].at.Bytes? || args[i].at.BytesM?
    case Hash =>
      t == BytesM(32) && |args| == 1 && (args[0].at.Bytes? || args[0].at.Str? || args[0].at == BytesM(32))
    case EcRecover =>
      t.Address? && |args| == 4 && args[0].at == BytesM(32) && (args[1].at == Int(8, false) || IsWord(args[1].at)) &&
      IsWord(args[2].at) && IsWord(args[3].at)
    case EcAdd => PointType(t) && |args| == 2 && args[0].at == args[1].at == FixedList(2, Int(256, false))
    case EcMul => PointType(t) && |args| == 2 && args[0].at == FixedList(2, Int(256, false)) &&
                  args[1].at == Int(256, false)
    case Create =>
      t.Address? && |args| >= 1 && args[0].at == Address &&
      forall i :: 1 <= i < |args| ==> IsWord(args[i].at) || args[i].at == Bytes(100)
    case RawCall(out, _) => RawArgTypes(args) && (t.Bool? || (t.Bytes? && t.m == out))
  }

  /** ecadd and ecmul yield uint256[2]; the converter also writes them where int256[2] is asked for. */
  predicate PointType(t: VType) {
    t.FixedList? && t.size == 2 && t.base.Int? && t.base.n == 256
  }

  function Max(a: nat, b: nat): nat {
    if a < b then b else a
  }

  /** The least mutability a function evaluating e must declare. */
  function Effect(e: OExpr): nat {
    match e
    case OInt(_) => PURE
    case OLit(_, _) => PURE
    case ORef(n) => if IsStorage(n) then VIEW else PURE
    case OParen(x) => Effect(x)
    case OMinus(x) => Effect(x)
    case OFraction(_) => PURE
    case ONot(x) => Effect(x)
    case ONeg(x) => Effect(x)
    case OBin(_, l, r) => Max(Effect(l), Effect(r))
    case OApp(f, args) => Max(OwnEffect(f), EffectOfArgs(args))
  }

  function EffectOfArgs(args: seq<Arg>): nat {
    if args == [] then PURE
    else Max(EffectOfArgs(args[..|args| - 1]), EffectOfArg(args[|args| - 1]))
  }

  function EffectOfArg(a: Arg): nat {
    Effect(a.e)
  }

  function OwnEffect(f: Builtin): nat {
    match f
    case Create => NON_PAYABLE
    case RawCall(_, isStatic) => if isStatic then VIEW else NON_PAYABLE
    case _ => PURE
  }

  /** A single token, or parenthesised. */
  predicate Enclosed(e: OExpr) {
    !e.OBin? && !e.ONeg? && !e.ONot? && !e.OMinus?
  }

  /** Every operand of an operator is a single token or parenthesised; only a right operand, or the text as a
      whole, may carry a minus sign of its own. */
  predicate Readable(e: OExpr) {
    match e
    case OParen(x) => Readable(x)
    case ONot(x) => Enclosed(x) && Readable(x)
    case ONeg(x) => Enclosed(x) && Readable(x)
    case OMinus(x) => !x.ONot? && Readable(x)
    case OBin(_, l, r) =>
      Enclosed(l) && Readable(l) && (Enclosed(r) || ((r.ONeg? || r.OMinus?) && Enclosed(r.e))) && Readable(r)
    case OApp(_, args) => forall i :: 0 <= i < |args| ==> Readable(args[i].e)
    case _ => true
  }

  ghost predicate ExprOk(e: OExpr, t: VType, env: Env) {
    WellTyped(e, t, env) && Readable(e)
  }

  // ----- statements

  ghost predicate TargetOk(x: Target, env: Env, assignee: bool) {
    exists d :: d in env && d.mutable && TypeBy(d, x.name) == Some(x.declared) && Offers(d, x.name, x.wanted, assignee)
  }

  ghost predicate FreshName(n: Name, env: Env) {
    forall d :: d in env ==> d.name != n
  }

  /** A name made from a prefix and the class of the type. */
  predicate NamedFor(n: Name, prefix: Prefix, t: VType) {
    n.Var? && n.prefix == prefix && n.typeName == TypeName(t)
  }

  /** A new name for a local variable, which is neither storage nor an element. */
  ghost predicate FreshLocal(n: Name, prefix: Prefix, t: VType, env: Env) {
    NamedFor(n, prefix, t) && FreshName(n, env)
  }

  ghost predicate DistinctTargets(xs: seq<Target>) {
    forall i, j :: 0 <= i < j < |xs| ==> xs[i].name != xs[j].name
  }

  ghost predicate ArgsOk(args: seq<Arg>, env: Env) {
    forall i :: 0 <= i < |args| ==> ExprOk(args[i].e, args[i].at, env)
  }

  function DeclaredBy(s: OStmt, level: nat): Env {
    match s
    case SDecl(n, t, _) => {Decl(n, level, t, true, 0)}
    case SDeclEmpty(n, t) => {Decl(n, level, t, true, 0)}
    case SDeclRawCall(n, t, _) => {Decl(n, level, t, true, 0)}
    case _ => {}
  }

  /** The environment after a block: declarations in nested blocks are gone. */
  function EnvAfter(b: seq<OStmt>, env: Env, level: nat): Env {
    if b == [] then env
    else EnvAfter(b[..|b| - 1], env, level) + DeclaredBy(b[|b| - 1], level)
  }

  ghost predicate BlockOk(b: seq<OStmt>, c: Ctx, env: Env, level: nat, inLoop: bool) {
    b != [] ==>
      && BlockOk(b[..|b| - 1], c, env, level, inLoop)
      && StmtOk(b[|b| - 1], c, EnvAfter(b[..|b| - 1], env, level), level, inLoop)
  }

  ghost predicate StmtOk(s: OStmt, c: Ctx, env: Env, level: nat, inLoop: bool) {
    match s
    case SDecl(n, t, value) => FreshLocal(n, Plain, t, env) && ExprOk(value, t, env)
    case SDeclEmpty(n, t) => FreshLocal(n, Plain, t, env)
    // The one declaration whose own name its initialiser may mention, see SelfReference below.
    case SDeclRawCall(n, t, value) =>
      FreshLocal(n, Plain, t, env) && ExprOk(value, t, env + DeclaredBy(s, level)) && value.OApp? && value.f.RawCall?
    case SAssign(x, value) => TargetOk(x, env, false) && ExprOk(value, x.wanted, env)
    case SRawCall(xs, value) =>
      (forall i :: 0 <= i < |xs| ==> TargetOk(xs[i], env, false)) &&
      value.OApp? && value.f.RawCall? && RawArgTypes(value.args) && ArgsOk(value.args, env)
    case SFor(i, range, body) =>
      var counter := Decl(i, level + 1, Int(256, false), false, 0);
      && FreshLocal(i, Counter, counter.t, env) && RangeCheck(range, env)
      && BlockOk(body, c, env + {counter}, level + 1, true)
    case SIf(cases, els) =>
      (forall i :: 0 <= i < |cases| ==>
        ExprOk(cases[i].cond, Bool, env) && BlockOk(cases[i].body, c, env, level + 1, inLoop)) &&
      BlockOk(els, c, env, level + 1, inLoop)
    case SCall(f, xs, args) =>
      f in c.callable && ArgsOk(args, env) && CallAgrees(c.callable[f], xs, args) && DistinctTargets(xs) &&
      forall i :: 0 <= i < |xs| ==> TargetOk(xs[i], env, true)
    case SReturn(values) =>
      |values| == |c.outputs| && forall i :: 0 <= i < |values| ==> ExprOk(values[i], c.outputs[i], env)
    case SAct(_, args) => ArgsOk(args, env)
    case SAppend(x, item, value) =>
      TargetOk(x, env, false) && x.declared.DynArray? && x.declared.base == item && ExprOk(value, item, env)
    case SPop(x) => TargetOk(x, env, false) && x.declared.DynArray?
    case SBreak => inLoop
    case SContinue => inLoop
    case SPass => true
    case SBlank => c.outputs == []
  }

  ghost predicate RangeCheck(range: ORange, env: Env) {
    match range
    case Constants(start, stop) => start < stop
    case UpTo(length) => length >= 1
    case FromName(n, length) => length >= 1 && NameOk(n, Int(256, false), env)
  }

  /** One target for every output, one argument for every input, each asked for at the declared type. */
  ghost predicate CallAgrees(sig: Sig, xs: seq<Target>, args: seq<Arg>) {
    && |xs| == |sig.outputs| && (forall i :: 0 <= i < |xs| ==> xs[i].wanted == sig.outputs[i])
    && |args| == |sig.inputs| && (forall i :: 0 <= i < |args| ==> args[i].at == sig.inputs[i])
  }

  // ----- effects of statements

  /** Captures a call result in storage that is strictly larger than the result. */
  ghost predicate Oversized(x: Target) {
    IsStorage(x.name) && x.declared != x.wanted
  }

  function WriteEffect(x: Target): nat {
    if IsStorage(x.name) then NON_PAYABLE else PURE
  }

  ghost function WritesOf(xs: seq<Target>, all: bool): nat {
    if xs == [] then PURE
    else
      var x := xs[|xs| - 1];
      Max(WritesOf(xs[..|xs| - 1], all), if all || !Oversized(x) then WriteEffect(x) else PURE)
  }

  function ValuesEffect(es: seq<OExpr>): nat {
    if es == [] then PURE else Max(ValuesEffect(es[..|es| - 1]), Effect(es[|es| - 1]))
  }

  function ActionEffect(a: Action): nat {
    match a
    case SelfDestruct => NON_PAYABLE
    case Send => NON_PAYABLE
    case RawLog => NON_PAYABLE
    case _ => PURE
  }

  /** The least mutability a function with body b must declare. With `all` false, captures of call results
      in oversized storage are not counted. */
  ghost function BlockEffect(b: seq<OStmt>, sigs: map<nat, Sig>, all: bool): nat {
    if b == [] then PURE
    else Max(BlockEffect(b[..|b| - 1], sigs, all), StmtEffect(b[|b| - 1], sigs, all))
  }

  ghost function StmtEffect(s: OStmt, sigs: map<nat, Sig>, all: bool): nat {
    match s
    case SDecl(_, _, value) => Effect(value)
    case SDeclEmpty(_, _) => PURE
    case SDeclRawCall(_, _, value) => Effect(value)
    case SAssign(x, value) => Max(WriteEffect(x), Effect(value))
    case SRawCall(xs, value) => Max(WritesOf(xs, true), Effect(value))
    case SFor(_, range, body) => Max(RangeEffect(range), BlockEffect(body, sigs, all))
    case SIf(cases, els) => Max(CasesEffect(cases, sigs, all), BlockEffect(els, sigs, all))
    case SCall(f, xs, args) =>
      Max(if f in sigs then sigs[f].mutability else PURE, Max(WritesOf(xs, all), EffectOfArgs(args)))
    case SReturn(values) => ValuesEffect(values)
    case SAct(a, args) => Max(ActionEffect(a), EffectOfArgs(args))
    case SAppend(x, _, value) => Max(WriteEffect(x), Effect(value))
    case SPop(x) => WriteEffect(x)
    case _ => PURE
  }

  function RangeEffect(range: ORange): nat {
    if range.FromName? && IsStorage(range.first) then VIEW else PURE
  }

  ghost function CasesEffect(cases: seq<OCase>, sigs: map<nat, Sig>, all: bool): nat {
    if cases == [] then PURE
    else
      var last := cases[|cases| - 1];
      Max(CasesEffect(cases[..|cases| - 1], sigs, all), Max(Effect(last.cond), BlockEffect(last.body, sigs, all)))
  }
}
