/** What of a message comes back in what is written for it: operators and the order of their operands, the
    arguments of calls, the order and nesting of statements. A random choice may pick any variable; the literal
    of the message, a declaration or an assignment stands in exactly where there is none to pick. Of the
    rules of Checker only the one for names is used here. */
module Mirror {
  import opened Types
  import opened Declarations
  import opened Emitted
  import opened IntBounds
  import opened Literals
  import PyInt
  import opened Checker
  import opened Messages
  import opened Sizing
  import opened PyNumber

  const UINT := Int(256, false)
  const POINT := FixedList(2, Int(256, false))

  /** What an expression may read: the declarations in scope, or only their constants; and the arithmetic that
      known values are computed in. */
  datatype Sight = Sight(constant: bool, env: Env, py: Python)

  /** Nothing in scope can be used (or, if need be, written) where t is asked for. */
  ghost predicate NothingFits(t: VType, env: Env, written: bool) {
    forall d, n :: d in env && (written ==> d.mutable) ==> !Offers(d, n, t, false)
  }

  /** No variable can be picked; among constants only, none may have been. */
  ghost predicate NoneToRead(t: VType, sight: Sight) {
    sight.constant || NothingFits(t, sight.env, false)
  }

  function Bare(out: OExpr): OExpr {
    if out.OParen? then out.e else out
  }

  // ----- conversions

  /** Which type is converted from, if the message asks for a conversion that the target admits. */
  function ConversionSource(e: Expr, t: VType): Option<VType> {
    match e
    case ConvertInt(n, sign, _, _) =>
      var from := IntType(n, sign);
      if t.Int? && from != t then Some(from)
      else if (t.Address? && !from.signed) || (t.BytesM? && t.m * 8 >= from.n) || t.Bool? || t.Decimal? then Some(from)
      else None
    case ConvertDecimal(_, _) =>
      if t.Int? then Some(Decimal)
      else if t.BytesM? then (if t.m >= 21 then Some(Decimal) else None)
      else Some(Decimal)
    case ConvertBool(_, _) => Some(Bool)
    case ConvertAddress(_, _) =>
      if (t.Int? && !t.signed) || (t.BytesM? && t.m >= 20) || t.Bool? then Some(Address) else None
    case ConvertBytesM(m, _, _) => Some(BytesMType(m))
    case ConvertBytes(_, _) => Some(Bytes(if HasCapacity(t) && t.m < 32 then t.m else 32))
    case ConvertString(_, _) => Some(Str(if HasCapacity(t) then t.m else 32))
    case _ => None
  }

  /** Byte strings, fixed bytes and strings: one family in the source's classes. */
  predicate HasCapacity(t: VType) {
    t.Bytes? || t.BytesM? || t.Str?
  }

  /** A number converted to an integer type is brought into its range first if its value is known; a negative
      fraction that is to become unsigned gets a minus sign in front of its text. */
  function Converted(py: Python, e: Expr, from: VType, t: VType, inner: OExpr): OExpr {
    var checked := t.Int? && t.n > 0 && (e.ConvertInt? || e.ConvertDecimal?);
    var known := if checked then CheckLiteralBounds(py, t, inner) else inner;
    OApp(Convert(t), [Arg(known, if known == inner || known == OMinus(inner) then from else t)])
  }

  // ----- expressions

  ghost predicate LiteralMirrors(lit: Literal, t: VType, out: OExpr) {
    match t
    case Int(n, signed) => n > 0 && out == OInt(Generate(n, signed, lit.intval))
    case Bool => out == OLit(Bool, if lit.boolval then "True" else "False")
    case Bytes(m) => out == OLit(t, BytesLiteral(m, lit.barrval))
    case BytesM(m) => out.OLit? && out.t == t && BytesMText(m, lit.bMval, out.text)
    case Str(m) => out.OLit? && out.t == t && StringText(m, lit.strval, out.text)
    case Decimal => out == OLit(t, DecimalText(lit.decimalval))
    case Address => out == OLit(t, AddressText(lit.addval))
    case _ => out.OLit? && out.t == t
  }

  function Folded(py: Python, t: VType, l: OExpr, op: Op, r: OExpr): OExpr
    requires t.Int? && t.n > 0
  {
    var (a, o, b) := CheckBinopBounds(py, t, l, op, r);
    CheckLiteralBounds(py, t, OBin(o, a, b))
  }

  /** `out` is written for message e where type t is asked for; what may be read is in sight. */
  ghost predicate Mirrors(e: Expr, t: VType, sight: Sight, out: OExpr)
    decreases e, 3
  {
    match t
    case Int(_, _) => IntMirrors(e, t, sight, out)
    case Bool => BoolMirrors(e, sight, out)
    case Decimal => DecimalMirrors(e, sight, out)
    case Address => AddressMirrors(e, sight, out)
    case BytesM(_) =>
      if e.HashOf? then
        var hash := if t.m == 32 then out else if IsConversion(out) then out.args[0].e else out;
        (t.m != 32 ==> out == OApp(Convert(t), [Arg(hash, BytesM(32))])) && HashMirrors(e.arg, sight, hash)
      else LeafMirrors(e, t, sight, out)
    case Bytes(m) =>
      if e.RawCallExpr? && !sight.constant && m > 0 then RawCallMirrors(e.rc, m, sight, out)
      else if e.ConcatOf? then ConcatMirrors(e, t, sight, out)
      else LeafMirrors(e, t, sight, out)
    case Str(_) => if e.ConcatOf? then ConcatMirrors(e, t, sight, out) else LeafMirrors(e, t, sight, out)
    case FixedList(_, _) => ListMirrors(e, t, sight, out)
    case DynArray(_, _) => ListMirrors(e, t, sight, out)
    case NoType => false
  }

  predicate IsConversion(out: OExpr) {
    out.OApp? && out.f.Convert? && |out.args| == 1
  }

  /** A variable, a conversion or a literal. */
  ghost predicate LeafMirrors(e: Expr, t: VType, sight: Sight, out: OExpr)
    decreases e, 1
  {
    if e.VarRef? then
      (out.ORef? && NameOk(out.name, t, sight.env)) || (NoneToRead(t, sight) && LiteralMirrors(e.lit, t, out))
    else if ConversionSource(e, t).Some? then
      var from := ConversionSource(e, t).value;
      exists inner :: Mirrors(e.e, from, sight, inner) && out == Converted(sight.py, e, from, t, inner)
    else LiteralMirrors(LiteralOf(e), t, out)
  }

  ghost predicate IntMirrors(e: Expr, t: VType, sight: Sight, out: OExpr)
    decreases e, 2
  {
    t.Int? && t.n > 0 &&
    if e.BinOp? && Arithmetic(e.op) then
      exists l, r :: Mirrors(e.l, t, sight, l) && Mirrors(e.r, t, sight, r) && Enclosed(l) && Enclosed(r) &&
                     Bare(out) == Folded(sight.py, t, l, e.op, r)
    else if e.UnOp? then
      exists x :: Mirrors(e.e, t, sight, x) && Enclosed(x) &&
                  (if t.signed then Bare(out) == CheckLiteralBounds(sight.py, t, ONeg(x)) else out == x)
    else LeafMirrors(e, t, sight, out)
  }

  ghost predicate BoolMirrors(e: Expr, sight: Sight, out: OExpr)
    decreases e, 2
  {
    var bare := Bare(out);
    if e.BoolBinOp? && Logical(e.op) then
      bare.OBin? && bare.op == e.op && Mirrors(e.l, Bool, sight, bare.l) && Mirrors(e.r, Bool, sight, bare.r)
    else if e.BoolUnOp? then bare.ONot? && Mirrors(e.e, Bool, sight, bare.e)
    else if (e.IntBoolBinOp? || e.DecBoolBinOp?) && Comparison(e.op) then
      var t := if e.IntBoolBinOp? then UINT else Decimal;
      bare.OBin? && bare.op == e.op && Mirrors(e.l, t, sight, bare.l) && Mirrors(e.r, t, sight, bare.r)
    else if e.RawCallExpr? && !sight.constant then RawCallMirrors(e.rc, 0, sight, out)
    else LeafMirrors(e, Bool, sight, out)
  }

  ghost predicate DecimalMirrors(e: Expr, sight: Sight, out: OExpr)
    decreases e, 2
  {
    var bare := Bare(out);
    if e.BinOp? && Arithmetic(e.op) then
      bare.OBin? && bare.op == e.op && Mirrors(e.l, Decimal, sight, bare.l) && Mirrors(e.r, Decimal, sight, bare.r)
    else if e.UnOp? then bare.ONeg? && Mirrors(e.e, Decimal, sight, bare.e)
    else LeafMirrors(e, Decimal, sight, out)
  }

  // ----- calls

  ghost predicate ArgMirrors(e: Expr, t: VType, sight: Sight, args: seq<Arg>, i: nat)
    decreases e, 4
  {
    i < |args| && args[i].at == t && Mirrors(e, t, sight, args[i].e)
  }

  ghost predicate OptionMirrors(e: Option<Expr>, t: VType, sight: Sight, args: seq<Arg>, i: nat)
    decreases e
  {
    e.Some? ==> ArgMirrors(e.value, t, sight, args, i)
  }

  function Given(e: Option<Expr>): nat {
    if e.Some? then 1 else 0
  }

  ghost predicate HashMirrors(arg: HashArg, sight: Sight, out: OExpr)
    decreases arg
  {
    out.OApp? && out.f == Hash && |out.args| == 1 &&
    ArgMirrors(arg.e, HashedType(arg), sight, out.args, 0)
  }

  function HashedType(arg: HashArg): VType {
    match arg
    case StrArg(_) => Str(100)
    case BytesArg(_) => Bytes(100)
    case BytesMArg(_) => BytesM(32)
  }

  /** Target and data, then gas and value as far as they are given; by then more may be in sight. */
  ghost predicate RawCallArgs(rc: RawCallMessage, sight: Sight, later: Sight, args: seq<Arg>)
    decreases rc, 0
  {
    && |args| == 2 + Given(rc.gas) + Given(rc.value)
    && ArgMirrors(rc.to, Address, sight, args, 0) && ArgMirrors(rc.data, Bytes(100), sight, args, 1)
    && OptionMirrors(rc.gas, UINT, later, args, 2) && OptionMirrors(rc.value, UINT, later, args, 2 + Given(rc.gas))
  }

  ghost predicate RawCallMirrors(rc: RawCallMessage, size: nat, sight: Sight, out: OExpr)
    decreases rc, 1
  {
    out.OApp? && out.f == RawCall(size, rc.static_.boolval) && RawCallArgs(rc, sight, sight, out.args)
  }

  ghost predicate AddressMirrors(e: Expr, sight: Sight, out: OExpr)
    decreases e, 2
  {
    if e.CreateProxy? && !sight.constant then ProxyMirrors(e, sight, out)
    else if e.CreateFromBlueprint? && !sight.constant then BlueprintMirrors(e, sight, out)
    else if e.EcRec? then EcRecMirrors(e, sight, out)
    else LeafMirrors(e, Address, sight, out)
  }

  ghost predicate ProxyMirrors(e: Expr, sight: Sight, out: OExpr)
    requires e.CreateProxy?
    decreases e, 1
  {
    && out.OApp? && out.f == Create && |out.args| == 1 + Given(e.value) + Given(e.salt)
    && ArgMirrors(e.target, Address, sight, out.args, 0)
    && OptionMirrors(e.value, UINT, sight, out.args, 1)
    && OptionMirrors(e.salt, BytesM(32), sight, out.args, 1 + Given(e.value))
  }

  /** The raw arguments are written if their flag is set. */
  function RawCount(e: Expr): nat
    requires e.CreateFromBlueprint?
  {
    if e.rawArgs.Some? && e.rawArgs.value.flag.boolval then 1 else 0
  }

  ghost predicate BlueprintMirrors(e: Expr, sight: Sight, out: OExpr)
    requires e.CreateFromBlueprint?
    decreases e, 1
  {
    var raw := RawCount(e);
    && out.OApp? && out.f == Create
    && |out.args| == 1 + raw + Given(e.value) + Given(e.codeOffset) + Given(e.salt)
    && ArgMirrors(e.target, Address, sight, out.args, 0)
    && (raw == 1 ==> ArgMirrors(e.rawArgs.value.arg, Bytes(100), sight, out.args, 1))
    && OptionMirrors(e.value, UINT, sight, out.args, 1 + raw)
    && OptionMirrors(e.codeOffset, UINT, sight, out.args, 1 + raw + Given(e.value))
    && OptionMirrors(e.salt, BytesM(32), sight, out.args, 1 + raw + Given(e.value) + Given(e.codeOffset))
  }

  /** Each of v, r and s comes from its first field if that is set and from its second otherwise. */
  ghost predicate EcRecMirrors(e: Expr, sight: Sight, out: OExpr)
    requires e.EcRec?
    decreases e, 1
  {
    && out.OApp? && out.f == EcRecover && |out.args| == 4
    && ArgMirrors(e.hash, BytesM(32), sight, out.args, 0)
    && (if e.v8.Some? then ArgMirrors(e.v8.value, Int(8, false), sight, out.args, 1)
        else ArgMirrors(e.vi, UINT, sight, out.args, 1))
    && (if e.rb.Some? then ArgMirrors(e.rb.value, BytesM(32), sight, out.args, 2)
        else ArgMirrors(e.ri, UINT, sight, out.args, 2))
    && (if e.sb.Some? then ArgMirrors(e.sb.value, BytesM(32), sight, out.args, 3)
        else ArgMirrors(e.si, UINT, sight, out.args, 3))
  }

  // ----- concatenations and lists

  ghost predicate PartMirrors(part: Part, t: VType, size: nat, sight: Sight, a: Arg)
    decreases part
  {
    if t.Bytes? && part.bm.Some? && size != 0 then
      a.at == BytesM(if size <= 32 then size else 32) && Mirrors(part.bm.value, a.at, sight, a.e)
    else a.at == (if t.Str? then Str(size) else Bytes(size)) && Mirrors(part.e, a.at, sight, a.e)
  }

  /** Further parts are taken in order, each if it still fits. */
  ghost predicate MoreParts(parts: seq<Part>, t: VType, sight: Sight, args: seq<Arg>)
    decreases parts
  {
    if parts == [] then |args| == 2
    else
      var front, last := parts[..|parts| - 1], parts[|parts| - 1];
      || (|args| > 2 && HasCapacity(t) && TotalSize(args[..|args| - 1]) + last.size <= t.m &&
          PartMirrors(last, t, last.size, sight, args[|args| - 1]) && MoreParts(front, t, sight, args[..|args| - 1]))
      || (HasCapacity(t) && TotalSize(args) + last.size > t.m && MoreParts(front, t, sight, args))
  }

  ghost predicate ConcatMirrors(e: Expr, t: VType, sight: Sight, out: OExpr)
    requires e.ConcatOf? && HasCapacity(t)
    decreases e, 0
  {
    var (a, b) := ScaledSizes(e.a.size, e.b.size, t.m);
    && out.OApp? && out.f == Concat && |out.args| >= 2
    && PartMirrors(e.a, t, a, sight, out.args[0]) && PartMirrors(e.b, t, b, sight, out.args[1])
    && MoreParts(e.c, t, sight, out.args)
  }

  /** The first two parts are as large as asked for if both fit; otherwise each has its own share of the capacity. */
  lemma FirstParts(e: Expr, t: VType, sight: Sight, out: OExpr)
    requires e.ConcatOf? && HasCapacity(t) && ConcatMirrors(e, t, sight, out)
    ensures exists p: nat, q: nat ::
              && SizedPart(e.a, t, p, out.args[0].at) && SizedPart(e.b, t, q, out.args[1].at)
              && ShareOf(e.a.size, e.a.size + e.b.size, t.m, p) && ShareOf(e.b.size, e.a.size + e.b.size, t.m, q)
  {
    hide Mirrors, MoreParts;
    var (p, q) := ScaledSizes(e.a.size, e.b.size, t.m);
    assert SizedPart(e.a, t, p, out.args[0].at) && SizedPart(e.b, t, q, out.args[1].at);
  }

  predicate ShareOf(size: nat, total: nat, max: nat, share: nat) {
    if total <= max then share == size else share * total <= size * max < (share + 1) * total
  }

  predicate SizedPart(part: Part, t: VType, size: nat, at: VType) {
    at == if t.Bytes? && part.bm.Some? && size != 0 then BytesM(if size <= 32 then size else 32)
          else if t.Str? then Str(size) else Bytes(size)
  }

  /** How many of the n + 1 items of a list message a list of this size takes. */
  function Taken(n: nat, size: nat): nat {
    if n + 1 < size then n + 1 else size
  }

  /** A literal, or a list of such. */
  predicate Literally(e: OExpr) {
    e.OInt? || e.OLit? || (e.OApp? && e.f == ListLiteral && forall i :: 0 <= i < |e.args| ==> Literally(e.args[i].e))
  }

  /** The items of the message as far as they are taken; a fixed list is filled up with literals. */
  ghost predicate ItemsMirror(e: Expr, t: VType, sight: Sight, args: seq<Arg>)
    requires e.ListOf? && IsList(t)
    decreases e, 0
  {
    && ArgMirrors(e.rexp, t.base, sight, args, 0)
    && |args| >= Taken(|e.exps|, t.size) && (t.DynArray? ==> |args| == Taken(|e.exps|, t.size))
    && (forall i :: 0 <= i < |e.exps| && i + 1 < t.size ==> ArgMirrors(e.exps[i], t.base, sight, args, i + 1))
    && forall i :: Taken(|e.exps|, t.size) <= i < |args| ==> Literally(args[i].e)
  }

  ghost predicate ListMirrors(e: Expr, t: VType, sight: Sight, out: OExpr)
    requires IsList(t)
    decreases e, 2
  {
    if e.ListOf? && e.other.ListVar? && out.ORef? then NameOk(out.name, t, sight.env)
    else if e.ListOf? && e.other.EcAddOf? && PointType(t) then
      && out.OApp? && out.f == EcAdd && |out.args| == 2
      && ArgMirrors(e.other.x, POINT, sight, out.args, 0) && ArgMirrors(e.other.y, POINT, sight, out.args, 1)
    else if e.ListOf? && e.other.EcMulOf? && PointType(t) then
      && out.OApp? && out.f == EcMul && |out.args| == 2
      && ArgMirrors(e.other.point, POINT, sight, out.args, 0) && ArgMirrors(e.other.scalar, UINT, sight, out.args, 1)
    else
      && out.OApp? && out.f == ListLiteral && (if e.ListOf? then ItemsMirror(e, t, sight, out.args) else Literally(out))
      && (e.ListOf? && e.other.ListVar? ==> NoneToRead(t, sight))
  }

  // ----- statements

  ghost predicate TypedMirrors(te: TypedExpr, t: VType, sight: Sight, out: OExpr) {
    Mirrors(FieldFor(te, t), t, sight, out)
  }

  /** Argument i is written for field i of the payload, at the i-th declared type. */
  ghost predicate PayloadMirrors(p: Payload, types: seq<VType>, sight: Sight, values: seq<OExpr>) {
    |values| == |types| <= 5 && forall i :: 0 <= i < |values| ==> TypedMirrors(Values(p)[i], types[i], sight, values[i])
  }

  function Expressions(args: seq<Arg>): (r: seq<OExpr>)
    ensures |r| == |args| && forall i :: 0 <= i < |r| ==> r[i] == args[i].e
  {
    seq(|args|, i requires 0 <= i < |args| => args[i].e)
  }

  /** A declaration stands in only where nothing can be assigned to. */
  ghost predicate AssignmentMirrors(a: Assignment, sight: Sight, out: seq<OStmt>) {
    var t := ExtractType(a.refId);
    |out| == 1 &&
    match out[0]
    case SAssign(x, value) => x.wanted == t && TypedMirrors(a.value, t, sight, value)
    case SDecl(_, dt, value) => dt == t && TypedMirrors(a.value, t, sight, value) && NothingFits(t, sight.env, true)
    case _ => false
  }

  /** The last argument is an error message; the empty literal is left out. */
  ghost predicate MessageMirrors(e: Expr, sight: Sight, args: seq<Arg>, k: nat) {
    if |args| == k then Mirrors(e, Str(100), sight, OLit(Str(100), ""))
    else |args| == k + 1 && args[k].e != OLit(Str(100), "") && ArgMirrors(e, Str(100), sight, args, k)
  }

  ghost predicate ActionIs(act: Action, out: seq<OStmt>) {
    |out| == 1 && out[0].SAct? && out[0].act == act
  }

  ghost predicate ExitMirrors(exit: ExitStmt, force: bool, outputs: seq<VType>, sight: Sight, out: seq<OStmt>) {
    if !exit.kind.PlainExit? then ActionExitMirrors(exit.kind, sight, out)
    else if |outputs| > 0 || exit.flag || force then
      |out| == 1 && out[0].SReturn? && PayloadMirrors(exit.payload, outputs, sight, out[0].values)
    else out == [SBlank]
  }

  ghost predicate ActionExitMirrors(kind: ExitKind, sight: Sight, out: seq<OStmt>) {
    match kind
    case SelfdExit(to) =>
      ActionIs(SelfDestruct, out) && |out[0].args| == 1 && ArgMirrors(to, Address, sight, out[0].args, 0)
    case RaiseExit(errval) => ActionIs(Raise, out) && MessageMirrors(errval, sight, out[0].args, 0)
    case RevertExit(data) =>
      ActionIs(RawRevert, out) && |out[0].args| == 1 && ArgMirrors(data, Bytes(100), sight, out[0].args, 0)
    case PlainExit => false
  }

  ghost predicate RangeMirrors(iter: ForIter, sight: Sight, range: ORange) {
    match iter
    case Ranged(a, b) =>
      range == if a < b then Constants(a, b) else if b < a then Constants(b, a) else Constants(a, a + 1)
    case Variable(refId, len) =>
      var length := if len == 0 then 1 else len;
      if range.FromName? then refId && range.length == length
      else range == UpTo(length) && (refId ==> NothingFits(UINT, sight.env, false))
  }

  /** What is in scope at the last statement. */
  ghost function EnvAtLast(out: seq<OStmt>, env: Env, level: nat): Env
    requires |out| > 0
  {
    EnvAfter(out[..|out| - 1], env, level)
  }

  /** A call result of type t may be captured under the name n. */
  ghost predicate Holds(n: Name, t: VType, env: Env) {
    exists d :: d in env && d.mutable && Offers(d, n, t, true)
  }

  ghost predicate Declares(decls: seq<OStmt>, n: Name) {
    exists m :: 0 <= m < |decls| && decls[m].SDeclEmpty? && decls[m].name == n
  }

  /** Nothing holds the result, or something that already receives an earlier one does. */
  ghost predicate NoneFree(t: VType, taken: seq<Name>, before: Env, after: Env) {
    (forall n :: !Holds(n, t, before)) || exists k :: 0 <= k < |taken| && Holds(taken[k], t, after)
  }

  /** A variable is declared for a result only where none is free. */
  ghost predicate DeclaredForNeed(decls: seq<OStmt>, xs: seq<Target>, types: seq<VType>, env: Env, after: Env) {
    |xs| == |types| &&
    forall i :: 0 <= i < |xs| && Declares(decls, xs[i].name) ==> NoneFree(types[i], NamesOfTargets(xs[..i]), env, after)
  }

  function NamesOfTargets(xs: seq<Target>): (r: seq<Name>)
    ensures |r| == |xs| && forall i :: 0 <= i < |r| ==> r[i] == xs[i].name
  {
    seq(|xs|, i requires 0 <= i < |xs| => xs[i].name)
  }

  /** The results go to variables declared before the call or found, the arguments come from the payload. */
  ghost predicate CallMirrors(py: Python, f: nat, params: Payload, sig: Sig, env: Env, level: nat, out: seq<OStmt>) {
    && |out| > 0 && out[|out| - 1].SCall? && out[|out| - 1].f == f
    && PayloadMirrors(params, sig.inputs, Sight(false, EnvAtLast(out, env, level), py),
                      Expressions(out[|out| - 1].args))
    && DeclaredForNeed(out[..|out| - 1], out[|out| - 1].targets, sig.outputs, env, EnvAtLast(out, env, level))
    && forall i :: 0 <= i < |out| - 1 ==> out[i].SDeclEmpty?
  }

  /** A status is captured unless the call reverts on failure, a response unless its size is zero. The response
      is chosen before gas and value are written, the status after; either is declared only if nothing fits. */
  ghost predicate RawCallStmtMirrors(py: Python, rc: RawCallMessage, env: Env, level: nat, out: seq<OStmt>) {
    var size := ResponseSize(rc);
    |out| > 0 && CapturesAs(out[|out| - 1], StatusTypes(rc) + ResponseTypes(size)) &&
    var call, later := ValueOf(out[|out| - 1]), env + DeclaredAs(Bytes(size), out, level);
    && call.OApp? && call.f == RawCall(size, rc.static_.boolval)
    && RawCallArgs(rc, Sight(false, env, py), Sight(false, later, py), call.args)
    && (forall i :: 0 <= i < |out| - 1 ==> EmptyDeclaration(out[i]))
    && (DeclaredAs(Bytes(size), out, level) != {} ==> NothingFits(Bytes(size), env, true))
    && (DeclaredAs(Bool, out, level) != {} ==> NothingFits(Bool, later, true))
  }

  /** A declaration with a literal as its value. */
  predicate EmptyDeclaration(s: OStmt) {
    s.SDecl? && s.value.OLit?
  }

  function ResponseSize(rc: RawCallMessage): nat {
    var max := Generate(256, false, rc.maxOut.intval);
    if max > 100 then 100 else max
  }

  function StatusTypes(rc: RawCallMessage): seq<VType> {
    if rc.revert.boolval then [] else [Bool]
  }

  function ResponseTypes(size: nat): seq<VType> {
    if size == 0 then [] else [Bytes(size)]
  }

  /** The variables of this type that these statements declare. */
  function DeclaredAs(t: VType, out: seq<OStmt>, level: nat): Env {
    if out == [] then {}
    else
      DeclaredAs(t, out[..|out| - 1], level) +
      (set d | d in DeclaredBy(out[|out| - 1], level) && d.t == t)
  }

  /** Either a capture into variables of the given types, or the declaration of the only one. */
  ghost predicate CapturesAs(s: OStmt, types: seq<VType>) {
    match s
    case SRawCall(xs, _) => |xs| == |types| && forall i :: 0 <= i < |xs| ==> xs[i].wanted == types[i]
    case SDecl(_, t, _) => types == [t]
    case SDeclRawCall(_, t, _) => types == [t]
    case _ => false
  }

  function ValueOf(s: OStmt): OExpr {
    match s
    case SRawCall(_, value) => value
    case SDecl(_, _, value) => value
    case SDeclRawCall(_, _, value) => value
    case _ => OInt(0)
  }

  const ANY_ARRAY := DynArray(MAX_LIST_SIZE, NoType)

  /** Where a statement stands: the functions its body may call, how many functions there are, whether it is in
      a loop, and its level. */
  datatype Place = Place(cx: Ctx, functions: nat, inLoop: bool, level: nat, py: Python)

  function Nested(p: Place, inLoop: bool): Place {
    p.(inLoop := inLoop, level := p.level + 1)
  }

  /** `out` is written for statement s where env is in scope. */
  ghost predicate StmtMirrors(s: Stmt, p: Place, env: Env, out: seq<OStmt>)
    decreases s, 1
  {
    var sight := Sight(false, env, p.py);
    match s.kind
    case NoKind => AssignmentMirrors(s.assignment, sight, out)
    case DeclStmt(t, value) =>
      && |out| == 1 && out[0].SDecl? && out[0].t == ExtractType(t)
      && TypedMirrors(value, ExtractType(t), sight, out[0].value)
    case ForStmt(iter, body) =>
      |out| == 1 && out[0].SFor? && RangeMirrors(iter, sight, out[0].range) &&
      BlockMirrors(body, Nested(p, true), env + {CounterDecl(out[0].counter, p.level)}, out[0].body)
    case IfStmt(cases, els) =>
      |out| == 1 && out[0].SIf? && CasesMirror(cases, p, env, out[0].cases) && ElseMirrors(els, p, env, out[0].els)
    case CallStmt(num, params) =>
      if p.functions > 0 && num % p.functions in p.cx.callable then
        CallMirrors(p.py, num % p.functions, params, p.cx.callable[num % p.functions], env, p.level, out)
      else AssignmentMirrors(s.assignment, sight, out)
    case ContinueStmt => if p.inLoop then out == [SContinue] else AssignmentMirrors(s.assignment, sight, out)
    case BreakStmt => if p.inLoop then out == [SBreak] else AssignmentMirrors(s.assignment, sight, out)
    case AssertStmt(cond, reason) =>
      && ActionIs(Assert, out) && ArgMirrors(cond, Bool, sight, out[0].args, 0)
      && MessageMirrors(reason, sight, out[0].args, 1)
    case AppendStmt(item) =>
      if NothingFits(ANY_ARRAY, env, true) then AssignmentMirrors(s.assignment, sight, out)
      else |out| == 1 && out[0].SAppend? && TypedMirrors(item, out[0].item, sight, out[0].value)
    case PopStmt =>
      if NothingFits(ANY_ARRAY, env, true) then AssignmentMirrors(s.assignment, sight, out)
      else |out| == 1 && out[0].SPop?
    case SendStmt(to, amount, gas) =>
      && ActionIs(Send, out) && |out[0].args| == 2 + Given(gas) && ArgMirrors(to, Address, sight, out[0].args, 0)
      && ArgMirrors(amount, UINT, sight, out[0].args, 1) && OptionMirrors(gas, UINT, sight, out[0].args, 2)
    case RawCallStmt(rc) => RawCallStmtMirrors(p.py, rc, env, p.level, out)
    case RawLogStmt(topics, amount, dataBs, dataBm) =>
      && ActionIs(RawLog, out) && |out[0].args| == 2
      && ArgMirrors(topics, FixedList((amount - 1) % 4 + 1, BytesM(32)), sight, out[0].args, 0)
      && (if dataBs.Some? then ArgMirrors(dataBs.value, Bytes(100), sight, out[0].args, 1)
          else ArgMirrors(dataBm, BytesM(32), sight, out[0].args, 1))
  }

  /** The counter of a loop is a read-only variable of the body's level. */
  function CounterDecl(counter: Name, level: nat): Decl {
    Decl(counter, level + 1, UINT, false, 0)
  }

  /** One branch per case, or a single one that is never taken. */
  ghost predicate CasesMirror(cases: seq<IfCase>, p: Place, env: Env, out: seq<OCase>)
    decreases cases
  {
    if cases == [] then out == [OCase(OLit(Bool, "False"), [SPass])]
    else |out| == |cases| && forall i :: 0 <= i < |cases| ==> CaseMirrors(cases[i], p, env, out[i])
  }

  ghost predicate CaseMirrors(x: IfCase, p: Place, env: Env, out: OCase)
    decreases x
  {
    && Mirrors(x.cond, Bool, Sight(false, env, p.py), out.cond)
    && BlockMirrors(x.ifBody, Nested(p, p.inLoop), env, out.body)
  }

  ghost predicate ElseMirrors(els: Option<Block>, p: Place, env: Env, out: seq<OStmt>)
    decreases els
  {
    if els.None? then out == [] else BlockMirrors(els.value, Nested(p, p.inLoop), env, out)
  }

  /** A group of statements for every statement of the message, in order. */
  ghost predicate GroupsMirror(ss: seq<Stmt>, p: Place, env: Env, out: seq<OStmt>)
    decreases ss
  {
    if ss == [] then out == []
    else exists k :: GroupEnds(out, k) && GroupsMirror(ss[..|ss| - 1], p, env, out[..k]) &&
                     StmtMirrors(ss[|ss| - 1], p, EnvAfter(out[..k], env, p.level), out[k..])
  }

  predicate GroupEnds(out: seq<OStmt>, k: int) {
    0 <= k <= |out|
  }

  /** The statements, then the exit where one is due: at the top, on request, or if there is nothing else. */
  ghost predicate BlockMirrors(block: Block, p: Place, env: Env, out: seq<OStmt>)
    decreases block
  {
    exists k :: GroupEnds(out, k) && GroupsMirror(block.statements, p, env, out[..k]) &&
                if p.level == 1 || block.exit.flag || |block.statements| == 0
                then ExitMirrors(block.exit, |block.statements| == 0, p.cx.outputs,
                                 Sight(false, EnvAfter(out[..k], env, p.level), p.py), out[k..])
                else k == |out|
  }

  // ----- how the relation is put together

  /** Messages that are written as a variable, a conversion or a literal. */
  predicate IsLeaf(e: Expr, t: VType, sight: Sight) {
    match t
    case Int(n, _) => n > 0 && !(e.BinOp? && Arithmetic(e.op)) && !e.UnOp?
    case Bool =>
      !(e.BoolBinOp? && Logical(e.op)) && !e.BoolUnOp? && !((e.IntBoolBinOp? || e.DecBoolBinOp?) && Comparison(e.op)) &&
      !(e.RawCallExpr? && !sight.constant)
    case Decimal => !(e.BinOp? && Arithmetic(e.op)) && !e.UnOp?
    case Address => !(e.CreateProxy? && !sight.constant) && !(e.CreateFromBlueprint? && !sight.constant) && !e.EcRec?
    case BytesM(_) => !e.HashOf?
    case Bytes(m) => !(e.RawCallExpr? && !sight.constant && m > 0) && !e.ConcatOf?
    case Str(_) => !e.ConcatOf?
    case _ => false
  }

  lemma LeafIsNoList(e: Expr, t: VType, sight: Sight)
    requires IsLeaf(e, t, sight)
    ensures !IsList(t)
  {
  }

  lemma LeafSuffices(e: Expr, t: VType, sight: Sight, out: OExpr)
    requires IsLeaf(e, t, sight) && LeafMirrors(e, t, sight, out)
    ensures Mirrors(e, t, sight, out)
  {
    hide LeafMirrors;
  }

  lemma LeafRef(e: Expr, t: VType, sight: Sight, out: OExpr)
    requires e.VarRef? && out.ORef? && NameOk(out.name, t, sight.env)
    ensures LeafMirrors(e, t, sight, out)
  {
  }

  /** There is no variable to read and nothing to convert. */
  ghost predicate LeavesLiteral(e: Expr, t: VType, sight: Sight) {
    if e.VarRef? then NoneToRead(t, sight) else ConversionSource(e, t).None?
  }

  lemma NoVariable(e: Expr, t: VType, sight: Sight)
    requires e.VarRef? && NoneToRead(t, sight)
    ensures LeavesLiteral(e, t, sight)
  {
  }

  lemma NoConversion(e: Expr, t: VType, sight: Sight)
    requires !e.VarRef? && ConversionSource(e, t).None?
    ensures LeavesLiteral(e, t, sight)
  {
  }

  lemma LeafLiteral(e: Expr, t: VType, sight: Sight, out: OExpr)
    requires LeavesLiteral(e, t, sight)
    requires LiteralMirrors(LiteralOf(e), t, out)
    ensures LeafMirrors(e, t, sight, out)
  {
  }

  lemma ConvertedIs(py: Python, e: Expr, from: VType, t: VType, inner: OExpr)
    ensures var known := if t.Int? && t.n > 0 && (e.ConvertInt? || e.ConvertDecimal?)
                         then CheckLiteralBounds(py, t, inner) else inner;
            Converted(py, e, from, t, inner) ==
            OApp(Convert(t), [Arg(known, if known == inner || known == OMinus(inner) then from else t)])
  {
  }

  lemma LeafConversion(e: Expr, t: VType, sight: Sight, from: VType, inner: OExpr)
    requires ConversionSource(e, t) == Some(from) && Mirrors(e.e, from, sight, inner)
    ensures LeafMirrors(e, t, sight, Converted(sight.py, e, from, t, inner))
  {
  }

  lemma IntBinMirrors(e: Expr, t: VType, sight: Sight, l: OExpr, r: OExpr, out: OExpr)
    requires t.Int? && t.n > 0 && e.BinOp? && Arithmetic(e.op)
    requires Mirrors(e.l, t, sight, l) && Mirrors(e.r, t, sight, r) && Enclosed(l) && Enclosed(r)
    requires Bare(out) == Folded(sight.py, t, l, e.op, r)
    ensures Mirrors(e, t, sight, out)
  {
  }

  lemma IntUnMirrors(e: Expr, t: VType, sight: Sight, x: OExpr, out: OExpr)
    requires t.Int? && t.n > 0 && e.UnOp? && Mirrors(e.e, t, sight, x) && Enclosed(x)
    requires if t.signed then Bare(out) == CheckLiteralBounds(sight.py, t, ONeg(x)) else out == x
    ensures Mirrors(e, t, sight, out)
  {
  }

  lemma BoolBinMirrors(e: Expr, sight: Sight, l: OExpr, r: OExpr, out: OExpr)
    requires e.BoolBinOp? && Logical(e.op) && Mirrors(e.l, Bool, sight, l) && Mirrors(e.r, Bool, sight, r)
    requires Bare(out) == OBin(e.op, l, r)
    ensures Mirrors(e, Bool, sight, out)
  {
  }

  lemma BoolNotMirrors(e: Expr, sight: Sight, x: OExpr, out: OExpr)
    requires e.BoolUnOp? && Mirrors(e.e, Bool, sight, x) && Bare(out) == ONot(x)
    ensures Mirrors(e, Bool, sight, out)
  {
  }

  lemma ComparisonMirrors(e: Expr, sight: Sight, l: OExpr, r: OExpr, out: OExpr)
    requires (e.IntBoolBinOp? || e.DecBoolBinOp?) && Comparison(e.op)
    requires var t := if e.IntBoolBinOp? then UINT else Decimal; Mirrors(e.l, t, sight, l) && Mirrors(e.r, t, sight, r)
    requires Bare(out) == OBin(e.op, l, r)
    ensures Mirrors(e, Bool, sight, out)
  {
  }

  lemma DecimalBinMirrors(e: Expr, sight: Sight, l: OExpr, r: OExpr, out: OExpr)
    requires e.BinOp? && Arithmetic(e.op) && Mirrors(e.l, Decimal, sight, l) && Mirrors(e.r, Decimal, sight, r)
    requires Bare(out) == OBin(e.op, l, r)
    ensures Mirrors(e, Decimal, sight, out)
  {
  }

  lemma DecimalNegMirrors(e: Expr, sight: Sight, x: OExpr, out: OExpr)
    requires e.UnOp? && Mirrors(e.e, Decimal, sight, x) && Bare(out) == ONeg(x)
    ensures Mirrors(e, Decimal, sight, out)
  {
  }

  lemma HashOfMirrors(e: Expr, t: VType, sight: Sight, hash: OExpr, out: OExpr)
    requires t.BytesM? && e.HashOf? && HashMirrors(e.arg, sight, hash)
    requires out == if t.m == 32 then hash else OApp(Convert(t), [Arg(hash, BytesM(32))])
    ensures Mirrors(e, t, sight, out)
  {
    hide HashMirrors;
  }

  lemma RawCallAsBool(e: Expr, sight: Sight, out: OExpr)
    requires e.RawCallExpr? && !sight.constant && RawCallMirrors(e.rc, 0, sight, out)
    ensures Mirrors(e, Bool, sight, out)
  {
    hide RawCallMirrors;
  }

  lemma RawCallAsBytes(e: Expr, t: VType, sight: Sight, out: OExpr)
    requires e.RawCallExpr? && !sight.constant && t.Bytes? && t.m > 0 && RawCallMirrors(e.rc, t.m, sight, out)
    ensures Mirrors(e, t, sight, out)
  {
    hide RawCallMirrors;
  }

  lemma ConcatSuffices(e: Expr, t: VType, sight: Sight, out: OExpr)
    requires e.ConcatOf? && (t.Bytes? || t.Str?) && ConcatMirrors(e, t, sight, out)
    ensures Mirrors(e, t, sight, out)
  {
    hide ConcatMirrors;
  }

  lemma AddressSuffices(e: Expr, sight: Sight, out: OExpr)
    requires AddressMirrors(e, sight, out)
    ensures Mirrors(e, Address, sight, out)
  {
    hide AddressMirrors;
  }

  lemma ListVarSuffices(e: Expr, t: VType, sight: Sight, out: OExpr)
    requires IsList(t) && e.ListOf? && e.other.ListVar? && out.ORef? && NameOk(out.name, t, sight.env)
    ensures Mirrors(e, t, sight, out)
  {
  }

  lemma PointSuffices(e: Expr, t: VType, sight: Sight, out: OExpr)
    requires PointType(t) && e.ListOf? && out.OApp? && |out.args| == 2
    requires || (e.other.EcAddOf? && out.f == EcAdd && ArgMirrors(e.other.x, POINT, sight, out.args, 0) &&
                 ArgMirrors(e.other.y, POINT, sight, out.args, 1))
             || (e.other.EcMulOf? && out.f == EcMul && ArgMirrors(e.other.point, POINT, sight, out.args, 0) &&
                 ArgMirrors(e.other.scalar, UINT, sight, out.args, 1))
    ensures Mirrors(e, t, sight, out)
  {
    hide ArgMirrors;
  }

  lemma ItemsSuffice(e: Expr, t: VType, sight: Sight, out: OExpr)
    requires IsList(t) && out.OApp? && out.f == ListLiteral
    requires if e.ListOf? then ItemsMirror(e, t, sight, out.args) else Literally(out)
    requires PointType(t) ==> !(e.ListOf? && (e.other.EcAddOf? || e.other.EcMulOf?))
    requires e.ListOf? && e.other.ListVar? ==> NoneToRead(t, sight)
    ensures Mirrors(e, t, sight, out)
  {
    hide ItemsMirror;
  }

  lemma NoMoreParts(t: VType, sight: Sight, args: seq<Arg>)
    requires |args| == 2
    ensures MoreParts([], t, sight, args)
  {
  }

  lemma MorePartsSkip(parts: seq<Part>, k: nat, t: VType, sight: Sight, args: seq<Arg>)
    requires k < |parts| && HasCapacity(t) && MoreParts(parts[..k], t, sight, args)
    ensures TotalSize(args) + parts[k].size > t.m ==> MoreParts(parts[..k + 1], t, sight, args)
  {
    hide PartMirrors, TotalSize;
    assert parts[..k + 1][..k] == parts[..k];
  }

  lemma MorePartsTake(parts: seq<Part>, k: nat, t: VType, sight: Sight, args: seq<Arg>, a: Arg)
    requires k < |parts| && HasCapacity(t) && |args| >= 2 && MoreParts(parts[..k], t, sight, args)
    requires TotalSize(args) + parts[k].size <= t.m && PartMirrors(parts[k], t, parts[k].size, sight, a)
    ensures MoreParts(parts[..k + 1], t, sight, args + [a])
  {
    hide PartMirrors, TotalSize;
    assert parts[..k + 1][..k] == parts[..k];
    assert (args + [a])[..|args|] == args;
  }

  predicate StartsWith(more: seq<Arg>, args: seq<Arg>) {
    args <= more
  }

  lemma ArgKept(e: Expr, t: VType, sight: Sight, args: seq<Arg>, more: seq<Arg>, i: nat)
    requires ArgMirrors(e, t, sight, args, i) && StartsWith(more, args)
    ensures ArgMirrors(e, t, sight, more, i)
  {
    hide Mirrors;
    assert more[i] == args[i];
  }

  lemma OptionKept(e: Option<Expr>, t: VType, sight: Sight, args: seq<Arg>, more: seq<Arg>, i: nat)
    requires OptionMirrors(e, t, sight, args, i) && StartsWith(more, args)
    ensures OptionMirrors(e, t, sight, more, i)
  {
    hide ArgMirrors;
    if e.Some? { ArgKept(e.value, t, sight, args, more, i); }
  }

  lemma FivePrefixes(a: seq<Arg>, b: seq<Arg>, c: seq<Arg>, d: seq<Arg>, e: seq<Arg>)
    requires a <= b && b <= c && c <= d && d <= e
    ensures StartsWith(e, a) && StartsWith(e, b) && StartsWith(e, c) && StartsWith(e, d)
  {
    assert c <= e;
    assert b <= e;
  }

  /** The arguments of a creation from a blueprint, from the lists they grew through. */
  lemma BlueprintKept(e: Expr, sight: Sight, target: seq<Arg>, raw: seq<Arg>, value: seq<Arg>, offset: seq<Arg>,
                    args: seq<Arg>)
    requires e.CreateFromBlueprint?
    requires StartsWith(args, target) && StartsWith(args, raw) && StartsWith(args, value) && StartsWith(args, offset)
    requires ArgMirrors(e.target, Address, sight, target, 0)
    requires RawCount(e) == 1 ==> ArgMirrors(e.rawArgs.value.arg, Bytes(100), sight, raw, 1)
    requires OptionMirrors(e.value, UINT, sight, value, |raw|)
    requires OptionMirrors(e.codeOffset, UINT, sight, offset, |value|)
    requires OptionMirrors(e.salt, BytesM(32), sight, args, |offset|)
    ensures ArgMirrors(e.target, Address, sight, args, 0)
    ensures RawCount(e) == 1 ==> ArgMirrors(e.rawArgs.value.arg, Bytes(100), sight, args, 1)
    ensures OptionMirrors(e.value, UINT, sight, args, |raw|)
    ensures OptionMirrors(e.codeOffset, UINT, sight, args, |value|)
  {
    hide ArgMirrors, OptionMirrors, StartsWith;
    ArgKept(e.target, Address, sight, target, args, 0);
    if RawCount(e) == 1 { ArgKept(e.rawArgs.value.arg, Bytes(100), sight, raw, args, 1); }
    OptionKept(e.value, UINT, sight, value, args, |raw|);
    OptionKept(e.codeOffset, UINT, sight, offset, args, |value|);
  }

  lemma ProxyAre(e: Expr, sight: Sight, args: seq<Arg>)
    requires e.CreateProxy? && |args| == 1 + Given(e.value) + Given(e.salt)
    requires ArgMirrors(e.target, Address, sight, args, 0)
    requires OptionMirrors(e.value, UINT, sight, args, 1)
    requires OptionMirrors(e.salt, BytesM(32), sight, args, 1 + Given(e.value))
    ensures ProxyMirrors(e, sight, OApp(Create, args))
  {
    hide ArgMirrors, OptionMirrors, Given;
  }

  lemma BlueprintAre(e: Expr, sight: Sight, args: seq<Arg>)
    requires e.CreateFromBlueprint?
    requires |args| == 1 + RawCount(e) + Given(e.value) + Given(e.codeOffset) + Given(e.salt)
    requires ArgMirrors(e.target, Address, sight, args, 0)
    requires RawCount(e) == 1 ==> ArgMirrors(e.rawArgs.value.arg, Bytes(100), sight, args, 1)
    requires OptionMirrors(e.value, UINT, sight, args, 1 + RawCount(e))
    requires OptionMirrors(e.codeOffset, UINT, sight, args, 1 + RawCount(e) + Given(e.value))
    requires OptionMirrors(e.salt, BytesM(32), sight, args, 1 + RawCount(e) + Given(e.value) + Given(e.codeOffset))
    ensures BlueprintMirrors(e, sight, OApp(Create, args))
  {
    hide ArgMirrors, OptionMirrors, Given;
  }

  lemma RawCallArgsAre(rc: RawCallMessage, sight: Sight, later: Sight, b: seq<Arg>, gas: seq<Arg>, value: seq<Arg>)
    requires |b| == 2 && b <= gas && |gas| == 2 + Given(rc.gas) && gas <= value
    requires |value| == |gas| + Given(rc.value)
    requires ArgMirrors(rc.to, Address, sight, b, 0) && ArgMirrors(rc.data, Bytes(100), sight, b, 1)
    requires OptionMirrors(rc.gas, UINT, later, gas, 2) && OptionMirrors(rc.value, UINT, later, value, |gas|)
    ensures RawCallArgs(rc, sight, later, value)
  {
    hide ArgMirrors, OptionMirrors;
    ArgKept(rc.to, Address, sight, b, value, 0);
    ArgKept(rc.data, Bytes(100), sight, b, value, 1);
    OptionKept(rc.gas, UINT, later, gas, value, 2);
  }

  lemma CallIs(py: Python, f: nat, params: Payload, sig: Sig, env: Env, level: nat, decls: seq<OStmt>, call: OStmt)
    requires call.SCall? && call.f == f
    requires PayloadMirrors(params, sig.inputs, Sight(false, EnvAfter(decls, env, level), py), Expressions(call.args))
    requires forall i :: 0 <= i < |decls| ==> decls[i].SDeclEmpty?
    requires DeclaredForNeed(decls, call.targets, sig.outputs, env, EnvAfter(decls, env, level))
    ensures CallMirrors(py, f, params, sig, env, level, decls + [call])
  {
    hide PayloadMirrors, EnvAfter, DeclaredForNeed;
    assert (decls + [call])[..|decls|] == decls;
  }

  lemma NoGroups(ss: seq<Stmt>, p: Place, env: Env)
    ensures GroupsMirror(ss[..0], p, env, [])
  {
  }

  lemma GroupsStep(ss: seq<Stmt>, i: nat, p: Place, env: Env, out: seq<OStmt>, more: seq<OStmt>)
    requires i < |ss| && GroupsMirror(ss[..i], p, env, out)
    requires StmtMirrors(ss[i], p, EnvAfter(out, env, p.level), more)
    ensures GroupsMirror(ss[..i + 1], p, env, out + more)
  {
    hide StmtMirrors, EnvAfter;
    var next := ss[..i + 1];
    assert next[..|next| - 1] == ss[..i];
    assert (out + more)[..|out|] == out && (out + more)[|out|..] == more && GroupEnds(out + more, |out|);
  }

  lemma BlockIs(block: Block, p: Place, env: Env, out: seq<OStmt>, exit: seq<OStmt>)
    requires GroupsMirror(block.statements, p, env, out)
    requires if p.level == 1 || block.exit.flag || |block.statements| == 0
             then ExitMirrors(block.exit, |block.statements| == 0, p.cx.outputs,
                              Sight(false, EnvAfter(out, env, p.level), p.py), exit)
             else exit == []
    ensures BlockMirrors(block, p, env, out + exit)
  {
    hide GroupsMirror, ExitMirrors, EnvAfter;
    var all := out + exit;
    assert all[..|out|] == out && all[|out|..] == exit && GroupEnds(all, |out|);
  }

  lemma BlockExits(block: Block, p: Place, env: Env, out: seq<OStmt>, exit: seq<OStmt>, sight: Sight)
    requires GroupsMirror(block.statements, p, env, out) && sight == Sight(false, EnvAfter(out, env, p.level), p.py)
    requires p.level == 1 || block.exit.flag || |block.statements| == 0
    requires ExitMirrors(block.exit, |block.statements| == 0, p.cx.outputs, sight, exit)
    ensures BlockMirrors(block, p, env, out + exit)
  {
    hide GroupsMirror, ExitMirrors, EnvAfter;
    BlockIs(block, p, env, out, exit);
  }

  // ----- what the choices made by kind mean

  /** The type that a conversion message converts from where t is asked for; byte strings and strings take a size
      from a target that has one. */
  predicate SpellsSource(e: Expr, t: VType, from: VType) {
    var sized := t.Bytes? || t.BytesM? || t.Str?;
    match e
    case ConvertInt(n, sign, _, _) => SpellsInt(n, sign, from)
    case ConvertDecimal(_, _) => from == Decimal
    case ConvertBool(_, _) => from == Bool
    case ConvertAddress(_, _) => from == Address
    case ConvertBytesM(m, _, _) => SpellsBytesM(m, from)
    case ConvertBytes(_, _) =>
      from.Bytes? && from.m <= 32 && (sized ==> from.m <= t.m) && (from.m == 32 || (sized && from.m == t.m))
    case ConvertString(_, _) => from == Str(if sized then t.m else 32)
    case _ => false
  }

  /** A conversion is written if and only if the rules of the language admit it; an integer is not converted to its
      own type. */
  lemma ConversionIff(e: Expr, t: VType, from: VType)
    ensures ConversionSource(e, t) == Some(from) <==>
            SpellsSource(e, t, from) && Convertible(from, t) && !(e.ConvertInt? && from == t)
  {
    if e.ConvertInt? {
      hide SpellsInt, IntType;
      SpelledInt(e.n, e.sign, from);
    } else if e.ConvertBytesM? {
      hide SpellsBytesM, BytesMType;
      SpelledBytesM(e.m, from);
    } else {
      OtherConversionIff(e, t, from);
    }
  }

  lemma OtherConversionIff(e: Expr, t: VType, from: VType)
    requires !e.ConvertInt? && !e.ConvertBytesM?
    ensures ConversionSource(e, t) == Some(from) <==> SpellsSource(e, t, from) && Convertible(from, t)
  {
  }

  /** A hash is taken of a string, a byte string or 32 bytes, by the kind of the argument. */
  lemma HashedIff(arg: HashArg)
    ensures (HashedType(arg).Str? <==> arg.StrArg?) && (HashedType(arg).Bytes? <==> arg.BytesArg?)
    ensures HashedType(arg).BytesM? ==> HashedType(arg).m == 32
    ensures !HashedType(arg).BytesM? ==> HashedType(arg) == if arg.StrArg? then Str(100) else Bytes(100)
  {
  }

  /** The size of a response is what the message asks for, in 256 bits, up to 100. */
  lemma ResponseSizeIs(rc: RawCallMessage)
    ensures ResponseSize(rc) <= 100
    ensures rc.maxOut.intval <= 100 ==> ResponseSize(rc) == rc.maxOut.intval
    ensures 100 < rc.maxOut.intval < PyInt.Pow2(256) ==> ResponseSize(rc) == 100
    ensures ResponseSize(rc) == ResponseSize(rc.(maxOut := rc.maxOut.(intval := rc.maxOut.intval + PyInt.Pow2(256))))
  {
    hide PyInt.Pow2;
    var v, m := rc.maxOut.intval, PyInt.Pow2(256);
    RangeSize(256, false);
    ManyBits(256);
    PyInt.AddModulus(v, m);
    if v < m { PyInt.QuotientIsUnique(v, 0, v, m); }
  }

  lemma {:induction false} ManyBits(n: nat)
    ensures PyInt.Pow2(n) > n
  {
    if n > 0 { ManyBits(n - 1); }
  }

  /** A status is captured if and only if the call does not revert, a response if and only if it has a size. */
  lemma CapturedIff(rc: RawCallMessage, size: nat)
    ensures (Bool in StatusTypes(rc) <==> !rc.revert.boolval) && |StatusTypes(rc)| <= 1
    ensures (Bytes(size) in ResponseTypes(size) <==> size > 0) && |ResponseTypes(size)| <= 1
    ensures forall t :: t in StatusTypes(rc) + ResponseTypes(size) ==> t == Bool || t == Bytes(size)
  {
  }
}
