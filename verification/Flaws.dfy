/** What in a message can go wrong while it is converted. Two things make a visit raise: asking a dynamic array of
    two 256-bit integers for a field that only fixed lists have, and comparing a complex number. A quotient of
    known numbers can also make the converter write a sign or a fraction where none belongs. */
module Flaws {
  import opened Types
  import opened Declarations
  import opened Emitted
  import opened IntBounds
  import opened Literals
  import opened Checker
  import opened Messages
  import opened Mirror
  import opened PyNumber
  import opened PyFloat
  import PyInt

  // ----- expressions whose value is known

  /** A division that is evaluated with the expression. */
  predicate Quotient(e: Expr) {
    (e.BinOp? && (e.op == Div || Quotient(e.l) || Quotient(e.r))) || (e.UnOp? && Quotient(e.e))
  }

  /** A power with such a division in its exponent. */
  predicate PowerOfQuotient(e: Expr) {
    || (e.BinOp? && ((e.op == Pow && Quotient(e.r)) || PowerOfQuotient(e.l) || PowerOfQuotient(e.r)))
    || (e.UnOp? && PowerOfQuotient(e.e))
  }

  /** A minus sign or a subtraction that is evaluated with the expression. */
  predicate Subtracts(e: Expr) {
    (e.BinOp? && (e.op == Sub || Subtracts(e.l) || Subtracts(e.r))) || e.UnOp?
  }

  /** What may happen at an expression: its right operand is not comparable, what is written breaks the rules of
      the language, or the left operand of a power is visited and then left out. */
  datatype Flaw = Raising | Straying | Dropping

  predicate Flawed(flaw: Flaw, e: Expr) {
    match flaw
    case Raising => e.BinOp? && e.op in {Pow, Shl, Shr} && PowerOfQuotient(e.r)
    case Straying =>
      (e.BinOp? && Quotient(e)) || (e.ConvertInt? && Quotient(e.e)) || (e.ConvertDecimal? && Subtracts(e.e))
    case Dropping => e.BinOp? && e.op == Pow && !LiteralOnly(e.l) && !e.r.Lit?
  }

  // ----- anywhere in an expression

  predicate Has(flaw: Flaw, e: Expr)
    decreases e, 1
  {
    Flawed(flaw, e) || HasBelow(flaw, e)
  }

  predicate HasBelow(flaw: Flaw, e: Expr)
    decreases e, 0
  {
    match e
    case Lit(_) => false
    case VarRef(_) => false
    case BinOp(_, l, r) => Has(flaw, l) || Has(flaw, r)
    case UnOp(x) => Has(flaw, x)
    case BoolBinOp(_, l, r) => Has(flaw, l) || Has(flaw, r)
    case BoolUnOp(x) => Has(flaw, x)
    case IntBoolBinOp(_, l, r) => Has(flaw, l) || Has(flaw, r)
    case DecBoolBinOp(_, l, r) => Has(flaw, l) || Has(flaw, r)
    case RawCallExpr(rc, _) => HasRaw(flaw, rc)
    case ConvertInt(_, _, x, _) => Has(flaw, x)
    case ConvertDecimal(x, _) => Has(flaw, x)
    case ConvertBool(x, _) => Has(flaw, x)
    case ConvertAddress(x, _) => Has(flaw, x)
    case ConvertBytesM(_, x, _) => Has(flaw, x)
    case ConvertBytes(x, _) => Has(flaw, x)
    case ConvertString(x, _) => Has(flaw, x)
    case HashOf(arg) => Has(flaw, arg.e)
    case ConcatOf(a, b, c) =>
      HasPart(flaw, a) || HasPart(flaw, b) || exists i :: 0 <= i < |c| && HasPart(flaw, c[i])
    case CreateProxy(target, value, salt) => Has(flaw, target) || HasOption(flaw, value) || HasOption(flaw, salt)
    case CreateFromBlueprint(target, rawArgs, value, codeOffset, salt) =>
      || Has(flaw, target) || (rawArgs.Some? && Has(flaw, rawArgs.value.arg))
      || HasOption(flaw, value) || HasOption(flaw, codeOffset) || HasOption(flaw, salt)
    case EcRec(hash, v8, vi, rb, ri, sb, si) =>
      || Has(flaw, hash) || HasOption(flaw, v8) || Has(flaw, vi) || HasOption(flaw, rb) || Has(flaw, ri)
      || HasOption(flaw, sb) || Has(flaw, si)
    case ListOf(other, rexp, exps) =>
      HasOther(flaw, other) || Has(flaw, rexp) || exists i :: 0 <= i < |exps| && Has(flaw, exps[i])
  }

  predicate HasOption(flaw: Flaw, e: Option<Expr>)
    decreases e
  {
    e.Some? && Has(flaw, e.value)
  }

  predicate HasRaw(flaw: Flaw, rc: RawCallMessage)
    decreases rc
  {
    Has(flaw, rc.to) || Has(flaw, rc.data) || HasOption(flaw, rc.gas) || HasOption(flaw, rc.value)
  }

  predicate HasPart(flaw: Flaw, part: Part)
    decreases part
  {
    Has(flaw, part.e) || HasOption(flaw, part.bm)
  }

  predicate HasOther(flaw: Flaw, other: ListOther)
    decreases other
  {
    match other
    case NoOther => false
    case ListVar => false
    case EcAddOf(x, y) => Has(flaw, x) || Has(flaw, y)
    case EcMulOf(point, scalar) => Has(flaw, point) || Has(flaw, scalar)
  }

  predicate HasTyped(flaw: Flaw, te: TypedExpr) {
    || Has(flaw, te.intExp) || Has(flaw, te.bmExp) || Has(flaw, te.boolExp) || Has(flaw, te.bExp)
    || Has(flaw, te.decExpression) || Has(flaw, te.strExp) || Has(flaw, te.addrExp) || Has(flaw, te.list)
    || Has(flaw, te.dyn)
  }

  predicate HasPayload(flaw: Flaw, p: Payload) {
    || HasTyped(flaw, p.one) || HasTyped(flaw, p.two) || HasTyped(flaw, p.three) || HasTyped(flaw, p.four)
    || HasTyped(flaw, p.five)
  }

  lemma FieldHas(flaw: Flaw, te: TypedExpr, t: VType)
    ensures Has(flaw, FieldFor(te, t)) ==> HasTyped(flaw, te)
  {
    hide Has;
  }

  lemma ValueHas(flaw: Flaw, p: Payload, i: nat)
    requires i < 5
    ensures HasTyped(flaw, Values(p)[i]) ==> HasPayload(flaw, p)
  {
    hide HasTyped;
  }

  // ----- literals: what is written does not depend on any choice

  predicate LiteralOnly(e: Expr) {
    e.Lit? || (e.BinOp? && Arithmetic(e.op) && LiteralOnly(e.l) && LiteralOnly(e.r)) || (e.UnOp? && LiteralOnly(e.e))
  }

  function InParens(nested: bool, e: OExpr): OExpr {
    if nested then OParen(e) else e
  }

  /** What is written for an integer expression of literals. */
  function Written(py: Python, e: Expr, t: VType, nested: bool): OExpr
    requires t.Int? && t.n > 0 && LiteralOnly(e)
  {
    match e
    case BinOp(op, l, r) => InParens(nested, Folded(py, t, Written(py, l, t, true), op, Written(py, r, t, true)))
    case UnOp(x) =>
      if t.signed then InParens(nested, CheckLiteralBounds(py, t, ONeg(Written(py, x, t, true))))
      else Written(py, x, t, true)
    case Lit(lit) => OInt(Generate(t.n, t.signed, lit.intval))
  }

  predicate LiteralRaises(py: Python, e: Expr, t: VType)
    requires t.Int? && t.n > 0 && LiteralOnly(e)
  {
    match e
    case BinOp(op, l, r) =>
      LiteralRaises(py, l, t) || LiteralRaises(py, r, t) || Uncomparable(py, t, op, Written(py, r, t, true))
    case UnOp(x) => LiteralRaises(py, x, t)
    case Lit(_) => false
  }

  /** Some part that consists of literals raises. */
  predicate IntCertain(py: Python, e: Expr, t: VType)
    requires t.Int? && t.n > 0
  {
    if LiteralOnly(e) then LiteralRaises(py, e, t)
    else if e.BinOp? && Arithmetic(e.op) then IntCertain(py, e.l, t) || IntCertain(py, e.r, t)
    else e.UnOp? && IntCertain(py, e.e, t)
  }

  // ----- dynamic arrays of two 256-bit integers

  predicate IsPair(t: VType) {
    t.DynArray? && t.size == 2 && t.base.Int? && t.base.n == 256
  }

  predicate AsksVariable(e: Expr) {
    e.ListOf? && e.other.ListVar?
  }

  /** Outside constants: the type is such an array, and no variable is asked for and found first. */
  ghost predicate RaisesAt(e: Expr, t: VType, sight: Sight) {
    IsPair(t) && !(AsksVariable(e) && !NothingFits(t, sight.env, false))
  }

  /** The flag is never taken back, and is raised only where the message has something that may raise. */
  ghost predicate RaisedOnly(before: bool, after: bool, may: bool) {
    (before ==> after) && (after ==> before || may)
  }

  /** How visiting an integer expression changes the flag: exactly, if it consists of literals. */
  ghost predicate RaisedByInt(py: Python, before: bool, after: bool, e: Expr, t: VType) {
    && RaisedOnly(before, after, Has(Raising, e))
    && (t.Int? && t.n > 0 && IntCertain(py, e, t) ==> after)
    && (t.Int? && t.n > 0 && LiteralOnly(e) ==> (after <==> before || LiteralRaises(py, e, t)))
  }

  /** How visiting message e at type t changes the flag. Among constants a variable may be asked for and, by
      chance, found or not. */
  ghost predicate RaisedAs(before: bool, after: bool, e: Expr, t: VType, sight: Sight) {
    && (before ==> after) && (after ==> before || IsPair(t) || Has(Raising, e))
    && (!sight.constant ==> (before || RaisesAt(e, t, sight) ==> after))
    && (!sight.constant ==> (after ==> before || RaisesAt(e, t, sight) || Has(Raising, e)))
    && (IsPair(t) && !AsksVariable(e) ==> after)
    && (t.Int? ==> RaisedByInt(sight.py, before, after, e, t))
  }

  lemma RaisedAsOnly(before: bool, after: bool, e: Expr, t: VType, sight: Sight)
    requires !IsPair(t) && RaisedAs(before, after, e, t, sight)
    ensures RaisedOnly(before, after, Has(Raising, e))
  {
    hide Has, RaisesAt, RaisedByInt;
  }

  lemma LeafByInt(py: Python, before: bool, after: bool, e: Expr, t: VType)
    requires !(e.BinOp? && Arithmetic(e.op)) && !e.UnOp? && RaisedOnly(before, after, Has(Raising, e))
    ensures RaisedByInt(py, before, after, e, t)
  {
    hide Generate;
  }

  /** An operation raises where an operand does or, for an operand that cannot be compared, itself. */
  lemma BinByInt(py: Python, before: bool, left: bool, right: bool, after: bool, e: Expr, t: VType, r: OExpr)
    requires t.Int? && t.n > 0 && e.BinOp? && Arithmetic(e.op)
    requires RaisedByInt(py, before, left, e.l, t) && RaisedByInt(py, left, right, e.r, t)
    requires after <==> right || Uncomparable(py, t, e.op, r)
    requires Uncomparable(py, t, e.op, r) ==> Flawed(Raising, e)
    requires LiteralOnly(e.r) ==> r == Written(py, e.r, t, true)
    ensures RaisedByInt(py, before, after, e, t)
  {
    hide Flawed, Uncomparable, Written;
    assert Has(Raising, e) <==> Flawed(Raising, e) || Has(Raising, e.l) || Has(Raising, e.r);
    if LiteralOnly(e) {
      assert LiteralRaises(py, e, t) <==>
             LiteralRaises(py, e.l, t) || LiteralRaises(py, e.r, t) || Uncomparable(py, t, e.op, r);
    }
  }

  lemma UnByInt(py: Python, before: bool, after: bool, e: Expr, t: VType)
    requires e.UnOp? && RaisedByInt(py, before, after, e.e, t)
    ensures RaisedByInt(py, before, after, e, t)
  {
    hide Flawed, Written, Uncomparable;
    assert Has(Raising, e.e) ==> Has(Raising, e);
    assert LiteralOnly(e) <==> LiteralOnly(e.e);
  }

  lemma BinRaises(before: bool, middle: bool, after: bool, e: Expr)
    requires e.BinOp? || e.BoolBinOp? || e.IntBoolBinOp? || e.DecBoolBinOp?
    requires RaisedOnly(before, middle, Has(Raising, e.l)) && RaisedOnly(middle, after, Has(Raising, e.r))
    ensures RaisedOnly(before, after, Has(Raising, e))
  {
    hide Flawed;
  }

  lemma InnerRaises(before: bool, after: bool, e: Expr)
    requires e.UnOp? || e.BoolUnOp? || e.ConvertInt? || e.ConvertDecimal? || e.ConvertBool? || e.ConvertAddress? ||
             e.ConvertBytesM? || e.ConvertBytes? || e.ConvertString?
    requires RaisedOnly(before, after, Has(Raising, e.e))
    ensures RaisedOnly(before, after, Has(Raising, e))
  {
    hide Flawed;
  }

  lemma RawRaises(before: bool, after: bool, e: Expr)
    requires e.RawCallExpr? && RaisedOnly(before, after, HasRaw(Raising, e.rc))
    ensures RaisedOnly(before, after, Has(Raising, e))
  {
    hide Flawed, HasRaw;
  }

  lemma RawHas(flaw: Flaw, e: Expr)
    requires e.RawCallExpr?
    ensures HasRaw(flaw, e.rc) ==> Has(flaw, e)
  {
    hide Flawed, HasRaw;
  }

  lemma BinIsWritten(py: Python, e: Expr, t: VType, l: OExpr, r: OExpr, nested: bool)
    requires t.Int? && t.n > 0 && e.BinOp? && Arithmetic(e.op)
    requires LiteralOnly(e.l) ==> l == Written(py, e.l, t, true)
    requires LiteralOnly(e.r) ==> r == Written(py, e.r, t, true)
    ensures LiteralOnly(e) ==> Written(py, e, t, nested) == InParens(nested, Folded(py, t, l, e.op, r))
  {
    hide Folded, InParens;
  }

  lemma UnIsWritten(py: Python, e: Expr, t: VType, x: OExpr, nested: bool)
    requires t.Int? && t.n > 0 && e.UnOp? && (LiteralOnly(e.e) ==> x == Written(py, e.e, t, true))
    ensures LiteralOnly(e) ==> Written(py, e, t, nested) ==
                               if t.signed then InParens(nested, CheckLiteralBounds(py, t, ONeg(x))) else x
  {
    hide CheckLiteralBounds, InParens;
  }

  lemma NoLiteral(e: Expr)
    requires !(e.BinOp? && Arithmetic(e.op)) && !e.UnOp?
    ensures LiteralOnly(e) ==> e.Lit?
  {
  }

  lemma RaisedOn(before: bool, middle: bool, after: bool, may: bool, more: bool, any: bool)
    requires RaisedOnly(before, middle, may) && RaisedOnly(middle, after, more) && (may || more ==> any)
    ensures RaisedOnly(before, after, any)
  {
  }

  lemma RaisedNothing(raised: bool, may: bool)
    ensures RaisedOnly(raised, raised, may)
  {
  }

  lemma CreateHas(flaw: Flaw, e: Expr)
    requires e.CreateProxy? || e.CreateFromBlueprint?
    ensures Has(flaw, e.target) || HasOption(flaw, e.value) || HasOption(flaw, e.salt) ==> Has(flaw, e)
    ensures e.CreateFromBlueprint? && HasOption(flaw, e.codeOffset) ==> Has(flaw, e)
    ensures e.CreateFromBlueprint? && e.rawArgs.Some? && Has(flaw, e.rawArgs.value.arg) ==> Has(flaw, e)
  {
    hide HasOption, Flawed;
  }

  lemma EcRecHas(flaw: Flaw, e: Expr)
    requires e.EcRec?
    ensures Has(flaw, e.hash) || HasOption(flaw, e.v8) || HasOption(flaw, e.rb) || HasOption(flaw, e.sb) ==>
            Has(flaw, e)
    ensures Has(flaw, e.vi) || Has(flaw, e.ri) || Has(flaw, e.si) ==> Has(flaw, e)
  {
    hide HasOption, Flawed;
  }

  lemma ConcatHas(flaw: Flaw, e: Expr)
    requires e.ConcatOf?
    ensures HasPart(flaw, e.a) || HasPart(flaw, e.b) ==> Has(flaw, e)
    ensures forall i :: 0 <= i < |e.c| && HasPart(flaw, e.c[i]) ==> Has(flaw, e)
  {
    hide HasPart, Flawed;
  }

  lemma HashHas(flaw: Flaw, e: Expr)
    requires e.HashOf?
    ensures Has(flaw, e.arg.e) ==> Has(flaw, e)
  {
    hide Flawed;
  }

  lemma ItemsHas(flaw: Flaw, e: Expr)
    requires e.ListOf?
    ensures Has(flaw, e.rexp) ==> Has(flaw, e)
    ensures forall i :: 0 <= i < |e.exps| && Has(flaw, e.exps[i]) ==> Has(flaw, e)
  {
    hide HasOther, Flawed;
  }

  lemma OtherHas(flaw: Flaw, e: Expr)
    requires e.ListOf?
    ensures HasOther(flaw, e.other) ==> Has(flaw, e)
  {
    hide HasOther;
  }

  /** A payload raises only through a type it is asked for. */
  ghost predicate AnyPair(types: seq<VType>) {
    exists i :: 0 <= i < |types| && IsPair(types[i])
  }

  /** A parameter or result of a function in reach, or a result of this one, is such an array. */
  ghost predicate PairInSigs(cx: Ctx) {
    AnyPair(cx.outputs) || exists f :: f in cx.callable && AnyPair(cx.callable[f].inputs)
  }

  /** The flag is never taken back, is raised by what is certain to raise it, and is raised only for something that
      may raise and is mentioned. */
  ghost predicate RaisedBetween(before: bool, after: bool, certain: bool, mentioned: bool, cx: Ctx) {
    (before || certain ==> after) && (after ==> before || mentioned || PairInSigs(cx))
  }

  lemma ArgumentsRaise(before: bool, after: bool, params: bool, cx: Ctx, f: nat)
    requires f in cx.callable && (before ==> after) && (after ==> before || params || AnyPair(cx.callable[f].inputs))
    ensures RaisedBetween(before, after, false, params, cx)
  {
    hide AnyPair;
  }

  // ----- where a message mentions a flaw

  /** A pair array counts as something that may raise. */
  predicate TypeMentions(flaw: Flaw, t: VType) {
    flaw.Raising? && IsPair(t)
  }

  predicate AssignmentMentions(flaw: Flaw, a: Assignment) {
    TypeMentions(flaw, ExtractType(a.refId)) || HasTyped(flaw, a.value)
  }

  predicate StmtMentions(flaw: Flaw, s: Stmt) {
    || AssignmentMentions(flaw, s.assignment)
    || match s.kind
       case DeclStmt(t, value) => TypeMentions(flaw, ExtractType(t)) || HasTyped(flaw, value)
       case ForStmt(_, body) => BlockMentions(flaw, body)
       case IfStmt(cases, els) => CasesMention(flaw, cases) || ElseMentions(flaw, els)
       case CallStmt(_, params) => HasPayload(flaw, params)
       case AssertStmt(cond, reason) => Has(flaw, cond) || Has(flaw, reason)
       case AppendStmt(item) => HasTyped(flaw, item)
       case SendStmt(to, amount, gas) => Has(flaw, to) || Has(flaw, amount) || HasOption(flaw, gas)
       case RawCallStmt(rc) => HasRaw(flaw, rc)
       case RawLogStmt(topics, _, dataBs, dataBm) => Has(flaw, topics) || HasOption(flaw, dataBs) || Has(flaw, dataBm)
       case _ => false
  }

  predicate CasesMention(flaw: Flaw, cases: seq<IfCase>) {
    exists i :: 0 <= i < |cases| && CaseMentions(flaw, cases[i])
  }

  predicate CaseMentions(flaw: Flaw, c: IfCase) {
    Has(flaw, c.cond) || BlockMentions(flaw, c.ifBody)
  }

  predicate ElseMentions(flaw: Flaw, els: Option<Block>) {
    els.Some? && BlockMentions(flaw, els.value)
  }

  predicate ExitMentions(flaw: Flaw, exit: ExitStmt) {
    HasPayload(flaw, exit.payload) || KindMentions(flaw, exit.kind)
  }

  predicate KindMentions(flaw: Flaw, kind: ExitKind) {
    match kind
    case PlainExit => false
    case SelfdExit(to) => Has(flaw, to)
    case RaiseExit(errval) => Has(flaw, errval)
    case RevertExit(data) => Has(flaw, data)
  }

  predicate BlockMentions(flaw: Flaw, b: Block) {
    ExitMentions(flaw, b.exit) || exists i :: 0 <= i < |b.statements| && StmtMentions(flaw, b.statements[i])
  }

  lemma AssignmentHas(flaw: Flaw, a: Assignment)
    ensures Has(flaw, FieldFor(a.value, ExtractType(a.refId))) ==> AssignmentMentions(flaw, a)
  {
    hide Has, HasTyped, TypeMentions;
    FieldHas(flaw, a.value, ExtractType(a.refId));
  }

  lemma FallbackHas(flaw: Flaw, s: Stmt)
    ensures AssignmentMentions(flaw, s.assignment) ==> StmtMentions(flaw, s)
  {
    hide AssignmentMentions;
  }

  // ----- where a message is certain to raise

  /** A value of a pair type that is not a variable, or an integer with a part that raises for certain. */
  predicate ValueCertain(py: Python, te: TypedExpr, t: VType) {
    (IsPair(t) && !AsksVariable(FieldFor(te, t))) || (t.Int? && t.n > 0 && IntCertain(py, te.intExp, t))
  }

  predicate AssignmentCertain(py: Python, a: Assignment) {
    ValueCertain(py, a.value, ExtractType(a.refId))
  }

  /** A declaration with such a value, or a statement of no kind whose assignment has one. */
  predicate StmtCertain(py: Python, s: Stmt) {
    match s.kind
    case NoKind => AssignmentCertain(py, s.assignment)
    case DeclStmt(t, value) => ValueCertain(py, value, ExtractType(t))
    case ForStmt(_, body) => BlockCertain(py, body)
    case IfStmt(cases, els) => CasesCertain(py, cases) || ElseCertain(py, els)
    case _ => false
  }

  predicate CasesCertain(py: Python, cases: seq<IfCase>) {
    exists i :: 0 <= i < |cases| && CaseCertain(py, cases[i])
  }

  predicate CaseCertain(py: Python, c: IfCase) {
    BlockCertain(py, c.ifBody)
  }

  predicate ElseCertain(py: Python, els: Option<Block>) {
    els.Some? && BlockCertain(py, els.value)
  }

  predicate BlockCertain(py: Python, b: Block) {
    AnyCertain(py, b.statements)
  }

  predicate AnyCertain(py: Python, ss: seq<Stmt>) {
    exists i :: 0 <= i < |ss| && StmtCertain(py, ss[i])
  }

  // ----- the whole message

  /** One of the parameters that are converted. */
  predicate ParamsMention(flaw: Flaw, params: seq<SchemaType>, cap: nat) {
    exists i :: 0 <= i < |params| && i < cap && TypeMentions(flaw, ExtractType(params[i]))
  }

  predicate FunctionMentions(flaw: Flaw, f: FuncMessage) {
    || ParamsMention(flaw, f.inputParams, MAX_FUNCTION_INPUT)
    || ParamsMention(flaw, f.outputParams, MAX_FUNCTION_OUTPUT)
    || BlockMentions(flaw, f.block)
  }

  predicate GlobalMentions(flaw: Flaw, d: DeclMessage) {
    d.mut != Plain && (TypeMentions(flaw, ExtractType(d.t)) || HasTyped(flaw, d.value))
  }

  /** How declaring a global changes the flag: only a constant or an immutable has its value visited. */
  ghost predicate GlobalRaisedAs(py: Python, before: bool, after: bool, d: DeclMessage, env: Env) {
    if d.mut == Plain then after == before
    else RaisedAs(before, after, FieldFor(d.value, ExtractType(d.t)), ExtractType(d.t),
                  Sight(d.mut == Constant, env, py))
  }

  predicate GlobalsMention(flaw: Flaw, ds: seq<DeclMessage>) {
    exists i :: 0 <= i < |ds| && i < MAX_STORAGE_VARIABLES && GlobalMentions(flaw, ds[i])
  }

  predicate FunctionsMention(flaw: Flaw, ms: seq<FuncMessage>) {
    exists i :: 0 <= i < |ms| && i < MAX_FUNCTIONS && FunctionMentions(flaw, ms[i])
  }

  predicate DefaultMentions(flaw: Flaw, d: DefaultMessage) {
    ParamsMention(flaw, d.outputParams, MAX_FUNCTION_OUTPUT) || BlockMentions(flaw, d.block)
  }

  /** Somewhere in what is converted. */
  predicate Mentions(flaw: Flaw, c: Contract) {
    || GlobalsMention(flaw, c.decls) || BlockMentions(flaw, c.init.block) || FunctionsMention(flaw, c.functions)
    || (c.defFunc.Some? && DefaultMentions(flaw, c.defFunc.value))
  }

  predicate GlobalCertain(py: Python, d: DeclMessage) {
    d.mut != Plain && ValueCertain(py, d.value, ExtractType(d.t))
  }

  predicate GlobalsCertain(py: Python, ds: seq<DeclMessage>) {
    exists i :: 0 <= i < |ds| && i < MAX_STORAGE_VARIABLES && GlobalCertain(py, ds[i])
  }

  predicate FunctionsCertain(py: Python, ms: seq<FuncMessage>) {
    exists i :: 0 <= i < |ms| && i < MAX_FUNCTIONS && BlockCertain(py, ms[i].block)
  }

  /** Whatever variables are chosen, converting the message raises. */
  predicate Certain(py: Python, c: Contract) {
    || GlobalsCertain(py, c.decls) || (c.init.flag && BlockCertain(py, c.init.block))
    || FunctionsCertain(py, c.functions)
    || (c.defFunc.Some? && BlockCertain(py, c.defFunc.value.block))
  }

  lemma GlobalRaises(py: Python, before: bool, after: bool, ds: seq<DeclMessage>, i: nat, env: Env)
    requires i < |ds| && i < MAX_STORAGE_VARIABLES && GlobalRaisedAs(py, before, after, ds[i], env)
    ensures before || GlobalCertain(py, ds[i]) ==> after
    ensures after ==> before || GlobalsMention(Raising, ds)
  {
    hide Has, IntCertain, LiteralRaises;
    FieldHas(Raising, ds[i].value, ExtractType(ds[i].t));
    if after && !before { assert GlobalMentions(Raising, ds[i]); }
  }

  // ----- messages that raise

  const NO_VALUE := TypedExpr(Lit(NO_LITERAL), Lit(NO_LITERAL), Lit(NO_LITERAL), Lit(NO_LITERAL), Lit(NO_LITERAL),
                              Lit(NO_LITERAL), Lit(NO_LITERAL), Lit(NO_LITERAL), Lit(NO_LITERAL))
  const NO_BLOCK := Block([], ExitStmt(false, Payload(NO_VALUE, NO_VALUE, NO_VALUE, NO_VALUE, NO_VALUE), PlainExit))

  /** A single immutable, a dynamic array of at most two uint256, with nothing set in its value. */
  const PAIR_ARRAY := Contract([DeclMessage(DynMessage(2, IntMessage(255, false)), NO_VALUE, Immutable)], [],
                               InitMessage(false, [], NO_BLOCK), None)

  lemma PairArrayWitness(py: Python)
    ensures Certain(py, PAIR_ARRAY) && PAIR_ARRAY.functions == []
  {
    assert GlobalCertain(py, PAIR_ARRAY.decls[0]);
  }

  /** (-8) ** (1 / 2) in eight signed bits, and a power with that as its exponent. */
  const ROOT := BinOp(Pow, UnOp(Lit(NO_LITERAL.(intval := 136))),
                      BinOp(Div, Lit(NO_LITERAL.(intval := 129)), Lit(NO_LITERAL.(intval := 130))))
  const POWER_OF_ROOT := BinOp(Pow, Lit(NO_LITERAL), ROOT)

  /** A single immutable of eight signed bits with that value. */
  const COMPLEX_POWER := Contract([DeclMessage(IntMessage(7, true), NO_VALUE.(intExp := POWER_OF_ROOT), Immutable)], [],
                                  InitMessage(false, [], NO_BLOCK), None)

  lemma ComplexPowerWitness(py: Python)
    ensures Certain(py, COMPLEX_POWER) && COMPLEX_POWER.functions == []
  {
    hide Folded, CheckLiteralBounds, Uncomparable;
    var t := Int(8, true);
    RootIsComplex(py);
    assert LiteralRaises(py, POWER_OF_ROOT, t);
    assert ExtractType(IntMessage(7, true)) == t;
    assert GlobalCertain(py, COMPLEX_POWER.decls[0]);
  }

  lemma SmallLiteral(v: nat)
    requires v < 256
    ensures Generate(8, true, v) == v - 128
  {
    assert PyInt.Pow2(7) == 128;
  }

  lemma LiteralWritten(py: Python, lit: Literal, t: VType, nested: bool)
    requires t.Int? && t.n > 0
    ensures Written(py, Lit(lit), t, nested) == OInt(Generate(t.n, t.signed, lit.intval))
  {
  }

  lemma OperationWritten(py: Python, e: Expr, t: VType, nested: bool)
    requires t.Int? && t.n > 0 && LiteralOnly(e) && e.BinOp?
    ensures Written(py, e, t, nested) ==
            InParens(nested, Folded(py, t, Written(py, e.l, t, true), e.op, Written(py, e.r, t, true)))
  {
  }

  /** An operation on two numbers that neither check touches. */
  lemma FoldedUntouched(py: Python, t: VType, l: OExpr, op: Op, r: OExpr, v: Num)
    requires t.Int? && t.n > 0 && NumberOk(py, t, op, r) && Value(py, r).Some? && Value(py, OBin(op, l, r)) == Some(v)
    requires v.Whole? ==> InBounds(t, v.v)
    requires v.Fraction? ==> t.signed || !Negative(v)
    ensures Folded(py, t, l, op, r) == OBin(op, l, r)
  {
    hide Value, InBounds;
  }

  lemma RootIsWritten(py: Python)
    ensures Written(py, ROOT, Int(8, true), true) ==
            OParen(OBin(Pow, OParen(ONeg(OInt(8))), OParen(OBin(Div, OInt(1), OInt(2)))))
    ensures KnownNumber(py, Written(py, ROOT, Int(8, true), true), (n: Num) => n.Complex?)
  {
    hide Written, Folded, Value, InBounds, Operate, NumberOk;
    var t := Int(8, true);
    var eight, half := OParen(ONeg(OInt(8))), OParen(OBin(Div, OInt(1), OInt(2)));
    EightIsWritten(py);
    HalfIsWritten(py);
    RootOfEight(py);
    FoldedUntouched(py, t, eight, Pow, half, Value(py, OBin(Pow, eight, half)).value);
    OperationWritten(py, ROOT, t, true);
  }

  lemma EightIsWritten(py: Python)
    ensures Written(py, ROOT.l, Int(8, true), true) == OParen(ONeg(OInt(8)))
  {
    hide Generate, PyInt.Pow2;
    SmallLiteral(136);
    EightInBounds();
    assert Value(py, ONeg(OInt(8))) == Some(Whole(-8));
  }

  lemma HalfIsWritten(py: Python)
    ensures Written(py, ROOT.r, Int(8, true), true) == OParen(OBin(Div, OInt(1), OInt(2)))
  {
    hide Written, Folded, Value, InBounds, Operate, Generate;
    var t := Int(8, true);
    LiteralWritten(py, ROOT.r.l.lit, t, true);
    LiteralWritten(py, ROOT.r.r.lit, t, true);
    SmallLiteral(129);
    SmallLiteral(130);
    HalfIsHalf(py);
    NumberIs(py, OInt(2), 2);
    FoldedUntouched(py, t, OInt(1), Div, OInt(2), Fraction(Finite(0.5)));
    OperationWritten(py, ROOT.r, t, true);
  }

  lemma NumberIs(py: Python, e: OExpr, v: int)
    requires e == OInt(v)
    ensures Value(py, e) == Some(Whole(v))
  {
  }

  lemma RootIsComplex(py: Python)
    ensures Uncomparable(py, Int(8, true), Pow, Written(py, ROOT, Int(8, true), true))
  {
    hide Folded, CheckLiteralBounds, Value;
    RootIsWritten(py);
  }

  lemma EightInBounds()
    ensures InBounds(Int(8, true), -8) && InBounds(Int(8, true), 8)
  {
    assert PyInt.Pow2(7) == 128;
  }

  lemma HalfIsHalf(py: Python)
    ensures Value(py, OBin(Div, OInt(1), OInt(2))) == Some(Fraction(Finite(0.5)))
  {
  }

  lemma RootOfEight(py: Python)
    ensures var half := OParen(OBin(Div, OInt(1), OInt(2)));
            && NumberOk(py, Int(8, true), Pow, half) && Value(py, half).Some?
            && KnownNumber(py, OBin(Pow, OParen(ONeg(OInt(8))), half), (n: Num) => n.Complex?)
            && KnownNumber(py, OParen(OBin(Pow, OParen(ONeg(OInt(8))), half)), (n: Num) => n.Complex?)
  {
    HalfIsHalf(py);
    var eight, half := OParen(ONeg(OInt(8))), OParen(OBin(Div, OInt(1), OInt(2)));
    assert Value(py, eight) == Some(Whole(-8));
    assert Value(py, half) == Some(Fraction(Finite(0.5)));
  }
}
