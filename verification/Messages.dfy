/** The message the converter reads: an arbitrary tree that respects only the message schema.

    Expression messages of all types share one datatype. A handler reads the fields of its own message
    type and treats anything else as the plain literal, so every message of the schema is included. The
    two fields of a typed expression that hold lists stand for the families of fields, one per base type,
    of which a visit reads one. */
module Messages {
  import opened Types
  import opened Declarations
  import opened Emitted
  import opened Literals

  datatype Expr =
    | Lit(lit: Literal)
    | VarRef(lit: Literal)
    | BinOp(op: Op, l: Expr, r: Expr)
    | UnOp(e: Expr)
    | BoolBinOp(op: Op, l: Expr, r: Expr)
    | BoolUnOp(e: Expr)
    | IntBoolBinOp(op: Op, l: Expr, r: Expr)
    | DecBoolBinOp(op: Op, l: Expr, r: Expr)
    | RawCallExpr(rc: RawCallMessage, lit: Literal)
    | ConvertInt(n: nat, sign: bool, e: Expr, lit: Literal)
    | ConvertDecimal(e: Expr, lit: Literal)
    | ConvertBool(e: Expr, lit: Literal)
    | ConvertAddress(e: Expr, lit: Literal)
    | ConvertBytesM(m: nat, e: Expr, lit: Literal)
    | ConvertBytes(e: Expr, lit: Literal)
    | ConvertString(e: Expr, lit: Literal)
    | HashOf(arg: HashArg)
    | ConcatOf(a: Part, b: Part, c: seq<Part>)
    | CreateProxy(target: Expr, value: Option<Expr>, salt: Option<Expr>)
    | CreateFromBlueprint(target: Expr, rawArgs: Option<RawArgs>, value: Option<Expr>, codeOffset: Option<Expr>,
                          salt: Option<Expr>)
    | EcRec(hash: Expr, v8: Option<Expr>, vi: Expr, rb: Option<Expr>, ri: Expr, sb: Option<Expr>, si: Expr)
    | ListOf(other: ListOther, rexp: Expr, exps: seq<Expr>)

  datatype RawCallMessage = RawCallMessage(to: Expr, data: Expr, maxOut: Literal, gas: Option<Expr>,
                                           value: Option<Expr>, delegate: Literal, static_: Literal, revert: Literal)
  datatype HashArg = StrArg(e: Expr) | BytesArg(e: Expr) | BytesMArg(e: Expr)
  datatype RawArgs = RawArgs(arg: Expr, flag: Literal)
  datatype ListOther = NoOther | ListVar | EcAddOf(x: Expr, y: Expr) | EcMulOf(point: Expr, scalar: Expr)

  /** One part of a concatenation: for bytes it may be a fixed bytes expression. */
  datatype Part = Part(e: Expr, bm: Option<Expr>, size: nat)

  /** What an unset literal message reads as. */
  const NO_LITERAL := Literal(0, false, 0, [], "", 0, 0)

  function LiteralOf(e: Expr): Literal {
    match e
    case Lit(lit) => lit
    case VarRef(lit) => lit
    case RawCallExpr(_, lit) => lit
    case ConvertInt(_, _, _, lit) => lit
    case ConvertDecimal(_, lit) => lit
    case ConvertBool(_, lit) => lit
    case ConvertAddress(_, lit) => lit
    case ConvertBytesM(_, _, lit) => lit
    case ConvertBytes(_, lit) => lit
    case ConvertString(_, lit) => lit
    case _ => NO_LITERAL
  }

  datatype TypedExpr = TypedExpr(intExp: Expr, bmExp: Expr, boolExp: Expr, bExp: Expr, decExpression: Expr,
                                 strExp: Expr, addrExp: Expr, list: Expr, dyn: Expr)

  /** The field that the handler for type t reads. */
  function FieldFor(te: TypedExpr, t: VType): Expr {
    match t
    case Int(_, _) => te.intExp
    case BytesM(_) => te.bmExp
    case Bool => te.boolExp
    case Bytes(_) => te.bExp
    case Decimal => te.decExpression
    case Str(_) => te.strExp
    case Address => te.addrExp
    case FixedList(_, _) => te.list
    case _ => te.dyn
  }

  datatype Payload = Payload(one: TypedExpr, two: TypedExpr, three: TypedExpr, four: TypedExpr, five: TypedExpr)

  function Values(p: Payload): (r: seq<TypedExpr>)
    ensures |r| == 5
  {
    [p.one, p.two, p.three, p.four, p.five]
  }

  datatype ForIter = Ranged(start: int, stop: int) | Variable(refId: bool, length: nat)
  datatype IfCase = IfCase(cond: Expr, ifBody: Block)
  datatype Assignment = Assignment(refId: SchemaType, value: TypedExpr)

  /** A statement is at most one of the kinds below, and always carries an assignment to fall back on. */
  datatype Stmt = Stmt(kind: StmtKind, assignment: Assignment)

  datatype StmtKind =
    | NoKind
    | DeclStmt(t: SchemaType, value: TypedExpr)
    | ForStmt(iter: ForIter, body: Block)
    | IfStmt(cases: seq<IfCase>, elseCase: Option<Block>)
    | CallStmt(funcNum: nat, params: Payload)
    | ContinueStmt
    | BreakStmt
    | AssertStmt(cond: Expr, reason: Expr)
    | AppendStmt(item: TypedExpr)
    | PopStmt
    | SendStmt(to: Expr, amount: Expr, gas: Option<Expr>)
    | RawCallStmt(rc: RawCallMessage)
    | RawLogStmt(topics: Expr, topicAmount: nat, dataBs: Option<Expr>, dataBm: Expr)

  datatype ExitKind = PlainExit | SelfdExit(to: Expr) | RaiseExit(errval: Expr) | RevertExit(data: Expr)
  datatype ExitStmt = ExitStmt(flag: bool, payload: Payload, kind: ExitKind)
  datatype Block = Block(statements: seq<Stmt>, exit: ExitStmt)

  datatype FuncMessage = FuncMessage(external: bool, mut: nat, inputParams: seq<SchemaType>,
                                     outputParams: seq<SchemaType>, block: Block)
  /** How a global is declared; a counter cannot be. */
  type DeclMutability = p: Prefix | p != Counter witness Plain

  datatype DeclMessage = DeclMessage(t: SchemaType, value: TypedExpr, mut: DeclMutability)
  datatype InitMessage = InitMessage(flag: bool, inputParams: seq<SchemaType>, block: Block)
  datatype DefaultMessage = DefaultMessage(mut: nat, outputParams: seq<SchemaType>, block: Block)
  datatype Contract = Contract(decls: seq<DeclMessage>, functions: seq<FuncMessage>, init: InitMessage,
                               defFunc: Option<DefaultMessage>)

  // ----- calls in a message

  /** The function numbers called in a statement and the blocks nested in it, in order of appearance. */
  function CallsIn(s: Stmt): seq<nat> {
    match s.kind
    case ForStmt(_, body) => CallsInAll(body.statements)
    case IfStmt(cases, els) => CallsInCases(cases) + (if els.Some? then CallsInAll(els.value.statements) else [])
    case CallStmt(num, _) => [num]
    case _ => []
  }

  function CallsInAll(ss: seq<Stmt>): seq<nat> {
    if ss == [] then [] else CallsIn(ss[0]) + CallsInAll(ss[1..])
  }

  function CallsInCases(cs: seq<IfCase>): seq<nat> {
    if cs == [] then [] else CallsInCase(cs[0]) + CallsInCases(cs[1..])
  }

  function CallsInCase(c: IfCase): seq<nat> {
    CallsInAll(c.ifBody.statements)
  }

  // ----- which fields are read

  /** Every type has a field of its own: setting it is seen, and setting any other is not. */
  lemma FieldUpdated(te: TypedExpr, t: VType, x: Expr)
    ensures FieldFor(te.(intExp := x), t) == if t.Int? then x else FieldFor(te, t)
    ensures FieldFor(te.(bmExp := x), t) == if t.BytesM? then x else FieldFor(te, t)
    ensures FieldFor(te.(boolExp := x), t) == if t.Bool? then x else FieldFor(te, t)
    ensures FieldFor(te.(bExp := x), t) == if t.Bytes? then x else FieldFor(te, t)
    ensures FieldFor(te.(decExpression := x), t) == if t.Decimal? then x else FieldFor(te, t)
    ensures FieldFor(te.(strExp := x), t) == if t.Str? then x else FieldFor(te, t)
    ensures FieldFor(te.(addrExp := x), t) == if t.Address? then x else FieldFor(te, t)
    ensures FieldFor(te.(list := x), t) == if t.FixedList? then x else FieldFor(te, t)
    ensures FieldFor(te.(dyn := x), t) == if t.DynArray? || t.NoType? then x else FieldFor(te, t)
  {
  }

  /** And so has every position of a payload. */
  lemma ValueUpdated(p: Payload, te: TypedExpr)
    ensures Values(p.(one := te)) == Values(p)[0 := te]
    ensures Values(p.(two := te)) == Values(p)[1 := te]
    ensures Values(p.(three := te)) == Values(p)[2 := te]
    ensures Values(p.(four := te)) == Values(p)[3 := te]
    ensures Values(p.(five := te)) == Values(p)[4 := te]
  {
  }

  /** A literal of its own is read wherever a message has one. */
  lemma LiteralUpdated(e: Expr, x: Literal)
    ensures e.Lit? || e.VarRef? || e.RawCallExpr? || e.ConvertInt? || e.ConvertDecimal? || e.ConvertBool? ||
            e.ConvertAddress? || e.ConvertBytesM? || e.ConvertBytes? || e.ConvertString? ==>
              LiteralOf(e.(lit := x)) == x
    ensures !(e.Lit? || e.VarRef? || e.RawCallExpr? || e.ConvertInt? || e.ConvertDecimal? || e.ConvertBool? ||
              e.ConvertAddress? || e.ConvertBytesM? || e.ConvertBytes? || e.ConvertString?) ==>
              LiteralOf(e) == NO_LITERAL
  {
  }
}
