/** The Vyper program the converter writes, as a tree. Parentheses are nodes: the converter decides where
    they go. */
module Emitted {
  import opened Types
  import opened Declarations
  import opened PyFloat

  datatype Op =
    | Add | Sub | Mul | Div | Mod | Pow | BitAnd | BitOr | BitXor | Shl | Shr
    | And | Or | Eq | Ne | Lt | Le | Gt | Ge

  predicate Arithmetic(op: Op) {
    op in {Add, Sub, Mul, Div, Mod, Pow, BitAnd, BitOr, BitXor, Shl, Shr}
  }

  predicate Logical(op: Op) {
    op in {And, Or, Eq, Ne}
  }

  predicate Comparison(op: Op) {
    op in {Eq, Ne, Lt, Le, Gt, Ge}
  }

  /** Everything that renders as name(arguments), and list literals. */
  datatype Builtin =
    | ListLiteral
    | Convert(to: VType)
    | Concat
    | Hash
    | EcRecover
    | EcAdd
    | EcMul
    | Create
    | RawCall(outsize: nat, isStatic: bool)

  datatype Arg = Arg(e: OExpr, at: VType)

  datatype OExpr =
    | OInt(v: int)
    | OLit(t: VType, text: string)
    | ORef(name: Name)
    | OBin(op: Op, l: OExpr, r: OExpr)
    | ONeg(e: OExpr)
    | ONot(e: OExpr)
    | OParen(e: OExpr)
    // A minus sign in front of the text of e, whatever it binds to there.
    | OMinus(e: OExpr)
    // A number that is no integer.
    | OFraction(value: Float)
    | OApp(f: Builtin, args: seq<Arg>)

  /** A variable written to, and the type that was asked for. The declared type is an annotation that the
      rules check against the declaration. */
  datatype Target = Target(name: Name, wanted: VType, ghost declared: VType)

  datatype ORange =
    | Constants(start: int, stop: int)
    | UpTo(length: nat)
    | FromName(first: Name, length: nat)

  datatype Action = Assert | Raise | SelfDestruct | Send | RawLog | RawRevert

  datatype OCase = OCase(cond: OExpr, body: seq<OStmt>)

  datatype OStmt =
    | SDecl(name: Name, t: VType, value: OExpr)
    | SDeclEmpty(name: Name, t: VType)
    | SDeclRawCall(name: Name, t: VType, value: OExpr)
    | SAssign(target: Target, value: OExpr)
    | SRawCall(targets: seq<Target>, value: OExpr)
    | SFor(counter: Name, range: ORange, body: seq<OStmt>)
    | SIf(cases: seq<OCase>, els: seq<OStmt>)
    | SCall(f: nat, targets: seq<Target>, args: seq<Arg>)
    | SReturn(values: seq<OExpr>)
    | SAct(act: Action, args: seq<Arg>)
    | SAppend(target: Target, item: VType, value: OExpr)
    | SPop(target: Target)
    | SBreak
    | SContinue
    | SPass
    | SBlank
}
