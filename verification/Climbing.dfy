/** How far a visit raises the mutability: to the effect of what it writes and no further, but for left operands of
    powers that are visited and then left out. */
module Climbing {
  import opened Types
  import opened Declarations
  import opened Emitted
  import opened IntBounds
  import opened Checker
  import opened BlockSoundness
  import opened Messages
  import opened Mirror
  import opened Flaws
  import opened PyNumber

  /** From `before` the level rose to `after`, at most to the effect of what was written; to nonpayable at most, if
      something may have been left out. */
  predicate Climbs(before: nat, after: nat, effect: nat, drops: bool) {
    before <= after <= Max(Max(before, effect), if drops then NON_PAYABLE else PURE)
  }

  lemma ClimbsStill(m: nat, effect: nat, drops: bool)
    ensures Climbs(m, m, effect, drops)
  {
  }

  lemma ClimbsOn(a: nat, b: nat, c: nat, first: nat, second: nat, effect: nat, drops: bool, more: bool, any: bool)
    requires Climbs(a, b, first, drops) && Climbs(b, c, second, more)
    requires first <= effect && second <= effect && (drops || more ==> any)
    ensures Climbs(a, c, effect, any)
  {
  }

  lemma ClimbsToNothing(a: nat, b: nat)
    requires Climbs(a, b, PURE, false)
    ensures a == b
  {
  }

  lemma ClimbsFurther(a: nat, b: nat, effect: nat, more: nat)
    requires Climbs(a, b, effect, false) && effect <= more
    ensures Climbs(a, b, more, false)
  {
  }

  lemma ClimbsWith(a: nat, b: nat, effect: nat, drops: bool, any: bool)
    requires Climbs(a, b, effect, drops) && (drops ==> any)
    ensures Climbs(a, b, effect, any)
  {
  }

  /** What reading or writing a variable needs. */
  function AccessEffect(n: Name, written: bool): nat {
    if !IsStorage(n) then PURE else if written then NON_PAYABLE else VIEW
  }

  // ----- effects of expressions

  lemma {:induction false} EffectIsSmall(e: OExpr)
    ensures Effect(e) <= NON_PAYABLE
    decreases e
  {
    match e {
      case OParen(x) => EffectIsSmall(x);
      case OMinus(x) => EffectIsSmall(x);
      case ONot(x) => EffectIsSmall(x);
      case ONeg(x) => EffectIsSmall(x);
      case OBin(_, l, r) =>
        EffectIsSmall(l);
        EffectIsSmall(r);
      case OApp(_, args) =>
        forall i | 0 <= i < |args| ensures Effect(args[i].e) <= NON_PAYABLE { EffectIsSmall(args[i].e); }
        AllAtMost(args, NON_PAYABLE);
      case _ =>
    }
  }

  lemma {:induction false} AllAtMost(args: seq<Arg>, m: nat)
    requires forall i :: 0 <= i < |args| ==> Effect(args[i].e) <= m
    ensures EffectOfArgs(args) <= m
  {
    hide Effect;
    if args != [] { AllAtMost(args[..|args| - 1], m); }
  }

  /** What can be evaluated reads nothing and calls nothing. */
  lemma {:induction false} KnownIsPure(py: Python, e: OExpr)
    requires Value(py, e).Some?
    ensures Effect(e) == PURE
    decreases e, 0
  {
    hide Operate;
    match e {
      case OParen(x) => KnownIsPure(py, x);
      case ONeg(x) => KnownIsPure(py, x);
      case OMinus(x) => MinusedIsPure(py, x, 1);
      case OBin(_, l, r) =>
        KnownIsPure(py, l);
        KnownIsPure(py, r);
      case _ =>
    }
  }

  lemma {:induction false} MinusedIsPure(py: Python, e: OExpr, signs: nat)
    requires Minused(py, e, signs).Some?
    ensures Effect(e) == PURE
    decreases e, 1
  {
    hide Operate, Value;
    match e {
      case OMinus(x) => MinusedIsPure(py, x, signs + 1);
      case OBin(op, l, r) =>
        SignsKeepUnknown(py, Value(py, e), signs);
        SignsKeepUnknown(py, Value(py, l), signs);
        if op == Pow {
          KnownIsPure(py, e);
        } else {
          KnownIsPure(py, l);
          KnownIsPure(py, r);
        }
      case _ =>
        SignsKeepUnknown(py, Value(py, e), signs);
        KnownIsPure(py, e);
    }
  }

  lemma {:induction false} SignsKeepUnknown(py: Python, n: Option<Num>, signs: nat)
    ensures NegationTimes(py, n, signs).Some? ==> n.Some?
    decreases signs
  {
    if signs > 0 { SignsKeepUnknown(py, Negation(py, n), signs - 1); }
  }

  /** Both operands are unknown, so that the left one is replaced by one. */
  predicate Drops(py: Python, op: Op, l: OExpr, r: OExpr) {
    op == Pow && Value(py, l).None? && Value(py, r).None?
  }

  /** The checks keep the effect of an operation, except for the left operand of a power of two unknowns. */
  lemma FoldedEffect(py: Python, t: VType, l: OExpr, op: Op, r: OExpr)
    requires t.Int? && t.n > 0
    ensures Effect(Folded(py, t, l, op, r)) == if Drops(py, op, l, r) then Effect(r) else Max(Effect(l), Effect(r))
  {
    hide Value, CheckBinopBounds, CheckLiteralBounds;
    var (a, o, b) := CheckBinopBounds(py, t, l, op, r);
    CheckedRightEffect(py, t, l, op, r);
    CheckedLeftEffect(py, t, l, op, r);
    CheckedEffect(py, t, OBin(o, a, b));
  }

  lemma CheckedRightEffect(py: Python, t: VType, l: OExpr, op: Op, r: OExpr)
    requires t.Int?
    ensures Effect(CheckBinopBounds(py, t, l, op, r).2) == Effect(r)
  {
    hide Value;
    if Value(py, r).Some? { KnownIsPure(py, r); }
  }

  lemma CheckedLeftEffect(py: Python, t: VType, l: OExpr, op: Op, r: OExpr)
    requires t.Int?
    ensures Effect(CheckBinopBounds(py, t, l, op, r).0) == if Drops(py, op, l, r) then PURE else Effect(l)
  {
    hide Value;
  }

  lemma CheckedEffect(py: Python, t: VType, e: OExpr)
    requires t.Int? && t.n > 0
    ensures Effect(CheckLiteralBounds(py, t, e)) == Effect(e)
  {
    hide Value;
    if Value(py, e).Some? { KnownIsPure(py, e); }
  }

  lemma {:induction false} WrittenIsPure(py: Python, e: Expr, t: VType, nested: bool)
    requires t.Int? && t.n > 0 && LiteralOnly(e)
    ensures Effect(Written(py, e, t, nested)) == PURE
    decreases e
  {
    hide Folded, CheckLiteralBounds, Generate;
    match e {
      case BinOp(op, l, r) =>
        WrittenIsPure(py, l, t, true);
        WrittenIsPure(py, r, t, true);
        FoldedEffect(py, t, Written(py, l, t, true), op, Written(py, r, t, true));
      case UnOp(x) =>
        WrittenIsPure(py, x, t, true);
        CheckedEffect(py, t, ONeg(Written(py, x, t, true)));
      case _ =>
    }
  }

  lemma {:induction false} LiterallyPure(e: OExpr)
    requires Literally(e)
    ensures Effect(e) == PURE
    decreases e
  {
    if e.OApp? {
      forall i | 0 <= i < |e.args| ensures Effect(e.args[i].e) == PURE { LiterallyPure(e.args[i].e); }
      AllAtMost(e.args, PURE);
    }
  }

  lemma ArgsAppend(args: seq<Arg>, a: Arg)
    ensures EffectOfArgs(args + [a]) == Max(EffectOfArgs(args), Effect(a.e))
  {
    hide Effect;
    assert (args + [a])[..|args|] == args;
  }

  lemma SingleArg(a: Arg)
    ensures EffectOfArgs([a]) == Effect(a.e) && EffectOfArgs([]) == PURE
  {
    hide Effect;
    assert [a] == [] + [a];
    ArgsAppend([], a);
  }

  lemma {:induction false} ArgsPrefix(args: seq<Arg>, more: seq<Arg>)
    requires args <= more
    ensures EffectOfArgs(args) <= EffectOfArgs(more)
    decreases |more|
  {
    hide Effect;
    if args != more { ArgsPrefix(args, more[..|more| - 1]); }
  }

  /** Fresh literals behind other arguments change no effect. */
  lemma {:induction false} ArgsFilled(args: seq<Arg>, more: seq<Arg>)
    requires args <= more && forall i :: |args| <= i < |more| ==> Literally(more[i].e)
    ensures EffectOfArgs(more) == EffectOfArgs(args)
    decreases |more|
  {
    hide Effect;
    if args != more {
      ArgsFilled(args, more[..|more| - 1]);
      LiterallyPure(more[|more| - 1].e);
    }
  }

  lemma AppEffect(f: Builtin, args: seq<Arg>)
    ensures Effect(OApp(f, args)) == Max(OwnEffect(f), EffectOfArgs(args))
  {
  }

  lemma FourArgs(args: seq<Arg>)
    requires |args| == 4
    ensures EffectOfArgs(args) ==
            Max(Max(Effect(args[0].e), Effect(args[1].e)), Max(Effect(args[2].e), Effect(args[3].e)))
  {
    hide Effect;
    SingleArg(args[0]);
    assert args[..1] == [args[0]] && args[..2] == args[..1] + [args[1]] && args[..3] == args[..2] + [args[2]];
    assert args == args[..3] + [args[3]];
    ArgsAppend(args[..1], args[1]);
    ArgsAppend(args[..2], args[2]);
    ArgsAppend(args[..3], args[3]);
  }

  // ----- visiting expressions

  /** Arguments are visited one after another. */
  lemma ArgsClimb(a: nat, b: nat, c: nat, args: seq<Arg>, more: seq<Arg>, drops: bool, later: bool, any: bool)
    requires Climbs(a, b, EffectOfArgs(args), drops) && Climbs(b, c, EffectOfArgs(more), later) && args <= more
    requires drops || later ==> any
    ensures Climbs(a, c, EffectOfArgs(more), any)
  {
    hide EffectOfArgs;
    ArgsPrefix(args, more);
    ClimbsOn(a, b, c, EffectOfArgs(args), EffectOfArgs(more), EffectOfArgs(more), drops, later, any);
  }

  lemma PartClimbs(a: nat, b: nat, c: nat, args: seq<Arg>, more: Arg, drops: bool, later: bool, any: bool)
    requires Climbs(a, b, EffectOfArgs(args), drops) && Climbs(b, c, Effect(more.e), later) && (drops || later ==> any)
    ensures Climbs(a, c, EffectOfArgs(args + [more]), any)
  {
    hide EffectOfArgs, Effect;
    ArgsAppend(args, more);
  }

  /** A call climbs to its own effect and to those of its arguments, in either order. */
  lemma AppClimbs(a: nat, b: nat, c: nat, f: Builtin, args: seq<Arg>, drops: bool)
    requires || (b == Max(a, OwnEffect(f)) && Climbs(b, c, EffectOfArgs(args), drops))
             || (Climbs(a, b, EffectOfArgs(args), drops) && c == Max(b, OwnEffect(f)))
    ensures Climbs(a, c, Effect(OApp(f, args)), drops)
  {
    hide EffectOfArgs, OwnEffect;
    AppEffect(f, args);
  }

  lemma BinClimbs(a: nat, b: nat, c: nat, e: Expr, l: OExpr, r: OExpr, op: Op, out: OExpr)
    requires e.BinOp? || e.BoolBinOp? || e.IntBoolBinOp? || e.DecBoolBinOp?
    requires Climbs(a, b, Effect(l), Has(Dropping, e.l)) && Climbs(b, c, Effect(r), Has(Dropping, e.r))
    requires Bare(out) == OBin(op, l, r)
    ensures Climbs(a, c, Effect(out), Has(Dropping, e))
  {
    hide Flawed;
    assert Effect(out) == Max(Effect(l), Effect(r));
  }

  lemma FoldClimbs(py: Python, a: nat, b: nat, c: nat, e: Expr, t: VType, l: OExpr, r: OExpr, out: OExpr)
    requires t.Int? && t.n > 0 && e.BinOp?
    requires Climbs(a, b, Effect(l), Has(Dropping, e.l)) && Climbs(b, c, Effect(r), Has(Dropping, e.r))
    requires LiteralOnly(e.l) ==> l == Written(py, e.l, t, true)
    requires LiteralOnly(e.r) ==> r == Written(py, e.r, t, true)
    requires Bare(out) == Folded(py, t, l, e.op, r)
    ensures Climbs(a, c, Effect(out), Has(Dropping, e))
  {
    hide Folded, Generate, Value, Effect;
    BareEffect(out);
    FoldedEffect(py, t, l, e.op, r);
    EffectIsSmall(l);
    if LiteralOnly(e.l) { WrittenIsPure(py, e.l, t, true); }
    if e.r.Lit? { LiteralIsKnown(py, e.r, t); }
  }

  lemma LiteralIsKnown(py: Python, e: Expr, t: VType)
    requires t.Int? && t.n > 0 && e.Lit?
    ensures Value(py, Written(py, e, t, true)).Some?
  {
  }

  lemma BareEffect(out: OExpr)
    ensures Effect(Bare(out)) == Effect(out)
  {
  }

  /** One operand or one thing to convert. */
  lemma InnerClimbs(a: nat, b: nat, e: Expr, x: OExpr, out: OExpr)
    requires e.UnOp? || e.BoolUnOp? || e.ConvertInt? || e.ConvertDecimal? || e.ConvertBool? || e.ConvertAddress? ||
             e.ConvertBytesM? || e.ConvertBytes? || e.ConvertString?
    requires Climbs(a, b, Effect(x), Has(Dropping, e.e)) && Effect(out) == Effect(x)
    ensures Climbs(a, b, Effect(out), Has(Dropping, e))
  {
    hide Flawed, Effect;
  }

  lemma SignEffect(x: OExpr, out: OExpr)
    requires Bare(out) == ONeg(x) || Bare(out) == ONot(x)
    ensures Effect(out) == Effect(x)
  {
  }

  lemma NegatedEffect(py: Python, t: VType, x: OExpr, out: OExpr)
    requires t.Int? && t.n > 0 && Bare(out) == CheckLiteralBounds(py, t, ONeg(x))
    ensures Effect(out) == Effect(x)
  {
    hide CheckLiteralBounds;
    CheckedEffect(py, t, ONeg(x));
    BareEffect(out);
  }

  lemma ConvertedEffect(py: Python, e: Expr, from: VType, t: VType, inner: OExpr)
    ensures Effect(Converted(py, e, from, t, inner)) == Effect(inner)
  {
    hide CheckLiteralBounds;
    if t.Int? && t.n > 0 { CheckedEffect(py, t, inner); }
    var out := Converted(py, e, from, t, inner);
    SingleArg(out.args[0]);
  }

  // ----- visiting statements

  lemma OneStatement(s: OStmt, sigs: map<nat, Sig>)
    ensures BlockEffect([s], sigs, false) == StmtEffect(s, sigs, false)
  {
    hide StmtEffect;
    assert [s][..0] == [];
  }

  lemma {:induction false} BothEffects(a: seq<OStmt>, b: seq<OStmt>, sigs: map<nat, Sig>)
    ensures BlockEffect(a + b, sigs, false) == Max(BlockEffect(a, sigs, false), BlockEffect(b, sigs, false))
    decreases |b|
  {
    hide StmtEffect;
    if b == [] {
      assert a + b == a;
    } else {
      BothEffects(a, b[..|b| - 1], sigs);
      assert (a + b)[..|a + b| - 1] == a + b[..|b| - 1];
    }
  }

  lemma LastEffect(b: seq<OStmt>, s: OStmt, sigs: map<nat, Sig>)
    ensures StmtEffect(s, sigs, false) <= BlockEffect(b + [s], sigs, false)
  {
    hide StmtEffect;
    BothEffects(b, [s], sigs);
    OneStatement(s, sigs);
  }

  /** Two pieces of a block, one after the other. */
  lemma BlocksClimb(a: nat, b: nat, c: nat, out: seq<OStmt>, more: seq<OStmt>, sigs: map<nat, Sig>, drops: bool,
                    later: bool, any: bool)
    requires Climbs(a, b, BlockEffect(out, sigs, false), drops) && Climbs(b, c, BlockEffect(more, sigs, false), later)
    requires drops || later ==> any
    ensures Climbs(a, c, BlockEffect(out + more, sigs, false), any)
  {
    hide BlockEffect;
    BothEffects(out, more, sigs);
  }

  lemma DeclarationClimbs(a: nat, b: nat, s: OStmt, sigs: map<nat, Sig>, drops: bool)
    requires s.SDecl? && Climbs(a, b, Effect(s.value), drops)
    ensures Climbs(a, b, BlockEffect([s], sigs, false), drops)
  {
    hide Effect, Climbs;
    OneStatement(s, sigs);
  }

  lemma AssignmentClimbs(a: nat, b: nat, c: nat, s: OStmt, sigs: map<nat, Sig>, drops: bool, any: bool)
    requires s.SAssign? || s.SAppend?
    requires Climbs(a, b, WriteEffect(s.target), false) && Climbs(b, c, Effect(s.value), drops) && (drops ==> any)
    ensures Climbs(a, c, BlockEffect([s], sigs, false), any)
  {
    hide Effect, WriteEffect;
    OneStatement(s, sigs);
  }

  lemma ActionClimbs(a: nat, b: nat, c: nat, act: Action, args: seq<Arg>, sigs: map<nat, Sig>, drops: bool)
    requires b == Max(a, ActionEffect(act)) && Climbs(b, c, EffectOfArgs(args), drops)
    ensures Climbs(a, c, BlockEffect([SAct(act, args)], sigs, false), drops)
  {
    hide EffectOfArgs, ActionEffect;
    OneStatement(SAct(act, args), sigs);
  }

  /** The mutability of the callee, then the results, then the arguments. */
  lemma CallClimbs(a: nat, b: nat, c: nat, d: nat, out: seq<OStmt>, call: OStmt, sigs: map<nat, Sig>, drops: bool)
    requires call.SCall? && call.f in sigs && b == Max(a, sigs[call.f].mutability)
    requires Climbs(b, c, WritesOf(call.targets, false), false) && Climbs(c, d, EffectOfArgs(call.args), drops)
    ensures Climbs(a, d, BlockEffect(out + [call], sigs, false), drops)
  {
    hide EffectOfArgs, WritesOf, BlockEffect;
    LastEffect(out, call, sigs);
  }

  lemma LoopClimbs(a: nat, b: nat, c: nat, s: OStmt, sigs: map<nat, Sig>, drops: bool)
    requires s.SFor? && Climbs(a, b, RangeEffect(s.range), false)
    requires Climbs(b, c, BlockEffect(s.body, sigs, false), drops)
    ensures Climbs(a, c, BlockEffect([s], sigs, false), drops)
  {
    hide RangeEffect;
    OneStatement(s, sigs);
  }

  lemma CaseClimbs(a: nat, b: nat, c: nat, cases: seq<OCase>, x: OCase, sigs: map<nat, Sig>, drops: bool, later: bool,
                   any: bool)
    requires Climbs(a, b, CasesEffect(cases, sigs, false), drops)
    requires Climbs(b, c, Max(Effect(x.cond), BlockEffect(x.body, sigs, false)), later)
    requires drops || later ==> any
    ensures Climbs(a, c, CasesEffect(cases + [x], sigs, false), any)
  {
    hide Effect, BlockEffect;
    assert (cases + [x])[..|cases|] == cases;
  }

  lemma IfClimbs(a: nat, b: nat, c: nat, s: OStmt, sigs: map<nat, Sig>, drops: bool, later: bool)
    requires s.SIf? && Climbs(a, b, CasesEffect(s.cases, sigs, false), drops)
    requires Climbs(b, c, BlockEffect(s.els, sigs, false), later)
    ensures Climbs(a, c, BlockEffect([s], sigs, false), drops || later)
  {
    hide CasesEffect;
    OneStatement(s, sigs);
  }

  lemma TargetsClimb(a: nat, b: nat, c: nat, xs: seq<Target>, x: Target)
    requires Climbs(a, b, WritesOf(xs, false), false)
    requires Climbs(b, c, if Oversized(x) then PURE else WriteEffect(x), false)
    ensures Climbs(a, c, WritesOf(xs + [x], false), false)
  {
    hide Oversized, WriteEffect;
    assert (xs + [x])[..|xs|] == xs;
  }

  lemma RawCallClimbs(a: nat, b: nat, c: nat, call: OExpr, x: Target)
    requires call.OApp? && Climbs(a, b, WriteEffect(x), false) && c == Max(b, OwnEffect(call.f))
    ensures Climbs(a, c, Max(WriteEffect(x), OwnEffect(call.f)), false)
  {
    hide WriteEffect, OwnEffect;
  }

  /** A new local variable, or a capture. */
  lemma CaptureEffect(s: OStmt, call: OExpr, x: Target, sigs: map<nat, Sig>)
    requires || s == SRawCall([x], call)
             || (x.name.Var? && (s.SDeclRawCall? || s.SDecl?) && s.value == call)
    ensures Effect(call) <= BlockEffect([s], sigs, false) && WriteEffect(x) <= BlockEffect([s], sigs, false)
  {
    hide Effect;
    OneStatement(s, sigs);
    assert [x][..0] == [];
  }

  lemma CapturesEffect(x: Target, y: Target, call: OExpr, sigs: map<nat, Sig>)
    ensures var effect := StmtEffect(SRawCall([x, y], call), sigs, false);
            Effect(call) <= effect && WriteEffect(x) <= effect && WriteEffect(y) <= effect
  {
    hide Effect, WriteEffect;
    assert [x, y][..1] == [x] && [x][..0] == [];
    assert WritesOf([x], true) == Max(WritesOf([], true), WriteEffect(x));
  }

  lemma FieldDrops(te: TypedExpr, t: VType)
    ensures Has(Dropping, FieldFor(te, t)) ==> HasTyped(Dropping, te)
  {
    FieldHas(Dropping, te, t);
  }

  lemma PayloadDrops(params: Payload, i: nat, t: VType)
    requires i < 5
    ensures Has(Dropping, FieldFor(Values(params)[i], t)) ==> HasPayload(Dropping, params)
  {
    hide Has, HasTyped, HasPayload;
    FieldHas(Dropping, Values(params)[i], t);
    ValueHas(Dropping, params, i);
  }
}
