/** How the rules for statements are met step by step, independent of the converter's state. */
module StatementRules {
  import opened Types
  import opened Declarations
  import opened LiveDeclarations
  import opened Emitted
  import opened Checker
  import opened Soundness
  import opened PyNumber
  import opened BlockSoundness
  import opened Lengths
  import opened Messages
  import opened Mirror
  import opened Flaws
  import opened Output
  import opened Climbing
  import FuncTracker

  /** A raw call whose arguments were visited in `env`. */
  ghost predicate RawCallReady(call: OExpr, env: Env, m: nat) {
    && call.OApp? && call.f.RawCall? && RawArgTypes(call.args)
    && ArgsOk(call.args, env) && Effect(call) <= m
  }

  lemma ReadyRawCall(call: OExpr, env: Env, m: nat)
    requires call.OApp? && call.f.RawCall? && SoundArgs(call.args, env, m, false) && OwnEffect(call.f) <= m
    requires RawArgTypes(call.args)
    ensures RawCallReady(call, env, m)
  {
    SoundArgsOk(call.args, env, m, false);
  }

  lemma RawCallOk(s: OStmt, c: Ctx, env: Env, level: nat, inLoop: bool, m: nat)
    requires s.SRawCall? && s.targets == [] && RawCallReady(s.value, env, m)
    ensures Wrote([s], c, env, env, level, inLoop, m)
  {
    WroteOne(s, c, env, env, level, inLoop, m);
  }

  lemma CallableIff(ids: seq<nat>, fs: seq<FuncTracker.Function>, f: nat)
    requires f < |fs|
    ensures f in Signatures(ids, fs) <==> f in ids
  {
  }

  /** Updating one function leaves the signatures of others as they were. */
  lemma SignaturesElsewhere(ids: seq<nat>, fs: seq<FuncTracker.Function>, id: nat, f: FuncTracker.Function)
    requires id < |fs| && id !in ids
    ensures Signatures(ids, fs[id := f]) == Signatures(ids, fs)
  {
  }

  /** The variable was declared between `before` and `after`, or nothing was. */
  ghost predicate RawDeclared(x: Target, declared: bool, before: Env, after: Env, level: nat) {
    if declared then
      FreshLocal(x.name, Plain, x.wanted, before) && after == before + {Decl(x.name, level, x.wanted, true, 0)}
    else before == after
  }

  /** The status is declared before the response, although it is registered after it. */
  lemma StatusFirst(response: Target, declared: bool, status: Target, statusDeclared: bool, env: Env, middle: Env,
                    after: Env, level: nat)
    requires RawDeclared(response, declared, env, middle, level) &&
             RawDeclared(status, statusDeclared, middle, after, level)
    ensures var first := env + DeclIf(statusDeclared, status, level);
            RawDeclared(status, statusDeclared, env, first, level) &&
            RawDeclared(response, declared, first, after, level)
    ensures middle <= after
  {
    var first := env + DeclIf(statusDeclared, status, level);
    if declared && statusDeclared {
      assert Decl(response.name, level, response.wanted, true, 0) in middle;
      assert after == first + {Decl(response.name, level, response.wanted, true, 0)};
    } else if declared {
      assert first == env;
    } else if statusDeclared {
      assert after == first;
    } else {
      assert first == env;
    }
  }

  lemma CaptureOk(status: Target, response: Target, call: OExpr, c: Ctx, middle: Env, after: Env, level: nat,
                  inLoop: bool, m: nat)
    requires RawCallReady(call, middle, m) && middle <= after
    requires TargetOk(status, after, false) && TargetOk(response, after, false)
    requires WriteEffect(response) <= m && WriteEffect(status) <= m
    ensures StmtOk(SRawCall([status, response], call), c, after, level, inLoop)
    ensures StmtEffect(SRawCall([status, response], call), c.callable, false) <= m
  {
    hide TargetOk, WriteEffect, ExprOk;
    ArgsInLarger(call.args, middle, after);
    PairOfWrites(status, response, m);
  }

  lemma AppendOk(d: Decl, base: VType, value: OExpr, c: Ctx, env: Env, level: nat, inLoop: bool, m: nat)
    requires d in env && d.mutable && d.t.DynArray? && d.t.base == base && d.t.size <= MAX_LIST_SIZE
    requires Sound(value, base, env, m, false) && (IsStorage(d.name) ==> m >= NON_PAYABLE)
    ensures StmtOk(SAppend(Target(d.name, ANY_ARRAY, d.t), base, value), c, env, level, inLoop)
    ensures StmtEffect(SAppend(Target(d.name, ANY_ARRAY, d.t), base, value), c.callable, false) <= m
  {
    hide WellTyped, Readable, Effect;
    assert Offers(d, d.name, ANY_ARRAY, false);
  }

  lemma AssignmentRaises(before: bool, after: bool, a: Assignment, sight: Sight, cx: Ctx)
    requires !sight.constant
    requires var t := ExtractType(a.refId); RaisedAs(before, after, FieldFor(a.value, t), t, sight)
    ensures RaisedBetween(before, after, AssignmentCertain(sight.py, a), AssignmentMentions(Raising, a), cx)
  {
    hide Has, HasTyped, IntCertain, LiteralRaises, ExtractType, PairInSigs, NothingFits;
    FieldHas(Raising, a.value, ExtractType(a.refId));
  }

  lemma AppendRaises(before: bool, after: bool, item: TypedExpr, t: VType, sight: Sight)
    requires !IsPair(t) && RaisedAs(before, after, FieldFor(item, t), t, sight)
    ensures RaisedOnly(before, after, HasTyped(Raising, item))
  {
    hide Has, HasTyped, RaisedAs;
    RaisedAsOnly(before, after, FieldFor(item, t), t, sight);
    FieldHas(Raising, item, t);
  }

  // ----- which messages are leaves

  lemma BoolLeaf(e: Expr, sight: Sight)
    requires !(e.BoolBinOp? && Logical(e.op)) && !e.BoolUnOp?
    requires !((e.IntBoolBinOp? || e.DecBoolBinOp?) && Comparison(e.op)) && !(e.RawCallExpr? && !sight.constant)
    ensures Mirror.IsLeaf(e, Bool, sight)
  {
  }

  lemma DecimalIsLeaf(e: Expr, sight: Sight)
    requires !(e.BinOp? && Arithmetic(e.op)) && !e.UnOp?
    ensures Mirror.IsLeaf(e, Decimal, sight)
  {
  }

  lemma IntIsLeaf(e: Expr, t: VType, sight: Sight)
    requires t.Int? && t.n > 0 && !(e.BinOp? && Arithmetic(e.op)) && !e.UnOp?
    ensures Mirror.IsLeaf(e, t, sight)
  {
  }

  // ----- argument types, by what the arguments are written for

  lemma OptionType(e: Option<Expr>, t: VType, sight: Sight, args: seq<Arg>, i: nat)
    requires OptionMirrors(e, t, sight, args, i)
    ensures e.Some? ==> i < |args| && args[i].at == t
  {
    hide Mirrors;
    if e.Some? { assert ArgMirrors(e.value, t, sight, args, i); }
  }

  lemma RawTypes(rc: RawCallMessage, sight: Sight, later: Sight, args: seq<Arg>)
    requires RawCallArgs(rc, sight, later, args)
    ensures RawArgTypes(args)
  {
    hide Mirrors, OptionMirrors;
    OptionType(rc.gas, UINT, later, args, 2);
    OptionType(rc.value, UINT, later, args, 2 + Given(rc.gas));
  }

  lemma ProxyTypes(e: Expr, sight: Sight, out: OExpr)
    requires e.CreateProxy? && ProxyMirrors(e, sight, out)
    ensures ResultOk(Create, out.args, Address)
  {
    hide Mirrors, OptionMirrors;
    OptionType(e.value, UINT, sight, out.args, 1);
    OptionType(e.salt, BytesM(32), sight, out.args, 1 + Given(e.value));
  }

  lemma BlueprintTypes(e: Expr, sight: Sight, out: OExpr)
    requires e.CreateFromBlueprint? && BlueprintMirrors(e, sight, out)
    ensures ResultOk(Create, out.args, Address)
  {
    hide Mirrors, OptionMirrors;
    var raw := RawCount(e);
    OptionType(e.value, UINT, sight, out.args, 1 + raw);
    OptionType(e.codeOffset, UINT, sight, out.args, 1 + raw + Given(e.value));
    OptionType(e.salt, BytesM(32), sight, out.args, 1 + raw + Given(e.value) + Given(e.codeOffset));
  }

  lemma EcRecTypes(e: Expr, sight: Sight, out: OExpr)
    requires e.EcRec? && EcRecMirrors(e, sight, out)
    ensures ResultOk(EcRecover, out.args, Address)
  {
    hide Mirrors;
  }

  lemma DeclaredTarget(d: Decl, env: Env)
    requires d in env && d.mutable
    ensures TargetOk(Target(d.name, d.t, d.t), env, false)
  {
    assert Offers(d, d.name, d.t, false);
  }

  lemma CallTyped(call: OExpr, t: VType, env: Env)
    requires call.OApp? && call.f.RawCall? && RawArgTypes(call.args) && ArgsOk(call.args, env)
    requires t == Bool || t == Bytes(call.f.outsize)
    ensures ExprOk(call, t, env)
  {
    forall i | 0 <= i < |call.args| ensures WellTyped(call.args[i].e, call.args[i].at, env) {
      assert ExprOk(call.args[i].e, call.args[i].at, env);
    }
  }

  lemma OneWrite(x: Target, m: nat)
    requires WriteEffect(x) <= m
    ensures WritesOf([x], true) <= m
  {
    assert [x][..0] == [];
  }

  lemma PairOfWrites(x: Target, y: Target, m: nat)
    requires WriteEffect(x) <= m && WriteEffect(y) <= m
    ensures WritesOf([x, y], true) <= m
  {
    OneWrite(x, m);
    assert [x, y][..1] == [x];
  }

  lemma ArgsInLarger(args: seq<Arg>, env: Env, env': Env)
    requires ArgsOk(args, env) && env <= env'
    ensures ArgsOk(args, env')
  {
    forall i | 0 <= i < |args| ensures ExprOk(args[i].e, args[i].at, env') {
      assert ExprOk(args[i].e, args[i].at, env);
      TypedInLarger(args[i].e, args[i].at, env, env');
    }
  }

  // ----- what a raw call statement declares

  function DeclIf(declared: bool, x: Target, level: nat): Env {
    if declared then {Decl(x.name, level, x.wanted, true, 0)} else {}
  }

  lemma NothingDeclared(level: nat)
    ensures forall t :: DeclaredAs(t, [], level) == {}
  {
  }

  lemma MoreDeclare(t: VType, out: seq<OStmt>, s: OStmt, level: nat)
    ensures DeclaredAs(t, out + [s], level) ==
            DeclaredAs(t, out, level) + (set d | d in DeclaredBy(s, level) && d.t == t)
  {
    assert (out + [s])[..|out|] == out;
  }

  lemma OneDeclares(t: VType, s: OStmt, level: nat)
    ensures DeclaredAs(t, [s], level) == set d | d in DeclaredBy(s, level) && d.t == t
  {
    assert [s][..0] == [];
  }

  lemma CaptureDeclares(xs: seq<Target>, call: OExpr, level: nat)
    ensures forall t :: DeclaredAs(t, [SRawCall(xs, call)], level) == {}
    ensures xs == [] ==> CapturesAs(SRawCall(xs, call), [])
  {
    forall t ensures DeclaredAs(t, [SRawCall(xs, call)], level) == {} {
      OneDeclares(t, SRawCall(xs, call), level);
    }
  }

  /** What comes into scope with the response is the response. */
  lemma ResponseScope(x: Target, declared: bool, before: Env, after: Env, level: nat)
    requires RawDeclared(x, declared, before, after, level)
    ensures after - before == DeclIf(declared, x, level) && after == before + (after - before)
  {
  }

  lemma RawCallStmtIs(py: Python, rc: RawCallMessage, env: Env, level: nat, out: seq<OStmt>, response: Env)
    requires |out| > 0 && CapturesAs(out[|out| - 1], StatusTypes(rc) + ResponseTypes(ResponseSize(rc)))
    requires var call := ValueOf(out[|out| - 1]);
             && call.OApp? && call.f == RawCall(ResponseSize(rc), rc.static_.boolval)
             && RawCallArgs(rc, Sight(false, env, py), Sight(false, env + response, py), call.args)
    requires forall i :: 0 <= i < |out| - 1 ==> EmptyDeclaration(out[i])
    requires DeclaredAs(Bytes(ResponseSize(rc)), out, level) == response
    requires response != {} ==> NothingFits(Bytes(ResponseSize(rc)), env, true)
    requires DeclaredAs(Bool, out, level) != {} ==> NothingFits(Bool, env + response, true)
    ensures RawCallStmtMirrors(py, rc, env, level, out)
  {
    hide RawCallArgs, NothingFits, DeclaredAs, CapturesAs;
  }

  // ----- falling back on the assignment

  /** The kind of the statement cannot be written here: it has none, it leaves a loop outside of one, the call is
      not offered, or no array can be written. */
  ghost predicate FallsBack(s: Stmt, p: Place, env: Env) {
    match s.kind
    case NoKind => true
    case ContinueStmt => !p.inLoop
    case BreakStmt => !p.inLoop
    case CallStmt(num, _) => !(p.functions > 0 && num % p.functions in p.cx.callable)
    case AppendStmt(_) => NothingFits(ANY_ARRAY, env, true)
    case PopStmt => NothingFits(ANY_ARRAY, env, true)
    case _ => false
  }

  lemma FallbackMirrors(s: Stmt, p: Place, env: Env, out: seq<OStmt>)
    requires FallsBack(s, p, env) && AssignmentMirrors(s.assignment, Sight(false, env, p.py), out)
    ensures StmtMirrors(s, p, env, out)
  {
    hide AssignmentMirrors, NothingFits, CallMirrors;
  }

  lemma FallbackRaises(s: Stmt, p: Place, env: Env)
    requires FallsBack(s, p, env)
    ensures StmtCertain(p.py, s) ==> AssignmentCertain(p.py, s.assignment)
    ensures AssignmentMentions(Raising, s.assignment) ==> StmtMentions(Raising, s)
  {
    hide AssignmentMentions, AssignmentCertain, NothingFits;
  }

  // ----- call targets

  ghost predicate AllDenote(names: seq<Name>, env: Env) {
    forall n :: n in names ==> Denotes(n, env)
  }

  ghost predicate Denotes(n: Name, env: Env) {
    exists d :: d in env && TypeBy(d, n).Some?
  }

  /** A variable declared for a result is not one that receives an earlier result. */
  lemma FreshTarget(d: Decl, taken: seq<Name>, before: Env, after: Env)
    requires d in after && before <= after && d.mutable && ValidType(d.t)
    requires AllDenote(taken, before) && forall e :: e in before ==> TypeBy(e, d.name).None?
    ensures d.name !in taken && TargetOk(Target(d.name, d.t, d.t), after, true)
  {
    forall n | n in taken ensures n != d.name {
      assert Denotes(n, before);
    }
    FitsItself(d.t);
    assert Offers(d, d.name, d.t, true);
  }

  /** What was not free stays so: more may be in scope by then. */
  lemma NoneFreeLater(t: VType, taken: seq<Name>, env: Env, middle: Env, after: Env)
    requires env <= middle <= after && NoneFree(t, taken, middle, middle)
    ensures NoneFree(t, taken, env, after)
  {
    hide Offers;
    HoldsInLarger(t, env, middle);
    HoldsInLarger(t, middle, after);
  }

  lemma HoldsInLarger(t: VType, env: Env, env': Env)
    requires env <= env'
    ensures forall n :: Holds(n, t, env) ==> Holds(n, t, env')
  {
    hide Offers;
    forall n | Holds(n, t, env) ensures Holds(n, t, env') {
      var d :| d in env && d.mutable && Offers(d, n, t, true);
      assert d in env';
    }
  }

  lemma NothingNeeded(types: seq<VType>, env: Env)
    requires types == []
    ensures DeclaredForNeed([], [], types, env, env)
  {
  }

  lemma OneMoreTarget(out: seq<OStmt>, decls: seq<OStmt>, xs: seq<Target>, x: Target, types: seq<VType>, i: nat,
                      env: Env, middle: Env, after: Env)
    requires env <= middle <= after && |xs| == i < |types| && x.name !in NamesOfTargets(xs)
    requires DeclaredForNeed(out, xs, types[..i], env, middle)
    requires forall m :: 0 <= m < |out| ==> out[m].SDeclEmpty? && out[m].name in NamesOfTargets(xs)
    requires forall m :: 0 <= m < |decls| ==> decls[m].SDeclEmpty? && decls[m].name == x.name
    requires decls != [] ==> NoneFree(types[i], NamesOfTargets(xs), middle, after)
    ensures DeclaredForNeed(out + decls, xs + [x], types[..i + 1], env, after)
  {
    hide Holds;
    var all, more := out + decls, xs + [x];
    forall n, t | Holds(n, t, env) ensures Holds(n, t, middle) { HoldsInLarger(t, env, middle); }
    forall n, t | Holds(n, t, middle) ensures Holds(n, t, after) { HoldsInLarger(t, middle, after); }
    forall j | 0 <= j <= i && Declares(all, more[j].name)
      ensures NoneFree(types[..i + 1][j], NamesOfTargets(more[..j]), env, after)
    {
      var m :| 0 <= m < |all| && all[m].SDeclEmpty? && all[m].name == more[j].name;
      if j < i {
        assert more[..j] == xs[..j] && NamesOfTargets(xs)[j] == xs[j].name;
        assert m < |out| && Declares(out, xs[j].name);
        assert NoneFree(types[..i][j], NamesOfTargets(xs[..j]), env, middle);
      } else {
        assert more[..j] == xs && m >= |out|;
      }
    }
  }

  lemma NoNames(env: Env)
    ensures AllDenote([], env)
  {
  }

  lemma NoTargets()
    ensures WritesOf([], false) == PURE && DistinctTargets([])
  {
  }

  /** Storage of exactly the type of the result is among the globals the converter compares with. */
  lemma CaptureIsNoticed(d: Decl, n: Name, t: VType)
    requires d.mutable && IsStorage(d.name) && d.level == 0
    requires Offers(d, n, t, true) && TypeBy(d, n) == Some(t)
    ensures InReach(d, 0, true) && Offers(d, n, t, false)
  {
  }

  /** A larger variable is not: the witness is a storage variable of 20 bytes that receives 10. It may be
      chosen as a target, yet it is not among the globals that are looked up for the result's type. */
  lemma OversizedCaptureWitness()
    ensures var x := Storage(Var(Plain, "BYTES", 0)); var d := Decl(x, 0, Bytes(20), true, 0);
            && x in Visible([d], 1, Bytes(10), true, true)
            && x !in Visible([d], 0, Bytes(10), true, false)
            && Oversized(Target(x, Bytes(10), Bytes(20)))
  {
    var x := Storage(Var(Plain, "BYTES", 0));
    var d := Decl(x, 0, Bytes(20), true, 0);
    VisibleExact([d], 1, Bytes(10), true, true, x);
    VisibleExact([d], 0, Bytes(10), true, false, x);
    assert d in [d];
  }

  /** A type of the same kind as t, for dynamic arrays with the same items, that holds more. */
  predicate LargerThan(declared: VType, t: VType) {
    Sized(t) && Sized(declared) && SameKind(declared, t) && Capacity(declared) > Capacity(t)
  }

  /** Every storage variable that may receive a result of type t is noticed if and only if no storage variable is of
      that kind and larger. */
  lemma CapturesNoticedIff(live: seq<Decl>, level: nat, t: VType)
    requires Sized(t) && UniqueNames(set d | d in live)
    requires forall d :: d in live ==> (IsStorage(d.name) <==> d.level == 0 && d.mutable)
    ensures (forall n :: n in Visible(live, level, t, true, true) && IsStorage(n) ==>
                         n in Visible(live, 0, t, true, false)) <==>
            !exists d :: d in live && InReach(d, 0, true) && LargerThan(d.t, t)
  {
    hide Visible;
    forall n
      ensures n in Visible(live, level, t, true, true) <==>
              exists d :: d in live && InReach(d, level, true) && Offers(d, n, t, true)
      ensures n in Visible(live, 0, t, true, false) <==>
              exists d :: d in live && InReach(d, 0, true) && Offers(d, n, t, false)
    {
      VisibleExact(live, level, t, true, true, n);
      VisibleExact(live, 0, t, true, false, n);
    }
    if exists d :: d in live && InReach(d, 0, true) && LargerThan(d.t, t) {
      var d :| d in live && InReach(d, 0, true) && LargerThan(d.t, t);
      assert Offers(d, d.name, t, true) && d.name in Visible(live, level, t, true, true);
      OneDeclaration(live, d);
    } else {
      forall n | n in Visible(live, level, t, true, true) && IsStorage(n)
        ensures n in Visible(live, 0, t, true, false)
      {
        var d :| d in live && InReach(d, level, true) && Offers(d, n, t, true);
        assert !LargerThan(d.t, t) && InReach(d, 0, true);
        assert Offers(d, n, t, false);
      }
    }
  }

  lemma FitsItself(t: VType)
    ensures Fits(t, t, true)
  {
  }

  lemma TargetsInLarger(xs: seq<Target>, env: Env, env': Env, assignee: bool)
    requires env <= env' && forall j :: 0 <= j < |xs| ==> TargetOk(xs[j], env, assignee)
    ensures forall j :: 0 <= j < |xs| ==> TargetOk(xs[j], env', assignee)
  {
    forall j | 0 <= j < |xs| ensures TargetOk(xs[j], env', assignee) {
      var x := xs[j];
      var d :| d in env && d.mutable && TypeBy(d, x.name) == Some(x.declared) && Offers(d, x.name, x.wanted, assignee);
      assert d in env';
    }
  }

  lemma DenoteMore(names: seq<Name>, x: Target, env: Env, env': Env)
    requires AllDenote(names, env) && env <= env' && TargetOk(x, env', true)
    ensures AllDenote(names + [x.name], env')
  {
    forall n | n in names + [x.name] ensures Denotes(n, env') {
      if n in names {
        assert Denotes(n, env);
        var d :| d in env && TypeBy(d, n).Some?;
        assert d in env';
      }
    }
  }

  lemma WritesAppend(xs: seq<Target>, x: Target, m: nat, m': nat)
    requires WritesOf(xs, false) <= m <= m' && (!Oversized(x) ==> WriteEffect(x) <= m')
    ensures WritesOf(xs + [x], false) <= m'
  {
    assert (xs + [x])[..|xs|] == xs;
  }

  lemma CallOk(s: OStmt, c: Ctx, env: Env, level: nat, inLoop: bool, m: nat)
    requires s.SCall? && s.f in c.callable && c.callable[s.f].mutability <= m
    requires ArgsOk(s.args, env) && EffectOfArgs(s.args) <= m
    requires CallAgrees(c.callable[s.f], s.targets, s.args) && DistinctTargets(s.targets)
    requires WritesOf(s.targets, false) <= m
    requires forall j :: 0 <= j < |s.targets| ==> TargetOk(s.targets[j], env, true)
    ensures StmtOk(s, c, env, level, inLoop) && StmtEffect(s, c.callable, false) <= m && DeclaredBy(s, level) == {}
  {
  }

  lemma {:induction false} ExpressionsEffect(args: seq<Arg>)
    ensures ValuesEffect(Expressions(args)) == EffectOfArgs(args)
    decreases |args|
  {
    if args != [] {
      ExpressionsEffect(args[..|args| - 1]);
      assert Expressions(args)[..|args| - 1] == Expressions(args[..|args| - 1]);
    }
  }

  lemma ReturnOk(args: seq<Arg>, c: Ctx, env: Env, level: nat, inLoop: bool, m: nat)
    requires SoundArgs(args, env, m, false) && |args| == |c.outputs|
    requires forall i :: 0 <= i < |args| ==> args[i].at == c.outputs[i]
    ensures StmtOk(SReturn(Expressions(args)), c, env, level, inLoop)
    ensures StmtEffect(SReturn(Expressions(args)), c.callable, false) <= m
  {
    SoundArgsOk(args, env, m, false);
    ExpressionsEffect(args);
  }

  lemma BodyAdds(b: seq<OStmt>, c: Ctx, inner: Env, after: Env, level: nat, inLoop: bool, m: nat)
    requires Wrote(b, c, inner, after, level, inLoop, m)
    ensures inner <= after && forall d :: d in after - inner ==> d.level == level && d.mutable
    ensures BlockOk(b, c, inner, level, inLoop) && BlockEffect(b, c.callable, false) <= m
  {
    EnvAdds(b, inner, level);
  }

  lemma ForOk(s: OStmt, c: Ctx, env: Env, level: nat, inLoop: bool, m: nat)
    requires s.SFor? && FreshLocal(s.counter, Counter, Int(256, false), env) && RangeCheck(s.range, env) &&
             RangeEffect(s.range) <= m
    requires BlockOk(s.body, c, env + {Decl(s.counter, level + 1, Int(256, false), false, 0)}, level + 1, true)
    requires BlockEffect(s.body, c.callable, false) <= m
    ensures Wrote([s], c, env, env, level, inLoop, m)
  {
    hide BlockOk, BlockEffect;
    assert StmtOk(s, c, env, level, inLoop) && StmtEffect(s, c.callable, false) <= m;
    WroteOne(s, c, env, env, level, inLoop, m);
  }

  ghost predicate CasesOk(cases: seq<OCase>, c: Ctx, env: Env, level: nat, inLoop: bool) {
    forall i :: 0 <= i < |cases| ==>
      ExprOk(cases[i].cond, Bool, env) && BlockOk(cases[i].body, c, env, level + 1, inLoop)
  }

  lemma NoCases(c: Ctx, env: Env, level: nat, inLoop: bool)
    ensures CasesOk([], c, env, level, inLoop) && CasesEffect([], c.callable, false) == PURE
  {
  }

  lemma CaseAppends(cases: seq<OCase>, x: OCase, c: Ctx, env: Env, level: nat, inLoop: bool, m: nat, m': nat)
    requires CasesOk(cases, c, env, level, inLoop) && CasesEffect(cases, c.callable, false) <= m <= m'
    requires ExprOk(x.cond, Bool, env) && Effect(x.cond) <= m'
    requires BlockOk(x.body, c, env, level + 1, inLoop) && BlockEffect(x.body, c.callable, false) <= m'
    ensures CasesOk(cases + [x], c, env, level, inLoop) && CasesEffect(cases + [x], c.callable, false) <= m'
  {
    hide BlockOk, BlockEffect, ExprOk;
    assert (cases + [x])[..|cases|] == cases;
  }

  lemma PassCase(c: Ctx, env: Env, level: nat, inLoop: bool)
    ensures var cases := [OCase(OLit(Bool, "False"), [SPass])];
            CasesOk(cases, c, env, level, inLoop) && CasesEffect(cases, c.callable, false) == PURE
  {
    var x := OCase(OLit(Bool, "False"), [SPass]);
    WroteOne(SPass, c, env, env, level + 1, inLoop, PURE);
    NoCases(c, env, level, inLoop);
    CaseAppends([], x, c, env, level, inLoop, PURE, PURE);
    assert [] + [x] == [x];
  }

  lemma EmptyBlock(c: Ctx, env: Env, level: nat, inLoop: bool)
    ensures BlockOk([], c, env, level, inLoop) && BlockEffect([], c.callable, false) == PURE
  {
  }

  lemma IfOk(s: OStmt, c: Ctx, env: Env, level: nat, inLoop: bool, m: nat)
    requires s.SIf? && CasesOk(s.cases, c, env, level, inLoop) && CasesEffect(s.cases, c.callable, false) <= m
    requires BlockOk(s.els, c, env, level + 1, inLoop) && BlockEffect(s.els, c.callable, false) <= m
    ensures Wrote([s], c, env, env, level, inLoop, m)
  {
    hide BlockOk, BlockEffect, CasesEffect, ExprOk;
    assert StmtOk(s, c, env, level, inLoop) && StmtEffect(s, c.callable, false) <= m;
    WroteOne(s, c, env, env, level, inLoop, m);
  }

  /** The first parameter types, up to a cap. */
  function ParameterTypes(params: seq<SchemaType>, cap: nat): (r: seq<VType>)
    ensures |r| == if |params| < cap then |params| else cap
    ensures forall i :: 0 <= i < |r| ==> r[i] == ExtractType(params[i]) && ValidType(r[i])
  {
    seq(if |params| < cap then |params| else cap, i requires 0 <= i < |params| => ExtractType(params[i]))
  }

  lemma ParametersAppend(names: seq<Name>, types: seq<VType>, name: Name, t: VType, globals: Env, before: Env)
    requires ParameterNames(names, types, globals) && FreshLocal(name, Plain, t, before)
    requires before == globals + ParameterDecls(names, types)
    ensures ParameterNames(names + [name], types + [t], globals)
    ensures before + {Decl(name, 1, t, false, 0)} == globals + ParameterDecls(names + [name], types + [t])
  {
    forall i | 0 <= i < |names| ensures names[i] != name {
      assert Decl(names[i], 1, types[i], false, 0) in ParameterDecls(names, types);
    }
    var more := ParameterDecls(names + [name], types + [t]);
    assert more == ParameterDecls(names, types) + {Decl(name, 1, t, false, 0)} by {
      forall d | d in ParameterDecls(names, types) ensures d in more {
        var i :| 0 <= i < |names| && d == Decl(names[i], 1, types[i], false, 0);
        assert d == Decl((names + [name])[i], 1, (types + [t])[i], false, 0);
      }
      assert Decl((names + [name])[|names|], 1, (types + [t])[|names|], false, 0) in more;
    }
  }

  predicate AllAt(args: seq<Arg>, t: VType) {
    forall i :: 0 <= i < |args| ==> args[i].at == t
  }

  lemma NoArgs(env: Env, m: nat, c: bool)
    ensures SoundArgs([], env, m, c)
  {
  }

  lemma LiteralType(args: seq<Arg>, i: nat, env: Env, m: nat, c: bool)
    requires SoundArgs(args, env, m, c) && i < |args|
    ensures args[i].e.OLit? ==> args[i].e.t == args[i].at
  {
  }

  lemma SoundArgsLater(args: seq<Arg>, env: Env, m: nat, m': nat, c: bool)
    requires SoundArgs(args, env, m, c) && m <= m'
    ensures SoundArgs(args, env, m', c)
  {
  }

  /** The arguments of ecrecover were visited in the order hash, then v, r, s as given, then those read as
      256-bit integers. This puts them in the order hash, v, r, s. */
  function InOrder(rest: seq<Arg>, v: bool, r: bool, s: bool): (args: seq<Arg>)
    requires |rest| == 4
    ensures |args| == 4
  {
    var given := (if v then 1 else 0) + (if r then 1 else 0) + (if s then 1 else 0);
    var vAt := if v then 1 else 1 + given;
    var rAt := if r then (if v then 2 else 1) else 1 + given + (if v then 0 else 1);
    var sAt := if s then given else 3;
    [rest[0], rest[vAt], rest[rAt], rest[sAt]]
  }

  /** That order is the one the message has them in. */
  lemma EcrecoverOrder(e: Expr, sight: Sight, rest: seq<Arg>)
    requires e.EcRec? && |rest| == 4 && ArgMirrors(e.hash, BytesM(32), sight, rest, 0)
    requires OptionMirrors(e.v8, Int(8, false), sight, rest, 1) &&
             OptionMirrors(e.rb, BytesM(32), sight, rest, 1 + Given(e.v8))
    requires OptionMirrors(e.sb, BytesM(32), sight, rest, 1 + Given(e.v8) + Given(e.rb))
    requires var given := 1 + Given(e.v8) + Given(e.rb) + Given(e.sb);
             && (e.v8.None? ==> ArgMirrors(e.vi, UINT, sight, rest, given))
             && (e.rb.None? ==> ArgMirrors(e.ri, UINT, sight, rest, given + 1 - Given(e.v8)))
             && (e.sb.None? ==> ArgMirrors(e.si, UINT, sight, rest, 3))
    ensures EcRecMirrors(e, sight, OApp(EcRecover, InOrder(rest, e.v8.Some?, e.rb.Some?, e.sb.Some?)))
  {
    hide Mirrors, LeafMirrors;
  }

  lemma InOrderSound(rest: seq<Arg>, v: bool, r: bool, s: bool, env: Env, m: nat, c: bool)
    requires |rest| == 4 && SoundArgs(rest, env, m, c)
    ensures SoundArgs(InOrder(rest, v, r, s), env, m, c)
  {
  }

  lemma InOrderEffect(rest: seq<Arg>, v: bool, r: bool, s: bool)
    requires |rest| == 4
    ensures EffectOfArgs(InOrder(rest, v, r, s)) == EffectOfArgs(rest)
  {
    hide EffectOfArgs, Effect;
    FourArgs(rest);
    FourArgs(InOrder(rest, v, r, s));
  }

  predicate PartFits(a: Arg, t: VType) {
    if t.Str? then a.at.Str? else a.at.Bytes? || a.at.BytesM?
  }

  predicate PartsFit(args: seq<Arg>, t: VType) {
    (t.Bytes? || t.Str?) && TotalSize(args) <= t.m && forall i :: 0 <= i < |args| ==> PartFits(args[i], t)
  }

  lemma FirstPart(a: Arg, env: Env, m: nat, c: bool)
    requires Sound(a.e, a.at, env, m, c)
    ensures SoundArgs([a], env, m, c) && TotalSize([a]) == PartSize(a.at)
  {
    assert [a][..0] == [];
  }

  lemma PartAppends(args: seq<Arg>, a: Arg, t: VType, env: Env, m: nat, m': nat, c: bool)
    requires SoundArgs(args, env, m, c) && m <= m' && Sound(a.e, a.at, env, m', c)
    ensures SoundArgs(args + [a], env, m', c)
    ensures TotalSize(args + [a]) == TotalSize(args) + PartSize(a.at)
  {
    SoundArgsAppend(args, a, env, m, m', c);
    assert (args + [a])[..|args|] == args;
  }

  lemma ConcatResult(args: seq<Arg>, t: VType)
    requires |args| >= 2 && PartsFit(args, t)
    ensures ResultOk(Concat, args, t)
  {
  }
}
