/** What follows for a contract that obeys the rules: no recursion, mutability that covers everything that is
    called, and effects including the one the converter misses. */
module Consequences {
  import opened Types
  import opened Declarations
  import opened Emitted
  import Mirror
  import opened Checker
  import opened Soundness
  import opened PyNumber
  import opened Output
  import opened Flaws
  import opened Climbing
  import opened CallGraph
  import FuncTracker
  import opened Messages
  import opened StatementRules
  import opened LiveDeclarations
  import FunctionConverter

  // ----- calls in an emitted body

  function CalledIn(b: seq<OStmt>): set<nat> {
    if b == [] then {} else CalledIn(b[..|b| - 1]) + CalledBy(b[|b| - 1])
  }

  function CalledBy(s: OStmt): set<nat> {
    match s
    case SCall(f, _, _) => {f}
    case SFor(_, _, body) => CalledIn(body)
    case SIf(cases, els) => CalledInCases(cases) + CalledIn(els)
    case _ => {}
  }

  function CalledInCases(cases: seq<OCase>): set<nat> {
    if cases == [] then {} else CalledInCases(cases[..|cases| - 1]) + CalledInCase(cases[|cases| - 1])
  }

  function CalledInCase(c: OCase): set<nat> {
    CalledIn(c.body)
  }

  /** Only functions that may be called are called. */
  lemma {:induction false} CalledIsCallable(b: seq<OStmt>, c: Ctx, env: Env, level: nat, inLoop: bool, f: nat)
    requires BlockOk(b, c, env, level, inLoop) && f in CalledIn(b)
    ensures f in c.callable
    decreases b
  {
    var front, last := b[..|b| - 1], b[|b| - 1];
    if f in CalledIn(front) {
      CalledIsCallable(front, c, env, level, inLoop, f);
    } else {
      var env' := EnvAfter(front, env, level);
      match last {
        case SCall(_, _, _) =>
        case SFor(i, _, body) =>
          CalledIsCallable(body, c, env' + {Decl(i, level + 1, Int(256, false), false, 0)}, level + 1, true, f);
        case SIf(cases, els) =>
          if f in CalledIn(els) {
            CalledIsCallable(els, c, env', level + 1, inLoop, f);
          } else {
            var k := CaseThatCalls(cases, f);
            CalledIsCallable(cases[k].body, c, env', level + 1, inLoop, f);
          }
        case _ =>
      }
    }
  }

  lemma {:induction false} CaseThatCalls(cases: seq<OCase>, f: nat) returns (k: nat)
    requires f in CalledInCases(cases)
    ensures k < |cases| && f in CalledIn(cases[k].body)
  {
    if f in CalledInCase(cases[|cases| - 1]) {
      k := |cases| - 1;
    } else {
      k := CaseThatCalls(cases[..|cases| - 1], f);
    }
  }

  /** The effect of a body covers the mutability of everything it calls. */
  lemma {:induction false} EffectCoversCalls(b: seq<OStmt>, sigs: map<nat, Sig>, all: bool, f: nat)
    requires f in CalledIn(b) && f in sigs
    ensures sigs[f].mutability <= BlockEffect(b, sigs, all)
    decreases b
  {
    var front, last := b[..|b| - 1], b[|b| - 1];
    if f in CalledIn(front) {
      EffectCoversCalls(front, sigs, all, f);
    } else {
      match last {
        case SFor(_, _, body) => EffectCoversCalls(body, sigs, all, f);
        case SIf(cases, els) =>
          if f in CalledIn(els) {
            EffectCoversCalls(els, sigs, all, f);
          } else {
            CasesCoverCalls(cases, sigs, all, f);
          }
        case _ =>
      }
    }
  }

  lemma {:induction false} CasesCoverCalls(cases: seq<OCase>, sigs: map<nat, Sig>, all: bool, f: nat)
    requires f in CalledInCases(cases) && f in sigs
    ensures sigs[f].mutability <= CasesEffect(cases, sigs, all)
    decreases cases
  {
    var front, last := cases[..|cases| - 1], cases[|cases| - 1];
    if f in CalledInCases(front) {
      CasesCoverCalls(front, sigs, all, f);
    } else {
      EffectCoversCalls(last.body, sigs, all, f);
    }
  }

  /** One function after the other, each called in the body of the one before. */
  ghost predicate CallChain(fs: seq<FuncTracker.Function>, w: Walk) {
    && |w| > 0 && (forall i :: 0 <= i < |w| ==> w[i] < |fs|)
    && forall i :: 0 <= i < |w| - 1 ==> w[i + 1] in CalledIn(fs[w[i]].body)
  }

  lemma EmittedCall(py: Python, ds: seq<FuncTracker.Definition>, ms: seq<FuncMessage>, globals: Env, f: nat, g: nat)
    requires FunctionsOk(py, ds, ms, globals) && f < |ds| && g in CalledIn(ds[f].f.body)
    ensures g in Callees(SanitizedCalls(ms), f) && g < |ds| && !ds[g].f.external
    ensures ds[g].f.mutability <= ds[f].f.mutability
  {
    hide Mirror.BlockMirrors, BlockOk, BlockEffect, Acyclic;
    var fs := Functions(ds);
    assert DefinitionOk(py, ds, f, ms, SanitizedCalls(ms), globals);
    var sigs := Signatures(Callees(SanitizedCalls(ms), f), fs);
    CalledIsCallable(fs[f].body, Ctx(sigs, fs[f].outputs), globals + ParameterDecls(ds[f].names, fs[f].inputs), 1,
                     false, g);
    EffectCoversCalls(fs[f].body, sigs, false, g);
    assert FunctionConverter.OnlyInternal(Callees(SanitizedCalls(ms), f), fs);
  }

  /** Along any chain of emitted calls no function is met twice at its ends, every called function is internal,
      and the mutability of the caller covers that of everything it reaches. */
  lemma {:induction false} ChainsAreSafe(py: Python, ds: seq<FuncTracker.Definition>, ms: seq<FuncMessage>,
                                         globals: Env, w: Walk)
    requires FunctionsOk(py, ds, ms, globals) && CallChain(Functions(ds), w)
    ensures |w| > 1 ==> w[0] != Last(w) && !ds[Last(w)].f.external
    ensures ds[Last(w)].f.mutability <= ds[w[0]].f.mutability
    ensures IsWalk(SanitizedCalls(ms), w)
    decreases |w|
  {
    hide Mirror.BlockMirrors, BlockOk, BlockEffect, FunctionOk, CalledIn, Callees;
    if |w| > 1 {
      var front := Front(w);
      ChainsAreSafe(py, ds, ms, globals, front);
      EmittedCall(py, ds, ms, globals, Last(front), Last(w));
      forall i | 0 <= i < |w| - 1 ensures w[i + 1] in Callees(SanitizedCalls(ms), w[i]) {
        if i < |w| - 2 { assert front[i + 1] in Callees(SanitizedCalls(ms), front[i]); }
      }
      assert IsWalk(SanitizedCalls(ms), w);
      SanitizedCallsAreSafe(ms);
    }
  }

  /** Whatever is reached from a function through emitted calls has an effect that the function's own mutability
      covers. */
  lemma ReachedEffectIsCovered(py: Python, ds: seq<FuncTracker.Definition>, ms: seq<FuncMessage>, globals: Env, w: Walk)
    requires FunctionsOk(py, ds, ms, globals) && CallChain(Functions(ds), w)
    ensures BlockEffect(ds[Last(w)].f.body, Signatures(Callees(SanitizedCalls(ms), Last(w)), Functions(ds)), false) <=
            ds[w[0]].f.mutability
  {
    hide Mirror.BlockMirrors, BlockOk, BlockEffect, CalledIn, Callees;
    ChainsAreSafe(py, ds, ms, globals, w);
    assert DefinitionOk(py, ds, Last(w), ms, SanitizedCalls(ms), globals);
  }

  // ----- the full effect of a body

  /** Some call result is captured in storage that is strictly larger than the result. */
  ghost predicate CapturesOversized(b: seq<OStmt>) {
    b != [] && (CapturesOversized(b[..|b| - 1]) || StmtCaptures(b[|b| - 1]))
  }

  ghost predicate StmtCaptures(s: OStmt) {
    match s
    case SCall(_, xs, _) => exists i :: 0 <= i < |xs| && Oversized(xs[i])
    case SFor(_, _, body) => CapturesOversized(body)
    case SIf(cases, els) => CasesCapture(cases) || CapturesOversized(els)
    case _ => false
  }

  ghost predicate CasesCapture(cases: seq<OCase>) {
    cases != [] && (CasesCapture(cases[..|cases| - 1]) || CaseCaptures(cases[|cases| - 1]))
  }

  ghost predicate CaseCaptures(c: OCase) {
    CapturesOversized(c.body)
  }

  /** How a full effect relates to the one that leaves oversized captures out. */
  ghost predicate FullEffectIs(full: nat, carved: nat, captures: bool) {
    && carved <= full <= Max(carved, NON_PAYABLE)
    && (!captures ==> full == carved)
    && (captures ==> full >= NON_PAYABLE)
  }

  lemma {:induction false} WritesFull(xs: seq<Target>)
    ensures FullEffectIs(WritesOf(xs, true), WritesOf(xs, false), exists i :: 0 <= i < |xs| && Oversized(xs[i]))
  {
    if xs != [] {
      var front, last := xs[..|xs| - 1], xs[|xs| - 1];
      WritesFull(front);
      if exists i :: 0 <= i < |xs| && Oversized(xs[i]) {
        var i :| 0 <= i < |xs| && Oversized(xs[i]);
        if i < |front| { assert Oversized(front[i]); }
      }
      if exists i :: 0 <= i < |front| && Oversized(front[i]) {
        var i :| 0 <= i < |front| && Oversized(front[i]);
        assert Oversized(xs[i]);
      }
    }
  }

  lemma {:induction false} BlockFull(b: seq<OStmt>, sigs: map<nat, Sig>)
    ensures FullEffectIs(BlockEffect(b, sigs, true), BlockEffect(b, sigs, false), CapturesOversized(b))
    decreases b
  {
    if b != [] {
      BlockFull(b[..|b| - 1], sigs);
      StmtFull(b[|b| - 1], sigs);
    }
  }

  lemma {:induction false} StmtFull(s: OStmt, sigs: map<nat, Sig>)
    ensures FullEffectIs(StmtEffect(s, sigs, true), StmtEffect(s, sigs, false), StmtCaptures(s))
    decreases s
  {
    match s {
      case SCall(_, xs, _) => WritesFull(xs);
      case SFor(_, _, body) => BlockFull(body, sigs);
      case SIf(cases, els) =>
        CasesFull(cases, sigs);
        BlockFull(els, sigs);
      case _ =>
    }
  }

  lemma {:induction false} CasesFull(cases: seq<OCase>, sigs: map<nat, Sig>)
    ensures FullEffectIs(CasesEffect(cases, sigs, true), CasesEffect(cases, sigs, false), CasesCapture(cases))
    decreases cases
  {
    if cases != [] {
      CasesFull(cases[..|cases| - 1], sigs);
      CaseFull(cases[|cases| - 1], sigs);
    }
  }

  lemma {:induction false} CaseFull(c: OCase, sigs: map<nat, Sig>)
    ensures FullEffectIs(BlockEffect(c.body, sigs, true), BlockEffect(c.body, sigs, false), CaseCaptures(c))
    decreases c
  {
    BlockFull(c.body, sigs);
  }

  /** The mutability of an emitted function covers everything its body does, captures in storage included, if
      and only if it captures no call result in oversized storage or is at least nonpayable anyway. */
  lemma FullEffectSoundness(py: Python, ds: seq<FuncTracker.Definition>, ms: seq<FuncMessage>, globals: Env, f: nat)
    requires FunctionsOk(py, ds, ms, globals) && f < |ds|
    ensures var body := ds[f].f.body; var sigs := Signatures(Callees(SanitizedCalls(ms), f), Functions(ds));
            BlockEffect(body, sigs, true) <= ds[f].f.mutability <==>
            !CapturesOversized(body) || ds[f].f.mutability >= NON_PAYABLE
  {
    hide Mirror.BlockMirrors, BlockOk, BlockEffect, CapturesOversized;
    assert DefinitionOk(py, ds, f, ms, SanitizedCalls(ms), globals);
    BlockFull(ds[f].f.body, Signatures(Callees(SanitizedCalls(ms), f), Functions(ds)));
  }

  // ----- mutability is no greater than it must be

  /** A function declares exactly what is asked for or needed, whichever is more, unless its message has a power
      whose left operand may be left out. */
  lemma MutabilityIsExact(py: Python, ds: seq<FuncTracker.Definition>, ms: seq<FuncMessage>, globals: Env, f: nat)
    requires FunctionsOk(py, ds, ms, globals) && f < |ds| && !BlockMentions(Dropping, ms[f].block)
    ensures var sigs := Signatures(Callees(SanitizedCalls(ms), f), Functions(ds));
            ds[f].f.mutability == Max(ms[f].mut, BlockEffect(ds[f].f.body, sigs, false))
  {
    hide Mirror.BlockMirrors, BlockOk, BlockEffect, BlockMentions;
    assert DefinitionOk(py, ds, f, ms, SanitizedCalls(ms), globals);
  }

  lemma DefaultMutabilityIsExact(py: Python, out: ContractOutput, contract: Contract)
    requires ContractOk(py, out, contract) && out.default.Some?
    requires !BlockMentions(Dropping, contract.defFunc.value.block)
    ensures var sigs := CallableAfterAll(contract.functions, Functions(out.definitions));
            var d := out.default.value;
            d.mutability == Max(contract.defFunc.value.mut, BlockEffect(d.body, sigs, false))
  {
    hide Mirror.BlockMirrors, BlockOk, BlockEffect, BlockMentions, CallableAfterAll, GlobalsOk, GlobalsMirror,
         FunctionsOk, InitOk;
  }

  lemma {:induction false} EffectAtMost(b: seq<OStmt>, sigs: map<nat, Sig>, m: nat)
    requires m >= NON_PAYABLE && forall f :: f in sigs ==> sigs[f].mutability <= m
    ensures BlockEffect(b, sigs, false) <= m
    decreases b, 1
  {
    hide StmtEffect;
    if b != [] {
      EffectAtMost(b[..|b| - 1], sigs, m);
      StmtAtMost(b[|b| - 1], sigs, m);
    }
  }

  lemma {:induction false} StmtAtMost(s: OStmt, sigs: map<nat, Sig>, m: nat)
    requires m >= NON_PAYABLE && forall f :: f in sigs ==> sigs[f].mutability <= m
    ensures StmtEffect(s, sigs, false) <= m
    decreases s, 0
  {
    hide BlockEffect, Effect, EffectOfArgs, CasesEffect;
    match s {
      case SDecl(_, _, value) => EffectIsSmall(value);
      case SDeclRawCall(_, _, value) => EffectIsSmall(value);
      case SAssign(_, value) => EffectIsSmall(value);
      case SRawCall(xs, value) =>
        WritesAtMost(xs, true);
        EffectIsSmall(value);
      case SFor(_, _, body) => EffectAtMost(body, sigs, m);
      case SIf(cases, els) =>
        CasesAtMost(cases, sigs, m);
        EffectAtMost(els, sigs, m);
      case SCall(_, xs, args) =>
        WritesAtMost(xs, false);
        SmallArgs(args);
      case SReturn(values) => ValuesAtMost(values);
      case SAct(_, args) => SmallArgs(args);
      case SAppend(_, _, value) => EffectIsSmall(value);
      case _ =>
    }
  }

  lemma {:induction false} CasesAtMost(cases: seq<OCase>, sigs: map<nat, Sig>, m: nat)
    requires m >= NON_PAYABLE && forall f :: f in sigs ==> sigs[f].mutability <= m
    ensures CasesEffect(cases, sigs, false) <= m
    decreases cases, 0
  {
    hide BlockEffect, Effect;
    if cases != [] {
      CasesAtMost(cases[..|cases| - 1], sigs, m);
      EffectIsSmall(cases[|cases| - 1].cond);
      EffectAtMost(cases[|cases| - 1].body, sigs, m);
    }
  }

  lemma SmallArgs(args: seq<Arg>)
    ensures EffectOfArgs(args) <= NON_PAYABLE
  {
    forall i | 0 <= i < |args| ensures Effect(args[i].e) <= NON_PAYABLE { EffectIsSmall(args[i].e); }
    AllAtMost(args, NON_PAYABLE);
  }

  lemma {:induction false} WritesAtMost(xs: seq<Target>, all: bool)
    ensures WritesOf(xs, all) <= NON_PAYABLE
  {
    hide Oversized;
    if xs != [] { WritesAtMost(xs[..|xs| - 1], all); }
  }

  lemma {:induction false} ValuesAtMost(es: seq<OExpr>)
    ensures ValuesEffect(es) <= NON_PAYABLE
  {
    if es != [] {
      ValuesAtMost(es[..|es| - 1]);
      EffectIsSmall(es[|es| - 1]);
    }
  }

  /** Payable is written only where some message asks for it: no mutability exceeds nonpayable and what is asked
      for, at any depth of calls. */
  lemma NothingAboveAsked(py: Python, ds: seq<FuncTracker.Definition>, ms: seq<FuncMessage>, globals: Env, m: nat)
    requires FunctionsOk(py, ds, ms, globals) && m >= NON_PAYABLE
    requires forall i :: 0 <= i < |ds| ==> ms[i].mut <= m
    ensures forall i :: 0 <= i < |ds| ==> ds[i].f.mutability <= m
  {
    hide FunctionsOk, SanitizedCalls, Callees;
    forall i | 0 <= i < |ds| ensures ds[i].f.mutability <= m {
      FunctionConverter.OneStep(SanitizedCalls(ms), i);
      AtMostFrom(py, ds, ms, globals, m, [i]);
    }
  }

  /** Along every chain of calls, from its end backwards. */
  lemma {:induction false} AtMostFrom(py: Python, ds: seq<FuncTracker.Definition>, ms: seq<FuncMessage>, globals: Env,
                                      m: nat, path: Walk)
    requires FunctionsOk(py, ds, ms, globals) && m >= NON_PAYABLE && forall i :: 0 <= i < |ds| ==> ms[i].mut <= m
    requires IsWalk(SanitizedCalls(ms), path) && Last(path) < |ds|
    ensures ds[Last(path)].f.mutability <= m
    decreases FunctionConverter.Unvisited(|ds|, path)
  {
    hide FunctionOk, SanitizedCalls, Callees, WellFormed, Acyclic, BlockEffect, FunctionConverter.OnlyInternal,
         FunctionConverter.Unvisited, Mirror.BlockMirrors, BlockOk, BlockMentions;
    var f, calls := Last(path), SanitizedCalls(ms);
    var cs, sigs := Callees(calls, f), Signatures(Callees(calls, f), Functions(ds));
    SanitizedCallsAreSafe(ms);
    forall g | g in sigs ensures sigs[g].mutability <= m {
      var k :| 0 <= k < |cs| && cs[k] == g;
      FunctionConverter.StepDeeper(calls, |ds|, path, g, k);
      AtMostFrom(py, ds, ms, globals, m, path + [g]);
    }
    assert DefinitionOk(py, ds, f, ms, calls, globals);
    EffectAtMost(ds[f].f.body, sigs, m);
    LevelAtMost(py, ds, ms, globals, f, m);
  }

  lemma LevelAtMost(py: Python, ds: seq<FuncTracker.Definition>, ms: seq<FuncMessage>, globals: Env, f: nat, m: nat)
    requires f < |ds| && DefinitionOk(py, ds, f, ms, SanitizedCalls(ms), globals) && ms[f].mut <= m && NON_PAYABLE <= m
    requires BlockEffect(ds[f].f.body, Signatures(Callees(SanitizedCalls(ms), f), Functions(ds)), false) <= m
    ensures ds[f].f.mutability <= m
  {
    hide Mirror.BlockMirrors, BlockOk, BlockEffect, BlockMentions, SanitizedCalls, Callees;
  }

  // ----- messages for which the full effect is covered

  /** No plain global is larger than an output, of the same kind, of an internal function. */
  ghost predicate NoLargerGlobal(contract: Contract) {
    forall i, f, k ::
      0 <= i < |contract.decls| && i < MAX_STORAGE_VARIABLES && contract.decls[i].mut == Plain &&
      0 <= f < |contract.functions| && f < MAX_FUNCTIONS && !contract.functions[f].external &&
      0 <= k < |contract.functions[f].outputParams| && k < MAX_FUNCTION_OUTPUT ==>
        !LargerThan(ExtractType(contract.decls[i].t), ExtractType(contract.functions[f].outputParams[k]))
  }

  /** No storage variable in scope is larger than an output, of the same kind, of a function that may be called. */
  ghost predicate NothingLarger(env: Env, sigs: map<nat, Sig>) {
    forall d, f, k ::
      d in env && IsStorage(d.name) && f in sigs && 0 <= k < |sigs[f].outputs| ==> !LargerThan(d.t, sigs[f].outputs[k])
  }

  lemma TargetNotOversized(x: Target, env: Env)
    requires TargetOk(x, env, true) && ValidType(x.wanted)
    requires forall d :: d in env && IsStorage(d.name) ==> !LargerThan(d.t, x.wanted)
    ensures !Oversized(x)
  {
    var d :| d in env && d.mutable && TypeBy(d, x.name) == Some(x.declared) && Offers(d, x.name, x.wanted, true);
    StorageByDecl(d, x.name);
  }

  lemma StorageByDecl(d: Decl, n: Name)
    requires TypeBy(d, n).Some?
    ensures IsStorage(n) <==> IsStorage(d.name)
  {
  }

  /** What a block declares is no storage. */
  lemma {:induction false} StaysNotLarger(b: seq<OStmt>, c: Ctx, env: Env, level: nat, inLoop: bool)
    requires BlockOk(b, c, env, level, inLoop) && NothingLarger(env, c.callable)
    ensures NothingLarger(EnvAfter(b, env, level), c.callable)
    decreases |b|
  {
    hide LargerThan, ExprOk, TargetOk, CallAgrees, ArgsOk;
    if b != [] {
      StaysNotLarger(b[..|b| - 1], c, env, level, inLoop);
    }
  }

  /** Where no storage is larger than a result, no result is captured in larger storage. */
  lemma {:induction false} NoOversizedCaptures(b: seq<OStmt>, c: Ctx, env: Env, level: nat, inLoop: bool)
    requires BlockOk(b, c, env, level, inLoop) && NothingLarger(env, c.callable) && GoodSignatures(c.callable)
    ensures !CapturesOversized(b)
    decreases b
  {
    hide LargerThan, ExprOk, TargetOk, ArgsOk, Oversized, ValidType, EnvAfter;
    if b != [] {
      var front, last := b[..|b| - 1], b[|b| - 1];
      var env' := EnvAfter(front, env, level);
      NoOversizedCaptures(front, c, env, level, inLoop);
      StaysNotLarger(front, c, env, level, inLoop);
      match last {
        case SCall(f, xs, _) =>
          forall i | 0 <= i < |xs| ensures !Oversized(xs[i]) {
            TargetNotOversized(xs[i], env');
          }
        case SFor(i, _, body) =>
          NoOversizedCaptures(body, c, env' + {Decl(i, level + 1, Int(256, false), false, 0)}, level + 1, true);
        case SIf(cases, els) =>
          NoOversizedInCases(cases, c, env', level, inLoop);
          NoOversizedCaptures(els, c, env', level + 1, inLoop);
        case _ =>
      }
    }
  }

  lemma {:induction false} NoOversizedInCases(cases: seq<OCase>, c: Ctx, env: Env, level: nat, inLoop: bool)
    requires forall i :: 0 <= i < |cases| ==> BlockOk(cases[i].body, c, env, level + 1, inLoop)
    requires NothingLarger(env, c.callable) && GoodSignatures(c.callable)
    ensures !CasesCapture(cases)
    decreases cases
  {
    hide BlockOk, NothingLarger, GoodSignatures, CapturesOversized;
    if cases != [] {
      NoOversizedInCases(cases[..|cases| - 1], c, env, level, inLoop);
      NoOversizedCaptures(cases[|cases| - 1].body, c, env, level + 1, inLoop);
    }
  }

  lemma ParametersAreNoStorage(names: seq<Name>, types: seq<VType>, globals: Env)
    requires ParameterNames(names, types, globals)
    ensures forall d :: d in ParameterDecls(names, types) ==> !IsStorage(d.name)
  {
    forall d | d in ParameterDecls(names, types) ensures !IsStorage(d.name) {
      var i :| 0 <= i < |names| && d == Decl(names[i], 1, types[i], false, 0);
      assert FreshLocal(names[i], Plain, types[i], globals);
    }
  }

  lemma PlainIsStorage(gs: seq<GlobalDecl>, i: nat)
    requires GlobalsOk(gs) && i < |gs|
    ensures IsStorage(GlobalAsDecl(gs[i]).name) <==> gs[i].mutability == Plain
  {
    assert GlobalOk(gs[i], GlobalEnv(gs[..i]));
  }

  /** The globals and the callees of a converted contract, in terms of its message. */
  lemma NothingLargerInContract(py: Python, out: ContractOutput, contract: Contract, f: nat, names: seq<Name>,
                                types: seq<VType>)
    requires ContractOk(py, out, contract) && NoLargerGlobal(contract) && f < |out.definitions| && |names| == |types|
    requires ParameterNames(names, types, GlobalEnv(out.globals))
    ensures var sigs := Signatures(Callees(SanitizedCalls(contract.functions), f), Functions(out.definitions));
            NothingLarger(GlobalEnv(out.globals) + ParameterDecls(names, types), sigs) && GoodSignatures(sigs)
  {
    hide LargerThan, ExtractType, Mirror.BlockMirrors, BlockOk, BlockEffect, GlobalOk, Callees, SanitizedCalls, InitOk,
         DefaultOk, Mirror.TypedMirrors;
    var ds, calls, fs := out.definitions, SanitizedCalls(contract.functions), Functions(out.definitions);
    var sigs := Signatures(Callees(calls, f), fs);
    assert FunctionConverter.OnlyInternal(Callees(calls, f), fs);
    forall g | g in sigs
      ensures GoodTypes(sigs[g].inputs) && GoodTypes(sigs[g].outputs) && !contract.functions[g].external
      ensures SignatureOf(sigs[g].outputs, contract.functions[g].outputParams, MAX_FUNCTION_OUTPUT)
    {
      assert DefinitionOk(py, ds, g, contract.functions, calls, GlobalEnv(out.globals));
    }
    ParametersAreNoStorage(names, types, GlobalEnv(out.globals));
    forall d, g, k | d in GlobalEnv(out.globals) + ParameterDecls(names, types) && IsStorage(d.name) && g in sigs &&
                     0 <= k < |sigs[g].outputs|
      ensures !LargerThan(d.t, sigs[g].outputs[k])
    {
      var i :| 0 <= i < |out.globals| && d == GlobalAsDecl(out.globals[i]);
      assert GlobalMirrors(py, contract.decls[i], out.globals[i], GlobalEnv(out.globals[..i]));
      PlainIsStorage(out.globals, i);
      assert sigs[g].outputs[k] == ExtractType(contract.functions[g].outputParams[k]);
    }
  }

  /** If no plain global is larger than an output of its kind, then for every choice the mutability of every
      function covers everything its body does, captures in storage included. */
  lemma NoLargerGlobalSuffices(py: Python, out: ContractOutput, contract: Contract, f: nat)
    requires ContractOk(py, out, contract) && NoLargerGlobal(contract) && f < |out.definitions|
    ensures var fs := Functions(out.definitions);
            BlockEffect(fs[f].body, Signatures(Callees(SanitizedCalls(contract.functions), f), fs), true) <=
            fs[f].mutability
  {
    hide Mirror.BlockMirrors, BlockOk, BlockEffect, CapturesOversized, NoLargerGlobal, NothingLarger, GoodSignatures,
         Callees, SanitizedCalls, InitOk, DefaultOk, GlobalsOk, GlobalsMirror, GoodTypes;
    var ds, calls, globals := out.definitions, SanitizedCalls(contract.functions), GlobalEnv(out.globals);
    var fs := Functions(ds);
    assert DefinitionOk(py, ds, f, contract.functions, calls, globals);
    var names := ds[f].names;
    NothingLargerInContract(py, out, contract, f, names, fs[f].inputs);
    NoOversizedCaptures(fs[f].body, Ctx(Signatures(Callees(calls, f), fs), fs[f].outputs),
                        globals + ParameterDecls(names, fs[f].inputs), 1, false);
    FullEffectSoundness(py, ds, contract.functions, globals, f);
  }
}
