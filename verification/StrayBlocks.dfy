/** The same for statements and whole contracts: a message without the flaw is written by the rules of the language
    and no exceptions. */
module StrayBlocks {
  import opened Types
  import opened Declarations
  import opened Emitted
  import opened Checker
  import opened Messages
  import opened Mirror
  import opened Output
  import opened Flaws
  import opened StrayExprs
  import opened PyNumber
  import FuncTracker
  import CallGraph

  predicate BlockStrays(b: seq<OStmt>) {
    exists i :: 0 <= i < |b| && StmtStrays(b[i])
  }

  predicate StmtStrays(s: OStmt) {
    match s
    case SDecl(_, _, value) => Strays(value)
    case SDeclRawCall(_, _, value) => Strays(value)
    case SAssign(_, value) => Strays(value)
    case SRawCall(_, value) => Strays(value)
    case SFor(_, _, body) => BlockStrays(body)
    case SIf(cases, els) => (exists i :: 0 <= i < |cases| && CaseStrays(cases[i])) || BlockStrays(els)
    case SCall(_, _, args) => ArgsStray(args)
    case SReturn(values) => exists i :: 0 <= i < |values| && Strays(values[i])
    case SAct(_, args) => ArgsStray(args)
    case SAppend(_, _, value) => Strays(value)
    case _ => false
  }

  predicate CaseStrays(c: OCase) {
    Strays(c.cond) || BlockStrays(c.body)
  }

  lemma OneStrays(s: OStmt)
    ensures BlockStrays([s]) <==> StmtStrays(s)
  {
    hide StmtStrays;
    assert [s][0] == s;
  }

  lemma TypedStrays(te: TypedExpr, t: VType, sight: Sight, out: OExpr)
    requires TypedMirrors(te, t, sight, out)
    ensures Strays(out) ==> HasTyped(Straying, te)
  {
    hide Mirrors, Strays, HasTyped, Has;
    StrayHasFlaw(FieldFor(te, t), t, sight, out);
    FieldHas(Straying, te, t);
  }

  lemma PayloadStrays(p: Payload, types: seq<VType>, sight: Sight, values: seq<OExpr>)
    requires PayloadMirrors(p, types, sight, values)
    ensures (exists i :: 0 <= i < |values| && Strays(values[i])) ==> HasPayload(Straying, p)
  {
    hide TypedMirrors, Strays, HasTyped, HasPayload;
    if exists i :: 0 <= i < |values| && Strays(values[i]) {
      var i :| 0 <= i < |values| && Strays(values[i]);
      TypedStrays(Values(p)[i], types[i], sight, values[i]);
      ValueHas(Straying, p, i);
    }
  }

  lemma MessageStrays(e: Expr, sight: Sight, args: seq<Arg>, k: nat)
    requires MessageMirrors(e, sight, args, k)
    ensures k <= |args| <= k + 1 && (|args| == k + 1 && Strays(args[k].e) ==> Has(Straying, e))
  {
    hide Mirrors, ArgMirrors, Strays, Has;
    if |args| == k + 1 { ArgStrays(e, Str(100), sight, args, k); }
  }

  lemma AssignmentStrays(a: Assignment, sight: Sight, out: seq<OStmt>)
    requires AssignmentMirrors(a, sight, out)
    ensures BlockStrays(out) ==> AssignmentMentions(Straying, a)
  {
    hide TypedMirrors, Strays, HasTyped, NothingFits;
    var s := out[0];
    assert out == [s];
    OneStrays(s);
    TypedStrays(a.value, ExtractType(a.refId), sight, s.value);
  }

  lemma ExitStrays(exit: ExitStmt, force: bool, outputs: seq<VType>, sight: Sight, out: seq<OStmt>)
    requires ExitMirrors(exit, force, outputs, sight, out)
    ensures BlockStrays(out) ==> ExitMentions(Straying, exit)
  {
    hide PayloadMirrors, MessageMirrors, ArgMirrors, Strays, Has, HasPayload;
    var s := out[0];
    assert out == [s];
    OneStrays(s);
    match exit.kind {
      case SelfdExit(to) => ArgStrays(to, Address, sight, s.args, 0);
      case RaiseExit(errval) => MessageStrays(errval, sight, s.args, 0);
      case RevertExit(data) => ArgStrays(data, Bytes(100), sight, s.args, 0);
      case PlainExit =>
        if |outputs| > 0 || exit.flag || force { PayloadStrays(exit.payload, outputs, sight, s.values); }
    }
  }

  lemma CallStmtStrays(py: Python, f: nat, params: Payload, sig: Sig, env: Env, level: nat, out: seq<OStmt>)
    requires CallMirrors(py, f, params, sig, env, level, out)
    ensures BlockStrays(out) ==> HasPayload(Straying, params)
  {
    hide PayloadMirrors, Strays, HasPayload;
    var last := out[|out| - 1];
    PayloadStrays(params, sig.inputs, Sight(false, EnvAtLast(out, env, level), py), Expressions(last.args));
    if BlockStrays(out) {
      var i :| 0 <= i < |out| && StmtStrays(out[i]);
      assert out[i] == last;
      var k :| 0 <= k < |last.args| && Strays(last.args[k].e);
      assert Strays(Expressions(last.args)[k]);
    }
  }

  lemma RawCallStmtStrays(py: Python, rc: RawCallMessage, env: Env, level: nat, out: seq<OStmt>)
    requires RawCallStmtMirrors(py, rc, env, level, out)
    ensures BlockStrays(out) ==> HasRaw(Straying, rc)
  {
    hide RawCallArgs, HasRaw, DeclaredAs, NothingFits, ResponseSize;
    var size, last := ResponseSize(rc), out[|out| - 1];
    var call := ValueOf(last);
    RawArgsStray(rc, Sight(false, env, py), Sight(false, env + DeclaredAs(Bytes(size), out, level), py), call.args);
    forall i | 0 <= i < |out| - 1 ensures !StmtStrays(out[i]) {
      assert EmptyDeclaration(out[i]);
    }
    if BlockStrays(out) {
      var i :| 0 <= i < |out| && StmtStrays(out[i]);
      assert out[i] == last;
    }
  }

  lemma {:induction false} StatementStrays(s: Stmt, p: Place, env: Env, out: seq<OStmt>)
    requires StmtMirrors(s, p, env, out)
    ensures BlockStrays(out) ==> StmtMentions(Straying, s)
    decreases s, 1
  {
    hide AssignmentMirrors, BlockMirrors, CasesMirror, ElseMirrors, CallMirrors, RawCallStmtMirrors, RangeMirrors,
         TypedMirrors, MessageMirrors, ArgMirrors, OptionMirrors, NothingFits, Strays, BlockStrays, StmtStrays, Has,
         HasTyped, HasOption, HasPayload, HasRaw, AssignmentMentions, BlockMentions, CasesMention, ElseMentions;
    var sight := Sight(false, env, p.py);
    if AssignmentMirrors(s.assignment, sight, out) {
      AssignmentStrays(s.assignment, sight, out);
    } else {
      match s.kind {
        case NoKind =>
        case ForStmt(iter, body) =>
          BlockHasFlaw(body, Nested(p, true), env + {CounterDecl(out[0].counter, p.level)}, out[0].body);
          ForStrays(out);
        case IfStmt(cases, els) =>
          CasesHaveFlaw(cases, p, env, out[0].cases);
          ElseHasFlaw(els, p, env, out[0].els);
          IfStrays(out);
        case CallStmt(num, params) =>
          CallStmtStrays(p.py, num % p.functions, params, p.cx.callable[num % p.functions], env, p.level, out);
        case RawCallStmt(rc) => RawCallStmtStrays(p.py, rc, env, p.level, out);
        case _ => SimpleStrays(s, p, env, out);
      }
    }
  }

  lemma ForStrays(out: seq<OStmt>)
    requires |out| == 1 && out[0].SFor?
    ensures BlockStrays(out) <==> BlockStrays(out[0].body)
  {
    assert out == [out[0]];
    OneStrays(out[0]);
  }

  predicate CasesStray(cases: seq<OCase>) {
    exists i :: 0 <= i < |cases| && CaseStrays(cases[i])
  }

  lemma IfStrays(out: seq<OStmt>)
    requires |out| == 1 && out[0].SIf?
    ensures BlockStrays(out) <==> CasesStray(out[0].cases) || BlockStrays(out[0].els)
  {
    hide CaseStrays;
    assert out == [out[0]];
    OneStrays(out[0]);
  }

  /** Statements without blocks in them. */
  lemma SimpleStrays(s: Stmt, p: Place, env: Env, out: seq<OStmt>)
    requires StmtMirrors(s, p, env, out) && !AssignmentMirrors(s.assignment, Sight(false, env, p.py), out)
    requires !s.kind.ForStmt? && !s.kind.IfStmt? && !s.kind.CallStmt? && !s.kind.RawCallStmt?
    ensures BlockStrays(out) ==> StmtMentions(Straying, s)
  {
    hide AssignmentMirrors, TypedMirrors, MessageMirrors, ArgMirrors, OptionMirrors, NothingFits, Strays, BlockStrays,
         Has, HasTyped, AssignmentMentions;
    var sight := Sight(false, env, p.py);
    if s.kind.NoKind? { return; }
    var o := out[0];
    assert out == [o];
    OneStrays(o);
    match s.kind {
      case DeclStmt(t, value) => TypedStrays(value, ExtractType(t), sight, o.value);
      case AssertStmt(cond, reason) =>
        ArgStrays(cond, Bool, sight, o.args, 0);
        MessageStrays(reason, sight, o.args, 1);
      case AppendStmt(item) => if o.SAppend? { TypedStrays(item, o.item, sight, o.value); }
      case SendStmt(to, amount, gas) =>
        ArgStrays(to, Address, sight, o.args, 0);
        ArgStrays(amount, UINT, sight, o.args, 1);
        OptionStrays(gas, UINT, sight, o.args, 2);
      case RawLogStmt(topics, amount, dataBs, dataBm) =>
        ArgStrays(topics, FixedList((amount - 1) % 4 + 1, BytesM(32)), sight, o.args, 0);
        if dataBs.Some? {
          ArgStrays(dataBs.value, Bytes(100), sight, o.args, 1);
        } else {
          ArgStrays(dataBm, BytesM(32), sight, o.args, 1);
        }
      case _ =>
    }
  }

  lemma {:induction false} CasesHaveFlaw(cases: seq<IfCase>, p: Place, env: Env, out: seq<OCase>)
    requires CasesMirror(cases, p, env, out)
    ensures CasesStray(out) ==> CasesMention(Straying, cases)
    decreases cases
  {
    hide CaseMirrors, CaseMentions, BlockStrays;
    if CasesStray(out) {
      var i :| 0 <= i < |out| && CaseStrays(out[i]);
      if cases == [] {
        OneStrays(SPass);
      } else {
        CaseHasFlaw(cases[i], p, env, out[i]);
      }
    }
  }

  lemma {:induction false} CaseHasFlaw(x: IfCase, p: Place, env: Env, out: OCase)
    requires CaseMirrors(x, p, env, out)
    ensures CaseStrays(out) ==> CaseMentions(Straying, x)
    decreases x
  {
    hide Mirrors, BlockMirrors, Strays, BlockStrays, Has, BlockMentions;
    StrayHasFlaw(x.cond, Bool, Sight(false, env, p.py), out.cond);
    BlockHasFlaw(x.ifBody, Nested(p, p.inLoop), env, out.body);
  }

  lemma {:induction false} ElseHasFlaw(els: Option<Block>, p: Place, env: Env, out: seq<OStmt>)
    requires ElseMirrors(els, p, env, out)
    ensures BlockStrays(out) ==> ElseMentions(Straying, els)
    decreases els
  {
    hide BlockMirrors, StmtStrays, BlockMentions;
    if els.Some? { BlockHasFlaw(els.value, Nested(p, p.inLoop), env, out); }
  }

  predicate SomeMentions(ss: seq<Stmt>) {
    exists i :: 0 <= i < |ss| && StmtMentions(Straying, ss[i])
  }

  lemma SplitStrays(out: seq<OStmt>, k: int)
    requires 0 <= k <= |out|
    ensures BlockStrays(out) ==> BlockStrays(out[..k]) || BlockStrays(out[k..])
  {
    hide StmtStrays;
    if BlockStrays(out) {
      var i :| 0 <= i < |out| && StmtStrays(out[i]);
      if i < k { assert out[..k][i] == out[i]; } else { assert out[k..][i - k] == out[i]; }
    }
  }

  lemma {:induction false} GroupsHaveFlaw(ss: seq<Stmt>, p: Place, env: Env, out: seq<OStmt>)
    requires GroupsMirror(ss, p, env, out)
    ensures BlockStrays(out) ==> SomeMentions(ss)
    decreases ss
  {
    hide StmtMirrors, StmtStrays, StmtMentions;
    if ss != [] {
      var front, last := ss[..|ss| - 1], ss[|ss| - 1];
      var k :| GroupEnds(out, k) && GroupsMirror(front, p, env, out[..k]) &&
               StmtMirrors(last, p, EnvAfter(out[..k], env, p.level), out[k..]);
      GroupsHaveFlaw(front, p, env, out[..k]);
      StatementStrays(last, p, EnvAfter(out[..k], env, p.level), out[k..]);
      SplitStrays(out, k);
      if SomeMentions(front) {
        var i :| 0 <= i < |front| && StmtMentions(Straying, front[i]);
        assert ss[i] == front[i];
      }
    }
  }

  lemma {:induction false} BlockHasFlaw(block: Block, p: Place, env: Env, out: seq<OStmt>)
    requires BlockMirrors(block, p, env, out)
    ensures BlockStrays(out) ==> BlockMentions(Straying, block)
    decreases block
  {
    hide GroupsMirror, ExitMirrors, StmtStrays, StmtMentions, ExitMentions;
    var k :| GroupEnds(out, k) && GroupsMirror(block.statements, p, env, out[..k]) &&
             if p.level == 1 || block.exit.flag || |block.statements| == 0
             then ExitMirrors(block.exit, |block.statements| == 0, p.cx.outputs,
                              Sight(false, EnvAfter(out[..k], env, p.level), p.py), out[k..])
             else k == |out|;
    GroupsHaveFlaw(block.statements, p, env, out[..k]);
    SplitStrays(out, k);
    if p.level == 1 || block.exit.flag || |block.statements| == 0 {
      ExitStrays(block.exit, |block.statements| == 0, p.cx.outputs,
                 Sight(false, EnvAfter(out[..k], env, p.level), p.py), out[k..]);
    }
  }

  // ----- whole contracts

  predicate ContractStrays(out: ContractOutput) {
    || (exists i :: 0 <= i < |out.globals| && out.globals[i].value.Some? && Strays(out.globals[i].value.value))
    || (out.init.Some? && BlockStrays(out.init.value.body))
    || (exists i :: 0 <= i < |out.definitions| && BlockStrays(out.definitions[i].f.body))
    || (out.default.Some? && BlockStrays(out.default.value.body))
  }

  lemma GlobalHasFlaw(py: Python, out: ContractOutput, contract: Contract, i: nat)
    requires GlobalsOk(out.globals) && GlobalsMirror(py, contract.decls, out.globals) && i < |out.globals|
    requires out.globals[i].value.Some? && Strays(out.globals[i].value.value)
    ensures GlobalsMention(Straying, contract.decls)
  {
    hide TypedMirrors, Strays, HasTyped;
    var d, g, env := contract.decls[i], out.globals[i], GlobalEnv(out.globals[..i]);
    assert GlobalMirrors(py, d, g, env) && GlobalOk(g, env);
    TypedStrays(d.value, g.t, Sight(d.mut == Constant, env, py), g.value.value);
    assert GlobalMentions(Straying, d);
  }

  lemma FunctionHasFlaw(py: Python, out: ContractOutput, contract: Contract, i: nat)
    requires FunctionsOk(py, out.definitions, contract.functions, GlobalEnv(out.globals)) && i < |out.definitions|
    requires BlockStrays(out.definitions[i].f.body)
    ensures FunctionsMention(Straying, contract.functions)
  {
    hide BlockMirrors, BlockOk, BlockEffect, StmtStrays, BlockMentions, SanitizedCalls, CallGraph.Callees;
    var ds, globals, msg := out.definitions, GlobalEnv(out.globals), contract.functions[i];
    var f, sigs := ds[i].f, Signatures(CallGraph.Callees(SanitizedCalls(contract.functions), i), Functions(ds));
    assert DefinitionOk(py, ds, i, contract.functions, SanitizedCalls(contract.functions), globals);
    BlockHasFlaw(msg.block, Place(Ctx(sigs, f.outputs), |ds|, false, 1, py),
                 globals + ParameterDecls(ds[i].names, f.inputs), f.body);
    assert FunctionMentions(Straying, msg);
  }

  /** A contract that is right uses the two exceptions only if the message has a quotient or a subtraction that is
      evaluated. Without, every expression in it obeys the rules of the language as they are. */
  lemma NoFlawNoStray(py: Python, out: ContractOutput, contract: Contract)
    requires ContractOk(py, out, contract) && !Mentions(Straying, contract)
    ensures !ContractStrays(out)
  {
    hide GlobalsOk, GlobalsMirror, FunctionsOk, BlockMirrors, BlockOk, BlockEffect, StmtStrays, BlockMentions,
         GlobalsMention, FunctionsMention, Strays, CallableAfterAll;
    var globals := GlobalEnv(out.globals);
    if i: nat :| i < |out.globals| && out.globals[i].value.Some? && Strays(out.globals[i].value.value) {
      GlobalHasFlaw(py, out, contract, i);
    }
    if i: nat :| i < |out.definitions| && BlockStrays(out.definitions[i].f.body) {
      FunctionHasFlaw(py, out, contract, i);
    }
    if out.init.Some? {
      var x := out.init.value;
      BlockHasFlaw(contract.init.block, Place(Ctx(map[], []), 0, false, 1, py),
                   globals + ParameterDecls(x.names, x.types), x.body);
    }
    if out.default.Some? {
      var x := out.default.value;
      var sigs := CallableAfterAll(contract.functions, Functions(out.definitions));
      BlockHasFlaw(contract.defFunc.value.block, Place(Ctx(sigs, x.outputs), |out.definitions|, false, 1, py), globals,
                   x.body);
    }
  }
}
