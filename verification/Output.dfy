/** The finished contract, and what it means for its functions to be right. */
module Output {
  import opened Types
  import opened Declarations
  import opened Emitted
  import opened Checker
  import opened Messages
  import opened Mirror
  import opened Flaws
  import opened Climbing
  import opened Soundness
  import opened PyNumber
  import FuncTracker
  import FunctionConverter
  import CallGraph

  predicate GoodTypes(ts: seq<VType>) {
    |ts| <= 5 && forall i :: 0 <= i < |ts| ==> ValidType(ts[i])
  }

  function SigOf(f: FuncTracker.Function): Sig {
    Sig(f.mutability, f.inputs, f.outputs)
  }

  /** The signatures of the listed functions. */
  function Signatures(ids: seq<nat>, fs: seq<FuncTracker.Function>): map<nat, Sig> {
    map f | f in ids && f < |fs| :: SigOf(fs[f])
  }

  ghost predicate GoodSignatures(sigs: map<nat, Sig>) {
    forall f :: f in sigs ==> GoodTypes(sigs[f].inputs) && GoodTypes(sigs[f].outputs)
  }

  ghost predicate DistinctNames(names: seq<Name>) {
    forall i, j :: 0 <= i < j < |names| ==> names[i] != names[j]
  }

  /** Distinct local names that no global has. */
  ghost predicate ParameterNames(names: seq<Name>, types: seq<VType>, globals: Env) {
    && |names| == |types| && DistinctNames(names)
    && forall i :: 0 <= i < |names| ==> FreshLocal(names[i], Plain, types[i], globals)
  }

  /** Parameters are read-only variables of level 1. */
  ghost function ParameterDecls(names: seq<Name>, types: seq<VType>): Env
    requires |names| == |types|
  {
    set i | 0 <= i < |names| :: Decl(names[i], 1, types[i], false, 0)
  }

  /** Function id is finished: its parameter names match its signature, its signature is the one of the
      message cut at five, its body is written for the block of the message, and it follows the rules in the
      environment of the globals and its own parameters, with calls to finished functions only. */
  ghost predicate FunctionOk(py: Python, fs: seq<FuncTracker.Function>, callees: seq<nat>, id: nat, names: seq<Name>,
                             msg: FuncMessage, globals: Env)
    requires id < |fs|
  {
    var f, sigs := fs[id], Signatures(callees, fs);
    && ParameterNames(names, f.inputs, globals)
    && GoodTypes(f.inputs) && GoodTypes(f.outputs)
    && SignatureOf(f.inputs, msg.inputParams, MAX_FUNCTION_INPUT)
    && SignatureOf(f.outputs, msg.outputParams, MAX_FUNCTION_OUTPUT)
    && BlockOk(f.body, Ctx(sigs, f.outputs), globals + ParameterDecls(names, f.inputs), 1, false)
    && BlockEffect(f.body, sigs, false) <= f.mutability
    && Climbs(msg.mut, f.mutability, BlockEffect(f.body, sigs, false), BlockMentions(Dropping, msg.block))
    && BlockMirrors(msg.block, Place(Ctx(sigs, f.outputs), |fs|, false, 1, py),
                    globals + ParameterDecls(names, f.inputs),
                    f.body)
  }

  ghost predicate SignatureOf(types: seq<VType>, params: seq<SchemaType>, cap: nat) {
    && |types| == (if |params| < cap then |params| else cap)
    && forall i :: 0 <= i < |types| ==> types[i] == ExtractType(params[i])
  }

  // ----- the whole contract

  datatype GlobalDecl = GlobalDecl(name: Name, t: VType, mutability: Prefix, value: Option<OExpr>)
  datatype InitOutput = InitOutput(names: seq<Name>, types: seq<VType>, immutables: seq<GlobalDecl>, body: seq<OStmt>)
  datatype DefaultOutput = DefaultOutput(mutability: nat, outputs: seq<VType>, body: seq<OStmt>)
  datatype ContractOutput = ContractOutput(globals: seq<GlobalDecl>, init: Option<InitOutput>,
                                           definitions: seq<FuncTracker.Definition>, default: Option<DefaultOutput>)

  /** A plain global is referred to as self.name, a constant or immutable by its own name. */
  function GlobalAsDecl(g: GlobalDecl): Decl {
    Decl(if g.mutability == Plain then Storage(g.name) else g.name, 0, g.t, g.mutability == Plain, 0)
  }

  ghost function GlobalEnv(gs: seq<GlobalDecl>): Env {
    set i | 0 <= i < |gs| :: GlobalAsDecl(gs[i])
  }

  /** The names are fresh and tell the mutability, values are well typed over the earlier globals, and constants are
      constant. */
  ghost predicate GlobalOk(g: GlobalDecl, env: Env) {
    && NamedFor(g.name, g.mutability, g.t)
    && FreshName(GlobalAsDecl(g).name, env)
    && (g.value.Some? <==> g.mutability != Plain)
    && (g.value.Some? ==> ExprOk(g.value.value, g.t, env))
    && (g.mutability == Constant ==> ConstantValue(g.value.value))
  }

  ghost predicate GlobalsOk(gs: seq<GlobalDecl>) {
    forall i :: 0 <= i < |gs| ==> GlobalOk(gs[i], GlobalEnv(gs[..i]))
  }

  /** One global for each declaration of the message, at most five, each with its own type and value. */
  ghost predicate GlobalsMirror(py: Python, decls: seq<DeclMessage>, gs: seq<GlobalDecl>) {
    && |gs| == (if |decls| < MAX_STORAGE_VARIABLES then |decls| else MAX_STORAGE_VARIABLES)
    && forall i :: 0 <= i < |gs| ==> GlobalMirrors(py, decls[i], gs[i], GlobalEnv(gs[..i]))
  }

  ghost predicate GlobalMirrors(py: Python, v: DeclMessage, g: GlobalDecl, env: Env) {
    && g.t == ExtractType(v.t) && g.mutability == v.mut
    && (g.value.Some? ==> TypedMirrors(v.value, g.t, Sight(v.mut == Constant, env, py), g.value.value))
  }

  lemma GlobalsAppend(gs: seq<GlobalDecl>, g: GlobalDecl)
    requires GlobalsOk(gs) && GlobalOk(g, GlobalEnv(gs))
    ensures GlobalsOk(gs + [g]) && GlobalEnv(gs + [g]) == GlobalEnv(gs) + {GlobalAsDecl(g)}
  {
    hide GlobalOk, GlobalAsDecl;
    var all := gs + [g];
    forall i | 0 <= i < |all| ensures GlobalOk(all[i], GlobalEnv(all[..i])) {
      if i < |gs| {
        assert all[..i] == gs[..i];
      } else {
        assert all[..i] == gs;
      }
    }
    forall d | d in GlobalEnv(gs) ensures d in GlobalEnv(all) {
      var i :| 0 <= i < |gs| && d == GlobalAsDecl(gs[i]);
      assert d == GlobalAsDecl(all[i]);
    }
    assert GlobalAsDecl(all[|gs|]) in GlobalEnv(all);
  }

  function Immutables(gs: seq<GlobalDecl>): seq<GlobalDecl> {
    if gs == [] then []
    else Immutables(gs[..|gs| - 1]) + (if gs[|gs| - 1].mutability == Immutable then [gs[|gs| - 1]] else [])
  }

  /** The immutables are all of them and nothing else, in the order of declaration. */
  lemma {:induction false} ImmutablesAre(gs: seq<GlobalDecl>) returns (at: seq<nat>)
    ensures |at| == |Immutables(gs)|
    ensures forall k :: 0 <= k < |at| ==> at[k] < |gs| && gs[at[k]] == Immutables(gs)[k]
    ensures forall k, m :: 0 <= k < m < |at| ==> at[k] < at[m]
    ensures forall i: nat :: i < |gs| ==> (gs[i].mutability == Immutable <==> i in at)
  {
    at := [];
    if gs != [] {
      var last := |gs| - 1;
      var front := gs[..last];
      at := ImmutablesAre(front);
      forall i: nat | i < last ensures gs[i].mutability == Immutable <==> i in at { assert front[i] == gs[i]; }
      if gs[last].mutability == Immutable { at := OneImmutableMore(gs, at); }
    }
  }

  lemma OneImmutableMore(gs: seq<GlobalDecl>, at0: seq<nat>) returns (at: seq<nat>)
    requires gs != [] && gs[|gs| - 1].mutability == Immutable
    requires var front := gs[..|gs| - 1];
             && |at0| == |Immutables(front)|
             && forall k :: 0 <= k < |at0| ==> at0[k] < |front| && front[at0[k]] == Immutables(front)[k]
    requires forall k, m :: 0 <= k < m < |at0| ==> at0[k] < at0[m]
    ensures at == at0 + [|gs| - 1] && |at| == |Immutables(gs)|
    ensures forall k :: 0 <= k < |at| ==> at[k] < |gs| && gs[at[k]] == Immutables(gs)[k]
    ensures forall k, m :: 0 <= k < m < |at| ==> at[k] < at[m]
  {
    at := at0 + [|gs| - 1];
    assert Immutables(gs) == Immutables(gs[..|gs| - 1]) + [gs[|gs| - 1]];
  }

  ghost predicate InitOk(py: Python, out: InitOutput, init: InitMessage, gs: seq<GlobalDecl>) {
    && ParameterNames(out.names, out.types, GlobalEnv(gs))
    && SignatureOf(out.types, init.inputParams, MAX_FUNCTION_INPUT)
    && out.immutables == Immutables(gs)
    && BlockOk(out.body, Ctx(map[], []), GlobalEnv(gs) + ParameterDecls(out.names, out.types), 1, false)
    && BlockMirrors(init.block, Place(Ctx(map[], []), 0, false, 1, py),
                    GlobalEnv(gs) + ParameterDecls(out.names, out.types), out.body)
  }

  ghost predicate DefaultOk(py: Python, out: DefaultOutput, msg: DefaultMessage, sigs: map<nat, Sig>, n: nat,
                            globals: Env) {
    && SignatureOf(out.outputs, msg.outputParams, MAX_FUNCTION_OUTPUT)
    && BlockOk(out.body, Ctx(sigs, out.outputs), globals, 1, false)
    && BlockEffect(out.body, sigs, false) <= out.mutability
    && Climbs(msg.mut, out.mutability, BlockEffect(out.body, sigs, false), BlockMentions(Dropping, msg.block))
    && BlockMirrors(msg.block, Place(Ctx(sigs, out.outputs), n, false, 1, py), globals, out.body)
  }

  function Functions(ds: seq<FuncTracker.Definition>): (r: seq<FuncTracker.Function>)
    ensures |r| == |ds| && forall i :: 0 <= i < |ds| ==> r[i] == ds[i].f
  {
    seq(|ds|, i requires 0 <= i < |ds| => ds[i].f)
  }

  /** The call graph of the message after the sanitiser. */
  ghost function SanitizedCalls(ms: seq<FuncMessage>): CallGraph.Graph {
    var fs := FuncTracker.Registered(ms, MAX_FUNCTIONS);
    CallGraph.Sanitized(FunctionConverter.CallsOf(ms, fs), |fs|, |fs|)
  }

  /** Ordering the functions raises: some pass over the call graph is refused the same call on two walks. */
  ghost predicate Clashes(ms: seq<FuncMessage>) {
    FunctionConverter.SomePassClashes(ms, FuncTracker.Registered(ms, MAX_FUNCTIONS))
  }

  lemma SanitizedCallsAreSafe(ms: seq<FuncMessage>)
    ensures CallGraph.WellFormed(SanitizedCalls(ms), |FuncTracker.Registered(ms, MAX_FUNCTIONS)|)
    ensures CallGraph.Acyclic(SanitizedCalls(ms))
  {
    hide CallGraph.WellFormed, CallGraph.Acyclic, CallGraph.Sanitized;
    var fs := FuncTracker.Registered(ms, MAX_FUNCTIONS);
    CallGraph.SanitizedShrinks(FunctionConverter.CallsOf(ms, fs), |fs|, 0, |fs|);
    CallGraph.SanitizedIsAcyclic(FunctionConverter.CallsOf(ms, fs), |fs|);
  }

  /** Every registered function is emitted exactly once, at its own id, with its own parameter names, and calls
      what the sanitised call graph of the message lets it call: internal functions only. */
  ghost predicate FunctionsOk(py: Python, ds: seq<FuncTracker.Definition>, ms: seq<FuncMessage>, globals: Env) {
    var calls := SanitizedCalls(ms);
    && |ds| == (if |ms| < MAX_FUNCTIONS then |ms| else MAX_FUNCTIONS)
    && (forall i :: 0 <= i < |ds| ==> DefinitionOk(py, ds, i, ms, calls, globals))
    && (forall i :: 0 <= i < |ds| ==> FunctionConverter.OnlyInternal(CallGraph.Callees(calls, i), Functions(ds)))
  }

  lemma FunctionsAre(py: Python, ds: seq<FuncTracker.Definition>, ms: seq<FuncMessage>, calls: CallGraph.Graph,
                     globals: Env)
    requires CallGraph.SameCalls(calls, SanitizedCalls(ms))
    requires |ds| == (if |ms| < MAX_FUNCTIONS then |ms| else MAX_FUNCTIONS)
    requires forall i :: 0 <= i < |ds| ==> DefinitionOk(py, ds, i, ms, calls, globals)
    requires forall i :: 0 <= i < |ds| ==> FunctionConverter.OnlyInternal(CallGraph.Callees(calls, i), Functions(ds))
    ensures FunctionsOk(py, ds, ms, globals)
  {
    hide FunctionOk, SanitizedCalls, CallGraph.Callees, FunctionConverter.OnlyInternal;
    forall i | 0 <= i < |ds| ensures DefinitionOk(py, ds, i, ms, SanitizedCalls(ms), globals) {
      assert DefinitionOk(py, ds, i, ms, calls, globals);
    }
  }

  /** The function converted last, which the default function is converted as: the last one of the order. */
  ghost function LastConverted(ms: seq<FuncMessage>): nat {
    SanitizedCallsAreSafe(ms);
    var n := |FuncTracker.Registered(ms, MAX_FUNCTIONS)|;
    var order := FunctionConverter.OrderUpTo(SanitizedCalls(ms), n, n);
    if order == [] then 0 else order[|order| - 1]
  }

  /** The emitted contract is right: globals, functions, constructor and default function. */
  ghost predicate ContractOk(py: Python, out: ContractOutput, contract: Contract) {
    && GlobalsOk(out.globals) && GlobalsMirror(py, contract.decls, out.globals)
    && FunctionsOk(py, out.definitions, contract.functions, GlobalEnv(out.globals))
    && (out.init.Some? ==> InitOk(py, out.init.value, contract.init, out.globals))
    && (out.init.Some? <==> contract.init.flag || Immutables(out.globals) != [])
    && (out.default.Some? <==> contract.defFunc.Some?)
    && (out.default.Some? ==>
         DefaultOk(py, out.default.value, contract.defFunc.value,
                   CallableAfterAll(contract.functions, Functions(out.definitions)),
                   |out.definitions|, GlobalEnv(out.globals)))
  }

  /** What the default function may call: what the function converted last may call. */
  ghost function CallableAfterAll(ms: seq<FuncMessage>, fs: seq<FuncTracker.Function>): map<nat, Sig> {
    Signatures(CallGraph.Callees(SanitizedCalls(ms), LastConverted(ms)), fs)
  }

  /** Visibility does not change while functions are converted. */
  lemma SameVisibility(fs: seq<FuncTracker.Function>, fs': seq<FuncTracker.Function>, ms: seq<FuncMessage>,
                       calls: CallGraph.Graph)
    requires |fs| == |fs'| <= |ms|
    requires forall i :: 0 <= i < |fs| ==> fs[i].external == ms[i].external == fs'[i].external
    requires forall i :: 0 <= i < |fs| ==> FunctionConverter.OnlyInternal(CallGraph.Callees(calls, i), fs)
    ensures forall i :: 0 <= i < |fs| ==> FunctionConverter.OnlyInternal(CallGraph.Callees(calls, i), fs')
  {
  }

  ghost predicate DefinitionOk(py: Python, ds: seq<FuncTracker.Definition>, i: nat, ms: seq<FuncMessage>,
                               calls: CallGraph.Graph, globals: Env)
    requires i < |ds|
  {
    && ds[i].f.id == i
    && FuncTracker.Renders(ds[i])
    && i < |ms| && ds[i].f.external == ms[i].external
    && FunctionOk(py, Functions(ds), CallGraph.Callees(calls, i), i, ds[i].names, ms[i], globals)
  }

  // ----- finishing functions one after another

  /** The functions in `done` are finished, with the parameter names of the same position. */
  ghost predicate Finished(py: Python, fs: seq<FuncTracker.Function>, calls: CallGraph.Graph, done: seq<nat>,
                           names: seq<seq<Name>>, ms: seq<FuncMessage>, globals: Env) {
    |names| == |done| &&
    forall p :: 0 <= p < |done| ==>
      done[p] < |fs| && done[p] < |ms| &&
      FunctionOk(py, fs, CallGraph.Callees(calls, done[p]), done[p], names[p], ms[done[p]], globals)
  }

  lemma NothingFinished(py: Python, fs: seq<FuncTracker.Function>, calls: CallGraph.Graph, ms: seq<FuncMessage>,
                        globals: Env)
    ensures Finished(py, fs, calls, [], [], ms, globals)
  {
  }

  lemma PermutationBelow(order: seq<nat>, n: nat)
    requires FunctionConverter.IsPermutation(order, n)
    ensures forall i :: 0 <= i < |order| ==> order[i] < n
    ensures forall i, j :: 0 <= i < j < |order| ==> order[i] != order[j]
  {
    if exists i :: 0 <= i < |order| && order[i] >= n {
      var i :| 0 <= i < |order| && order[i] >= n;
      FunctionConverter.DistinctCount(order);
      assert FunctionConverter.Ids(n) < CallGraph.Elements(order) by {
        assert order[i] in CallGraph.Elements(order);
      }
      SmallerSet(FunctionConverter.Ids(n), CallGraph.Elements(order));
      assert false;
    }
  }

  lemma {:induction false} SmallerSet(a: set<nat>, b: set<nat>)
    requires a < b
    ensures |a| < |b|
    decreases a
  {
    if a == {} {
    } else {
      var x :| x in a;
      SmallerSet(a - {x}, b - {x});
    }
  }

  lemma PermutationIndex(order: seq<nat>, n: nat)
    requires FunctionConverter.IsPermutation(order, n)
    ensures forall i: nat :: i < n ==> CallGraph.IndexOf(order, i) < |order| && order[CallGraph.IndexOf(order, i)] == i
  {
  }

  /** The callees of the next function are finished. */
  lemma NextIsReady(py: Python, fs: seq<FuncTracker.Function>, calls: CallGraph.Graph, order: seq<nat>, k: nat,
                    names: seq<seq<Name>>, ms: seq<FuncMessage>, globals: Env)
    requires k < |order| && FunctionConverter.CalleesFirst(calls, order)
    requires forall i, j :: 0 <= i < j < |order| ==> order[i] != order[j]
    requires Finished(py, fs, calls, order[..k], names, ms, globals)
    ensures order[k] !in CallGraph.Callees(calls, order[k])
    ensures GoodSignatures(Signatures(CallGraph.Callees(calls, order[k]), fs))
  {
    hide BlockOk, BlockEffect, BlockMirrors, BlockMentions, Climbs, ParameterNames, CallGraph.Callees;
    var cs := CallGraph.Callees(calls, order[k]);
    assert FunctionConverter.Listed(cs, order[..k]);
    forall f | f in cs ensures f != order[k] && exists p :: 0 <= p < k && order[p] == f {
      var p :| 0 <= p < k && order[..k][p] == f;
      assert order[p] == f;
    }
    var sigs := Signatures(cs, fs);
    forall f | f in sigs ensures GoodTypes(sigs[f].inputs) && GoodTypes(sigs[f].outputs) {
      var p :| 0 <= p < k && order[p] == f;
      assert order[..k][p] == f;
    }
  }

  lemma StaysFinished(py: Python, fs: seq<FuncTracker.Function>, calls: CallGraph.Graph, j: nat, names: seq<Name>,
                      msg: FuncMessage, globals: Env, id: nat, f: FuncTracker.Function)
    requires j < |fs| && id < |fs| && id != j && id !in CallGraph.Callees(calls, j)
    requires FunctionOk(py, fs, CallGraph.Callees(calls, j), j, names, msg, globals)
    ensures FunctionOk(py, fs[id := f], CallGraph.Callees(calls, j), j, names, msg, globals)
  {
    hide BlockOk, BlockEffect, BlockMirrors, BlockMentions, Climbs, ParameterNames, ParameterDecls, SignatureOf,
         GoodTypes, CallGraph.Callees;
    assert Signatures(CallGraph.Callees(calls, j), fs[id := f]) == Signatures(CallGraph.Callees(calls, j), fs);
  }

  lemma OneMoreFinished(py: Python, fs: seq<FuncTracker.Function>, fs': seq<FuncTracker.Function>,
                        calls: CallGraph.Graph,
                        order: seq<nat>, k: nat, names: seq<seq<Name>>, ns: seq<Name>, ms: seq<FuncMessage>,
                        globals: Env)
    requires k < |order| && FunctionConverter.CalleesFirst(calls, order)
    requires forall i, j :: 0 <= i < j < |order| ==> order[i] != order[j]
    requires Finished(py, fs, calls, order[..k], names, ms, globals)
    requires order[k] < |fs| == |fs'| && order[k] < |ms| && fs' == fs[order[k] := fs'[order[k]]]
    requires FunctionOk(py, fs', CallGraph.Callees(calls, order[k]), order[k], ns, ms[order[k]], globals)
    ensures Finished(py, fs', calls, order[..k + 1], names + [ns], ms, globals)
  {
    hide FunctionOk, CallGraph.Callees;
    forall p | 0 <= p < k
      ensures FunctionOk(py, fs', CallGraph.Callees(calls, order[p]), order[p], names[p], ms[order[p]], globals)
    {
      assert order[..k][p] == order[p];
      var cs := CallGraph.Callees(calls, order[p]);
      assert FunctionConverter.Listed(cs, order[..p]);
      forall i | 0 <= i < |cs| ensures cs[i] != order[k] {
        assert cs[i] in order[..p];
      }
      StaysFinished(py, fs, calls, order[p], names[p], ms[order[p]], globals, order[k], fs'[order[k]]);
    }
  }

  lemma DefinitionsOk(py: Python, ds: seq<FuncTracker.Definition>, calls: CallGraph.Graph, order: seq<nat>,
                      names: seq<seq<Name>>, ms: seq<FuncMessage>, globals: Env, fs: seq<FuncTracker.Function>)
    requires FunctionConverter.IsPermutation(order, |fs|) && |ds| == |fs| <= |ms|
    requires Finished(py, fs, calls, order, names, ms, globals)
    requires forall i :: 0 <= i < |fs| ==> fs[i].id == i && fs[i].external == ms[i].external
    requires forall i: nat :: i < |fs| ==> CallGraph.IndexOf(order, i) < |order|
    requires forall i: nat :: i < |fs| ==> ds[i] == FuncTracker.Definition(fs[i], names[CallGraph.IndexOf(order, i)])
    ensures Functions(ds) == fs
    ensures forall i :: 0 <= i < |ds| ==> DefinitionOk(py, ds, i, ms, calls, globals)
  {
    hide BlockOk, BlockEffect, BlockMirrors, BlockMentions, Climbs, CallGraph.Callees;
    assert Functions(ds) == fs;
    forall i | 0 <= i < |ds| ensures DefinitionOk(py, ds, i, ms, calls, globals) {
      var p := CallGraph.IndexOf(order, i);
      assert order[p] == i;
      assert FunctionOk(py, fs, CallGraph.Callees(calls, order[p]), order[p], names[p], ms[order[p]], globals);
    }
  }

  lemma AllSignaturesGood(py: Python, fs: seq<FuncTracker.Function>, calls: CallGraph.Graph, order: seq<nat>,
                          names: seq<seq<Name>>, ms: seq<FuncMessage>, globals: Env, f: nat)
    requires FunctionConverter.IsPermutation(order, |fs|) && Finished(py, fs, calls, order, names, ms, globals)
    ensures GoodSignatures(Signatures(CallGraph.Callees(calls, f), fs))
  {
    hide BlockOk, BlockEffect, BlockMirrors, BlockMentions, Climbs, ParameterNames, CallGraph.Callees;
    var sigs := Signatures(CallGraph.Callees(calls, f), fs);
    forall g | g in sigs ensures GoodTypes(sigs[g].inputs) && GoodTypes(sigs[g].outputs) {
      assert g in order;
      var p :| 0 <= p < |order| && order[p] == g;
    }
  }

  // ----- pair arrays among the parameters

  /** The registered inputs are those of the message, or none yet. */
  ghost predicate InputsOfMessage(fs: seq<FuncTracker.Function>, ms: seq<FuncMessage>) {
    |fs| <= |ms| && |fs| <= MAX_FUNCTIONS && forall i :: 0 <= i < |fs| ==>
      fs[i].inputs == [] || SignatureOf(fs[i].inputs, ms[i].inputParams, MAX_FUNCTION_INPUT)
  }

  /** A pair array among the parameters of the functions called or among the own outputs is in the message. */
  lemma PairIsMentioned(fs: seq<FuncTracker.Function>, ms: seq<FuncMessage>, callees: seq<nat>, outputs: seq<VType>,
                        params: seq<SchemaType>)
    requires InputsOfMessage(fs, ms) && SignatureOf(outputs, params, MAX_FUNCTION_OUTPUT)
    requires PairInSigs(Ctx(Signatures(callees, fs), outputs))
    ensures FunctionsMention(Raising, ms) || ParamsMention(Raising, params, MAX_FUNCTION_OUTPUT)
  {
    hide IsPair, ExtractType;
    var sigs := Signatures(callees, fs);
    if AnyPair(outputs) {
      var i :| 0 <= i < |outputs| && IsPair(outputs[i]);
      assert IsPair(ExtractType(params[i]));
    } else {
      var f :| f in sigs && AnyPair(sigs[f].inputs);
      var i :| 0 <= i < |sigs[f].inputs| && IsPair(sigs[f].inputs[i]);
      assert IsPair(ExtractType(ms[f].inputParams[i]));
      assert FunctionMentions(Raising, ms[f]);
    }
  }
}
