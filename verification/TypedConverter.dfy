/** The stateful walk over a message. Every visitor writes a piece of program and is proved to have written
    something the independent rules accept, whatever the message and whatever the random choices. */
module TypedConverter {
  import opened Types
  import opened Declarations
  import opened LiveDeclarations
  import opened VarTracker
  import opened Emitted
  import opened IntBounds
  import opened Literals
  import opened Checker
  import opened Soundness
  import opened BlockSoundness
  import opened Lengths
  import opened Messages
  import opened Mirror
  import opened Flaws
  import opened PyNumber
  import opened Quotients
  import opened Sizing
  import opened Climbing
  import FuncTracker
  import opened Output
  import opened StatementRules
  import FunctionConverter
  import CallGraph

  /** The variables in scope are the live declarations of the symbol table. */
  ghost function Scope(tracker: Tracker): Env
    reads tracker
  {
    set d | d in tracker.live
  }

  ghost predicate WellPlaced(d: Decl, level: nat) {
    d.level <= level && ValidType(d.t) && d.current == 0 && (IsStorage(d.name) <==> d.level == 0 && d.mutable)
  }

  /** The symbol table is consistent, its names are distinct, and no live name sits above the current level. */
  ghost predicate Ready(tracker: Tracker, level: nat)
    reads tracker
  {
    tracker.Valid() && tracker.NamesNumbered() && forall d :: d in tracker.live ==> WellPlaced(d, level)
  }

  /** Types an expression may be asked for: byte strings and strings at any capacity, the rest as declared. */
  predicate Askable(t: VType) {
    ValidType(t) || t.Bytes? || t.Str?
  }

  lemma SourceIsScalar(e: Expr, t: VType)
    requires ConversionSource(e, t).Some? && Askable(t)
    ensures Askable(ConversionSource(e, t).value) && !IsPair(ConversionSource(e, t).value)
    ensures e.ConvertInt? || e.ConvertDecimal? || e.ConvertBool? || e.ConvertAddress? || e.ConvertBytesM? ||
            e.ConvertBytes? || e.ConvertString?
    ensures t.Int? ==> t.n > 0 && Convertible(t, t)
    ensures Convertible(ConversionSource(e, t).value, t)
    ensures e.ConvertInt? || e.ConvertDecimal? ==>
              ConversionSource(e, t).value.Int? || ConversionSource(e, t).value.Decimal?
  {
  }

  lemma IntIsWide(t: VType)
    requires t.Int? && ValidScalar(t)
    ensures t.n > 0 && Askable(t)
  {
  }

  lemma ScalarsAreAskable()
    ensures Askable(Bool) && Askable(Decimal) && Askable(Address)
  {
  }

  lemma NumbersAreAskable(t: VType)
    requires t == Int(256, false) || t == Decimal
    ensures Askable(t) && !IsPair(t) && UINT == Int(256, false)
  {
  }

  datatype Mark = Infix(op: Op) | UnNot | UnMinus

  /** random.choice: any element. */
  method RandomChoice(names: seq<Name>) returns (n: Name)
    requires |names| > 0
    ensures n in names
  {
    var i :| 0 <= i < |names|;
    n := names[i];
  }

  lemma InLookup(looked: seq<Name>, live: seq<Decl>, level: nat, t: VType, m: bool, assignee: bool, n: Name)
    requires multiset(looked) == multiset(Visible(live, level, t, m, assignee))
    ensures n in looked <==> exists d :: d in live && InReach(d, level, m) && Offers(d, n, t, assignee)
  {
    hide Visible, Offers;
    VisibleExact(live, level, t, m, assignee, n);
    assert n in looked <==> n in multiset(looked);
    assert n in Visible(live, level, t, m, assignee) <==> n in multiset(Visible(live, level, t, m, assignee));
  }

  /** A name stands for at most one variable or element. */
  lemma ScopeIsUnique(tracker: Tracker, level: nat)
    requires Ready(tracker, level)
    ensures UniqueNames(Scope(tracker))
  {
    hide VarsAgree, ListsAgree, SizedAgree, Numbered;
    forall d, e, n | d in Scope(tracker) && e in Scope(tracker) && TypeBy(d, n).Some? && TypeBy(e, n).Some?
      ensures d == e
    {
      NumberedDistinct(tracker.live, tracker.idMap, tracker.globalIdMap, d, e, n);
    }
  }

  /** What is written for a capacity never exceeds it. */
  lemma StaysWithin(out: OExpr, t: VType, tracker: Tracker, level: nat, m: nat, c: bool)
    requires Ready(tracker, level) && (t.Bytes? || t.Str?) && Sound(out, t, Scope(tracker), m, c)
    ensures MaxLength(out, Scope(tracker)) <= t.m
  {
    hide Ready, WellTyped, MaxLength, Scope;
    ScopeIsUnique(tracker, level);
    LengthSoundness(out, t, Scope(tracker));
  }

  /** Lookups that return nothing have nothing to return. */
  lemma NothingListed(mutables: seq<Name>, readonly: seq<Name>, live: seq<Decl>, level: nat, t: VType, written: bool)
    requires mutables == [] && readonly == [] && forall d :: d in live ==> WellPlaced(d, level)
    requires multiset(mutables) == multiset(Visible(live, level, t, true, false))
    requires !written ==> multiset(readonly) == multiset(Visible(live, level, t, false, false))
    ensures NothingFits(t, (set d | d in live), written)
  {
    hide Offers, Visible;
    forall d, n | d in live && (written ==> d.mutable) ensures !Offers(d, n, t, false) {
      InLookup(mutables, live, level, t, true, false, n);
      if !written { InLookup(readonly, live, level, t, false, false, n); }
      assert WellPlaced(d, level) && InReach(d, level, d.mutable);
    }
  }

  lemma SomethingFits(d: Decl, n: Name, t: VType, env: Env)
    requires d in env && d.mutable && Offers(d, n, t, false)
    ensures !NothingFits(t, env, true)
  {
  }

  lemma ReadyIsValid(tracker: Tracker, level: nat)
    requires Ready(tracker, level)
    ensures tracker.Valid()
  {
  }

  /** The base type that is found by name is that of the array that was picked. */
  lemma PickedArray(tracker: Tracker, level: nat, n: Name, base: Option<VType>)
    requires Ready(tracker, level)
    requires exists d :: d in tracker.live && d.mutable && Offers(d, n, ANY_ARRAY, false)
    requires BaseFound(tracker.live, n, true, base)
    ensures base.Some? && Askable(base.value) && !base.value.DynArray? && !NothingFits(ANY_ARRAY, Scope(tracker), true)
    ensures exists d :: d in Scope(tracker) && d.mutable && d.name == n && d.t.DynArray? && d.t.base == base.value &&
                        d.t.size <= MAX_LIST_SIZE
  {
    hide VarsAgree, ListsAgree, SizedAgree, OnlyKinds, NothingFits, Numbered;
    var d :| d in tracker.live && d.mutable && Offers(d, n, ANY_ARRAY, false);
    SomethingFits(d, n, ANY_ARRAY, Scope(tracker));
    assert d.name == n && d.t.DynArray?;
    var e :| e in tracker.live && e.mutable && e.name == n && e.t.DynArray? && e.t.base == base.value;
    NumberedDistinct(tracker.live, tracker.idMap, tracker.globalIdMap, d, e, n);
    assert WellPlaced(e, level);
  }

  lemma OfferedType(d: Decl, n: Name, t: VType, assignee: bool)
    requires Offers(d, n, t, assignee)
    ensures TypeBy(d, n).Some?
  {
  }

  lemma OfferedStorage(d: Decl, n: Name, t: VType, assignee: bool)
    requires Offers(d, n, t, assignee)
    ensures IsStorage(n) <==> IsStorage(d.name)
  {
  }

  /** What is noticed as storage has the type of the result, since it is offered in both directions. */
  lemma NoticedIsCapture(tracker: Tracker, level: nat, d: Decl, n: Name, t: VType)
    requires Ready(tracker, level) && d in tracker.live && Offers(d, n, t, true) && ValidType(t)
    requires exists e :: e in tracker.live && InReach(e, 0, true) && Offers(e, n, t, false)
    ensures IsStorage(n) && TypeBy(d, n) == Some(t)
  {
    hide Offers, VarsAgree, ListsAgree, SizedAgree, Numbered;
    var e :| e in tracker.live && InReach(e, 0, true) && Offers(e, n, t, false);
    GlobalIsStorage(tracker, level, t, n);
    OfferedType(d, n, t, true);
    OfferedType(e, n, t, false);
    NumberedDistinct(tracker.live, tracker.idMap, tracker.globalIdMap, d, e, n);
    OfferedBothWays(d, n, t);
  }

  /** A lookup for captures that returns nothing has nothing to return. */
  lemma NothingToCapture(tracker: Tracker, level: nat, t: VType)
    requires Ready(tracker, level) && multiset{} == multiset(Visible(tracker.live, level, t, true, true))
    ensures forall n :: !Holds(n, t, Scope(tracker))
  {
    hide Offers, Visible, VarsAgree, ListsAgree, SizedAgree, Numbered;
    forall n ensures !Holds(n, t, Scope(tracker)) {
      if Holds(n, t, Scope(tracker)) {
        var d :| d in Scope(tracker) && d.mutable && Offers(d, n, t, true);
        assert WellPlaced(d, level) && InReach(d, level, true);
        InLookup([], tracker.live, level, t, true, true, n);
        assert false;
      }
    }
  }

  lemma ScopeHolds(tracker: Tracker, level: nat, n: Name, t: VType)
    requires exists d :: d in tracker.live && InReach(d, level, true) && Offers(d, n, t, true)
    ensures Holds(n, t, Scope(tracker))
  {
    var d :| d in tracker.live && InReach(d, level, true) && Offers(d, n, t, true);
    assert d in Scope(tracker);
  }

  lemma OfferedBothWays(d: Decl, n: Name, t: VType)
    requires Offers(d, n, t, true) && Offers(d, n, t, false) && ValidType(t)
    ensures TypeBy(d, n) == Some(t)
  {
  }

  lemma GlobalIsStorage(tracker: Tracker, level: nat, t: VType, n: Name)
    requires Ready(tracker, level)
    requires exists d :: d in tracker.live && InReach(d, 0, true) && Offers(d, n, t, false)
    ensures IsStorage(n)
  {
    hide Offers, VarsAgree, ListsAgree, SizedAgree, Numbered;
    var d :| d in tracker.live && InReach(d, 0, true) && Offers(d, n, t, false);
    OfferedStorage(d, n, t, false);
    assert WellPlaced(d, level);
  }

  lemma ScopedName(tracker: Tracker, n: Name, t: VType)
    requires exists d :: d in tracker.live && Offers(d, n, t, false)
    ensures NameOk(n, t, Scope(tracker))
  {
    var d :| d in tracker.live && Offers(d, n, t, false);
    assert d in Scope(tracker);
  }

  lemma ScopeAppend(live: seq<Decl>, d: Decl)
    ensures (set x | x in live + [d]) == (set x | x in live) + {d}
  {
  }

  /** A freshly numbered name stands for nothing that was declared before. */
  lemma FreshStandsForNothing(live: seq<Decl>, ids: map<string, int>, globals: map<string, int>, d: Decl)
    requires Numbered(live + [d], ids, globals) && forall e :: e in live ==> e.name != d.name
    ensures forall e :: e in live ==> TypeBy(e, d.name).None?
  {
    hide Numbered;
    forall e | e in live && TypeBy(e, d.name).Some? ensures false {
      NumberedDistinct(live + [d], ids, globals, e, d, d.name);
    }
  }

  class Converter {
    const tracker: Tracker
    const funcs: FuncTracker.FunctionTracker
    const py: Python
    var mutLevel: nat
    var level: nat
    var forCount: nat
    var isConstant: bool
    var opStack: seq<Mark>
    var functionOutput: seq<VType>
    var callMap: CallGraph.Graph
    var currentFunc: nat

    /** Set where the source raises an exception of its own. */
    var raised: bool

    constructor (tracker: Tracker, funcs: FuncTracker.FunctionTracker, py: Python)
      ensures this.tracker == tracker && this.funcs == funcs && this.py == py
      ensures level == 0 && opStack == [] && !isConstant && !raised && forCount == 0 && functionOutput == []
      ensures callMap == map[] && currentFunc == 0
    {
      this.tracker, this.funcs, this.py := tracker, funcs, py;
      mutLevel, level, forCount, isConstant, opStack, functionOutput := 0, 0, 0, false, [], [];
      callMap, currentFunc, raised := map[], 0, false;
    }

    ghost function Here(): Sight
      reads this`isConstant, tracker
    {
      Sight(isConstant, Scope(tracker), py)
    }

    lemma HereIs()
      ensures Here() == Sight(isConstant, Scope(tracker), py)
    {
    }

    // ----- variables

    /** Picks a variable of type t, to read or (with `assignment`) to write, and raises the mutability that the
        access needs. */
    method VisitVarRef(t: VType, assignment: bool) returns (r: Option<Name>)
      requires Ready(tracker, level) && (assignment ==> !isConstant)
      modifies this`mutLevel
      ensures mutLevel >= old(mutLevel)
      ensures Climbs(old(mutLevel), mutLevel, if r.Some? then AccessEffect(r.value, assignment) else PURE, false)
      ensures r.Some? ==>
                && (exists d :: d in tracker.live && (assignment ==> d.mutable) && Offers(d, r.value, t, false))
                && (IsStorage(r.value) ==> mutLevel >= if assignment then NON_PAYABLE else VIEW)
                && (isConstant ==> ConstantName(r.value))
      ensures r.None? && !isConstant ==> NothingFits(t, Scope(tracker), assignment)
    {
      hide Offers, Visible, VarsAgree, ListsAgree, SizedAgree, Numbered;
      if isConstant {
        var readonly := tracker.GetReadonlyVariables(level, t);
        if |readonly| == 0 {
          return None;
        }
        var variable := RandomChoice(readonly);
        if !StartsWithC(variable) {
          return None;
        }
        InLookup(readonly, tracker.live, level, t, false, false, variable);
        return Some(variable);
      }
      var mutables := tracker.GetMutableVariables(level, t, false);
      var allowed := mutables;
      ghost var readonly: seq<Name> := [];
      if !assignment {
        var more := tracker.GetReadonlyVariables(level, t);
        readonly := more;
        allowed := allowed + more;
      }
      if |allowed| == 0 {
        NothingListed(mutables, readonly, tracker.live, level, t, assignment);
        return None;
      }
      var variable := RandomChoice(allowed);
      var globals := tracker.GetGlobalVars(t);
      if variable in globals && mutLevel < NON_PAYABLE && assignment {
        mutLevel := NON_PAYABLE;
      }
      if variable in globals && mutLevel < VIEW {
        mutLevel := VIEW;
      }
      InLookup(mutables, tracker.live, level, t, true, false, variable);
      if !assignment { InLookup(readonly, tracker.live, level, t, false, false, variable); }
      InLookup(globals, tracker.live, 0, t, true, false, variable);
      if variable in globals { GlobalIsStorage(tracker, level, t, variable); }
      assert variable in mutables || variable in readonly;
      ghost var d :| d in tracker.live && (assignment ==> d.mutable) && Offers(d, variable, t, false);
      OfferedStorage(d, variable, t, false);
      assert WellPlaced(d, level);
      assert IsStorage(variable) ==> InReach(d, 0, true);
      return Some(variable);
    }

    /** The first letter of the rendered name. Storage names start with "self". */
    predicate StartsWithC(n: Name) {
      !IsStorage(n) && Root(n).Var? && Root(n).prefix == Constant
    }

    /** A reference to some variable of type t, if there is one. */
    method TryVarRef(t: VType) returns (r: Option<OExpr>)
      requires Ready(tracker, level)
      modifies this`mutLevel
      ensures mutLevel >= old(mutLevel)
      ensures Climbs(old(mutLevel), mutLevel, if r.Some? then Effect(r.value) else PURE, false)
      ensures r.Some? ==> r.value.ORef? && Sound(r.value, t, Scope(tracker), mutLevel, isConstant)
      ensures r.Some? ==> Enclosed(r.value) && NameOk(r.value.name, t, Here().env)
      ensures r.None? ==> NoneToRead(t, Here())
      ensures r.Some? && !isConstant ==> !NothingFits(t, Scope(tracker), false)
    {
      hide Ready, Sound, NameOk;
      var n := VisitVarRef(t, false);
      if n.None? {
        return None;
      }
      ScopedName(tracker, n.value, t);
      SoundRef(n.value, t, Scope(tracker), mutLevel, isConstant);
      return Some(ORef(n.value));
    }

    method CreateLiteral(t: VType, lit: Literal) returns (r: OExpr)
      requires Askable(t) && !IsList(t)
      ensures Enclosed(r) && forall m: nat :: Sound(r, t, Scope(tracker), m, isConstant)
      ensures LiteralMirrors(lit, t, r) && Literally(r)
    {
      hide Sound, LiteralOk;
      var text := "";
      match t {
        case Int(n, signed) =>
          r := OInt(Generate(n, signed, lit.intval));
          forall m: nat { SoundInt(r.v, t, Scope(tracker), m, isConstant); }
          return;
        case Bool => text := if lit.boolval then "True" else "False";
        case Bytes(m) => text := BytesLiteral(m, lit.barrval);
        case BytesM(m) => text := BytesMLiteral(m, lit.bMval);
        case Str(m) => text := StringLiteral(m, lit.strval);
        case Decimal => text := DecimalText(lit.decimalval);
        case Address => text := AddressText(lit.addval);
        case _ =>
      }
      r := OLit(t, text);
      forall m: nat { SoundLit(t, text, Scope(tracker), m, isConstant); }
    }

    // ----- expressions

    /** The handler for the type that is asked for. */
    method VisitExpr(e: Expr, t: VType) returns (out: OExpr)
      requires Ready(tracker, level) && Askable(t)
      modifies this`mutLevel, this`opStack, this`raised
      ensures opStack == old(opStack) && mutLevel >= old(mutLevel)
      ensures Climbs(old(mutLevel), mutLevel, Effect(out), Has(Dropping, e))
      ensures Sound(out, t, Scope(tracker), mutLevel, isConstant) && (|opStack| > 0 ==> Enclosed(out))
      ensures Mirrors(e, t, Here(), out)
      ensures RaisedAs(old(raised), raised, e, t, Here())
      decreases e, 3
    {
      hide Ready, Sound, Mirrors, NothingFits, Has;
      if t.Int? {
        out := VisitInt(e, t);
      } else if t.Bool? {
        out := VisitBool(e);
      } else if t.Decimal? {
        out := VisitDecimal(e);
      } else if t.Address? {
        out := VisitAddress(e);
      } else if t.BytesM? {
        out := VisitBytesM(e, t);
      } else if t.Bytes? {
        out := VisitBytes(e, t);
      } else if t.Str? {
        out := VisitString(e, t);
      } else {
        out := VisitList(e, t);
      }
    }

    method VisitInt(e: Expr, t: VType) returns (out: OExpr)
      requires Ready(tracker, level) && t.Int? && ValidScalar(t)
      modifies this`mutLevel, this`opStack, this`raised
      ensures opStack == old(opStack) && mutLevel >= old(mutLevel)
      ensures Climbs(old(mutLevel), mutLevel, Effect(out), Has(Dropping, e))
      ensures Sound(out, t, Scope(tracker), mutLevel, isConstant) && (|opStack| > 0 ==> Enclosed(out))
      ensures Mirrors(e, t, Here(), out)
      ensures LiteralOnly(e) ==> out == Written(py, e, t, |opStack| > 0)
      ensures RaisedByInt(py, old(raised), raised, e, t)
      decreases e, 2
    {
      hide *;
      IntIsWide(t);
      if e.BinOp? && Arithmetic(e.op) {
        out := VisitIntOperation(e, t);
      } else if e.UnOp? {
        out := VisitIntNegation(e, t);
      } else {
        IntIsLeaf(e, t, Here());
        ghost var was := raised;
        out := VisitLeaf(e, t);
        LeafByInt(py, was, raised, e, t);
        HereIs();
        LiteralIsWritten(e, t, Here(), out);
        NoLiteral(e);
      }
    }

    method VisitIntOperation(e: Expr, t: VType) returns (out: OExpr)
      requires Ready(tracker, level) && t.Int? && ValidScalar(t) && e.BinOp? && Arithmetic(e.op)
      modifies this`mutLevel, this`opStack, this`raised
      ensures opStack == old(opStack) && mutLevel >= old(mutLevel)
      ensures Climbs(old(mutLevel), mutLevel, Effect(out), Has(Dropping, e))
      ensures Sound(out, t, Scope(tracker), mutLevel, isConstant) && (|opStack| > 0 ==> Enclosed(out))
      ensures Mirrors(e, t, Here(), out)
      ensures LiteralOnly(e) ==> out == Written(py, e, t, |opStack| > 0)
      ensures RaisedByInt(py, old(raised), raised, e, t)
      decreases e, 1
    {
      hide *;
      ghost var was := raised;
      IntIsWide(t);
      ghost var start := mutLevel;
      var left, right;
      ghost var middle, between;
      left, right, middle, between := VisitOperands(e, t);
      ghost var later := raised;
      var folded := FoldBinop(t, left, e.op, right);
      out := InParensIfNested(folded, t);
      HereIs();
      IntBinMirrors(e, t, Here(), left, right, out);
      UncomparableOperand(e, t, Here(), right);
      BinByInt(py, was, middle, later, raised, e, t, right);
      FoldClimbs(py, start, between, mutLevel, e, t, left, right, out);
      BinIsWritten(py, e, t, left, right, |opStack| > 0);
    }

    /** Both operands, left to right, while their operator waits. */
    method VisitOperands(e: Expr, t: VType)
      returns (left: OExpr, right: OExpr, ghost middle: bool, ghost between: nat)
      requires Ready(tracker, level) && t.Int? && ValidScalar(t) && t.n > 0 && e.BinOp?
      modifies this`mutLevel, this`opStack, this`raised
      ensures opStack == old(opStack) && mutLevel >= old(mutLevel)
      ensures Sound(left, t, Scope(tracker), mutLevel, isConstant) && Enclosed(left)
      ensures Sound(right, t, Scope(tracker), mutLevel, isConstant) && Enclosed(right)
      ensures Mirrors(e.l, t, Here(), left) && Mirrors(e.r, t, Here(), right)
      ensures LiteralOnly(e.l) ==> left == Written(py, e.l, t, true)
      ensures LiteralOnly(e.r) ==> right == Written(py, e.r, t, true)
      ensures Climbs(old(mutLevel), between, Effect(left), Has(Dropping, e.l))
      ensures Climbs(between, mutLevel, Effect(right), Has(Dropping, e.r))
      ensures RaisedByInt(py, old(raised), middle, e.l, t) && RaisedByInt(py, middle, raised, e.r, t)
      decreases e, 0
    {
      hide *;
      opStack := opStack + [Infix(e.op)];
      left := VisitInt(e.l, t);
      between, middle := mutLevel, raised;
      right := VisitInt(e.r, t);
      SoundLater(left, t, Scope(tracker), between, mutLevel, isConstant);
      opStack := opStack[..|opStack| - 1];
    }

    /** A minus sign, which an unsigned type leaves out. */
    method VisitIntNegation(e: Expr, t: VType) returns (out: OExpr)
      requires Ready(tracker, level) && t.Int? && ValidScalar(t) && e.UnOp?
      modifies this`mutLevel, this`opStack, this`raised
      ensures opStack == old(opStack) && mutLevel >= old(mutLevel)
      ensures Climbs(old(mutLevel), mutLevel, Effect(out), Has(Dropping, e))
      ensures Sound(out, t, Scope(tracker), mutLevel, isConstant) && (|opStack| > 0 ==> Enclosed(out))
      ensures Mirrors(e, t, Here(), out)
      ensures LiteralOnly(e) ==> out == Written(py, e, t, |opStack| > 0)
      ensures RaisedByInt(py, old(raised), raised, e, t)
      decreases e, 1
    {
      hide *;
      ghost var was, m := raised, mutLevel;
      IntIsWide(t);
      opStack := opStack + [UnMinus];
      var operand := VisitInt(e.e, t);
      opStack := opStack[..|opStack| - 1];
      if t.signed {
        var negated := NegateInt(operand, t);
        out := InParensIfNested(negated, t);
        NegatedEffect(py, t, operand, out);
      } else {
        out := operand;
      }
      HereIs();
      IntUnMirrors(e, t, Here(), operand, out);
      UnByInt(py, was, raised, e, t);
      InnerClimbs(m, mutLevel, e, operand, out);
      UnIsWritten(py, e, t, operand, |opStack| > 0);
    }

    /** Both checks of an integer operation. The first raises exactly where it would compare a complex number. */
    method FoldBinop(t: VType, left: OExpr, op: Op, right: OExpr) returns (out: OExpr)
      requires t.Int? && ValidScalar(t) && Arithmetic(op) && Enclosed(left) && Enclosed(right)
      requires Sound(left, t, Scope(tracker), mutLevel, isConstant)
      requires Sound(right, t, Scope(tracker), mutLevel, isConstant)
      modifies this`raised
      ensures Sound(out, t, Scope(tracker), mutLevel, isConstant)
      ensures out == Folded(py, t, left, op, right) && !out.OParen?
      ensures raised <==> old(raised) || Uncomparable(py, t, op, right)
    {
      hide Sound, CheckBinopBounds, CheckLiteralBounds, Uncomparable;
      SoundIntBin(py, t, op, left, right, Scope(tracker), mutLevel, isConstant);
      if Uncomparable(py, t, op, right) {
        raised := true;
      }
      var (l, o, r) := CheckBinopBounds(py, t, left, op, right);
      out := CheckLiteralBounds(py, t, OBin(o, l, r));
    }

    method NegateInt(e: OExpr, t: VType) returns (out: OExpr)
      requires t.Int? && ValidScalar(t) && t.signed && Enclosed(e)
      requires Sound(e, t, Scope(tracker), mutLevel, isConstant)
      ensures Sound(out, t, Scope(tracker), mutLevel, isConstant)
      ensures out == CheckLiteralBounds(py, t, ONeg(e)) && !out.OParen?
    {
      hide Sound;
      out := CheckLiteralBounds(py, t, ONeg(e));
      if out == ONeg(e) {
        CheckIsRetraction(py, t, ONeg(e));
        SoundNeg(e, t, Scope(tracker), mutLevel, isConstant);
      } else {
        SoundInt(out.v, t, Scope(tracker), mutLevel, isConstant);
      }
    }

    /** A variable of the type, a conversion to it or, failing both, the literal of the message. */
    method VisitLeaf(e: Expr, t: VType) returns (out: OExpr)
      requires Ready(tracker, level) && Askable(t) && IsLeaf(e, t, Here())
      modifies this`mutLevel, this`opStack, this`raised
      ensures opStack == old(opStack) && mutLevel >= old(mutLevel)
      ensures Climbs(old(mutLevel), mutLevel, Effect(out), Has(Dropping, e))
      ensures Sound(out, t, Scope(tracker), mutLevel, isConstant) && Enclosed(out)
      ensures Mirrors(e, t, Here(), out)
      ensures RaisedOnly(old(raised), raised, Has(Raising, e))
      decreases e, 1
    {
      hide *;
      LeafIsNoList(e, t, Here());
      RaisedNothing(raised, Has(Raising, e));
      ghost var m := mutLevel;
      var r := TryLeaf(e, t);
      if r.Some? {
        out := r.value;
      } else {
        out := CreateLiteral(t, LiteralOf(e));
        LeafLiteral(e, t, Here(), out);
        LiterallyPure(out);
      }
      LeafSuffices(e, t, Here(), out);
    }

    /** The variable or the conversion, if there is one. */
    method TryLeaf(e: Expr, t: VType) returns (r: Option<OExpr>)
      requires Ready(tracker, level) && Askable(t) && !IsList(t)
      modifies this`mutLevel, this`opStack, this`raised
      ensures opStack == old(opStack) && mutLevel >= old(mutLevel)
      ensures Climbs(old(mutLevel), mutLevel, if r.Some? then Effect(r.value) else PURE, Has(Dropping, e))
      ensures r.Some? ==> Sound(r.value, t, Scope(tracker), mutLevel, isConstant) && Enclosed(r.value)
      ensures r.Some? ==> LeafMirrors(e, t, Here(), r.value)
      ensures r.None? ==> LeavesLiteral(e, t, Here())
      ensures RaisedOnly(old(raised), raised, Has(Raising, e))
      decreases e, 0
    {
      hide *;
      if e.VarRef? {
        RaisedNothing(raised, Has(Raising, e));
        ghost var m := mutLevel;
        r := TryVarRef(t);
        ClimbsWith(m, mutLevel, if r.Some? then Effect(r.value) else PURE, false, Has(Dropping, e));
        if r.Some? { LeafRef(e, t, Here(), r.value); } else { NoVariable(e, t, Here()); }
      } else {
        r := VisitConversion(e, t);
        if r.None? { NoConversion(e, t, Here()); }
      }
    }

    method VisitBool(e: Expr) returns (out: OExpr)
      requires Ready(tracker, level)
      modifies this`mutLevel, this`opStack, this`raised
      ensures opStack == old(opStack) && mutLevel >= old(mutLevel)
      ensures Climbs(old(mutLevel), mutLevel, Effect(out), Has(Dropping, e))
      ensures Sound(out, Bool, Scope(tracker), mutLevel, isConstant) && (|opStack| > 0 ==> Enclosed(out))
      ensures Mirrors(e, Bool, Here(), out)
      ensures RaisedOnly(old(raised), raised, Has(Raising, e))
      decreases e, 2
    {
      hide *;
      if e.BoolBinOp? && Logical(e.op) {
        out := VisitLogical(e);
      } else if e.BoolUnOp? {
        out := VisitNot(e);
      } else if (e.IntBoolBinOp? || e.DecBoolBinOp?) && Comparison(e.op) {
        out := VisitComparison(e, if e.IntBoolBinOp? then Int(256, false) else Decimal);
      } else if e.RawCallExpr? && !isConstant {
        ghost var was, m := raised, mutLevel;
        out := VisitRawCallExpr(e.rc, 0, true);
        HereIs();
        RawCallAsBool(e, Here(), out);
        RawRaises(was, raised, e);
        RawHas(Dropping, e);
        ClimbsWith(m, mutLevel, Effect(out), HasRaw(Dropping, e.rc), Has(Dropping, e));
      } else {
        HereIs();
        ScalarsAreAskable();
        BoolLeaf(e, Here());
        out := VisitLeaf(e, Bool);
      }
    }

    method VisitNot(e: Expr) returns (out: OExpr)
      requires Ready(tracker, level) && e.BoolUnOp?
      modifies this`mutLevel, this`opStack, this`raised
      ensures opStack == old(opStack) && mutLevel >= old(mutLevel)
      ensures Climbs(old(mutLevel), mutLevel, Effect(out), Has(Dropping, e))
      ensures Sound(out, Bool, Scope(tracker), mutLevel, isConstant) && (|opStack| > 0 ==> Enclosed(out))
      ensures Mirrors(e, Bool, Here(), out)
      ensures RaisedOnly(old(raised), raised, Has(Raising, e))
      decreases e, 1
    {
      hide *;
      ghost var was, m := raised, mutLevel;
      opStack := opStack + [UnNot];
      var operand := VisitBool(e.e);
      SoundNot(operand, Scope(tracker), mutLevel, isConstant);
      opStack := opStack[..|opStack| - 1];
      out := InParensIfNested(ONot(operand), Bool);
      BoolNotMirrors(e, Here(), operand, out);
      InnerRaises(was, raised, e);
      SignEffect(operand, out);
      InnerClimbs(m, mutLevel, e, operand, out);
    }

    method VisitLogical(e: Expr) returns (out: OExpr)
      requires Ready(tracker, level) && e.BoolBinOp? && Logical(e.op)
      modifies this`mutLevel, this`opStack, this`raised
      ensures opStack == old(opStack) && mutLevel >= old(mutLevel)
      ensures Climbs(old(mutLevel), mutLevel, Effect(out), Has(Dropping, e))
      ensures Sound(out, Bool, Scope(tracker), mutLevel, isConstant) && (|opStack| > 0 ==> Enclosed(out))
      ensures Mirrors(e, Bool, Here(), out)
      ensures RaisedOnly(old(raised), raised, Has(Raising, e))
      decreases e, 1
    {
      hide *;
      ghost var was, start := raised, mutLevel;
      opStack := opStack + [Infix(e.op)];
      var left := VisitBool(e.l);
      ghost var m, middle := mutLevel, raised;
      var right := VisitBool(e.r);
      SoundLater(left, Bool, Scope(tracker), m, mutLevel, isConstant);
      opStack := opStack[..|opStack| - 1];
      out := WriteOperation(e.op, left, right, Bool, Bool);
      BoolBinMirrors(e, Here(), left, right, out);
      BinRaises(was, middle, raised, e);
      BinClimbs(start, m, mutLevel, e, left, right, e.op, out);
    }

    /** A comparison of two 256-bit integers or two decimals. */
    method VisitComparison(e: Expr, operands: VType) returns (out: OExpr)
      requires Ready(tracker, level) && (e.IntBoolBinOp? || e.DecBoolBinOp?) && Comparison(e.op)
      requires operands == if e.IntBoolBinOp? then Int(256, false) else Decimal
      modifies this`mutLevel, this`opStack, this`raised
      ensures opStack == old(opStack) && mutLevel >= old(mutLevel)
      ensures Climbs(old(mutLevel), mutLevel, Effect(out), Has(Dropping, e))
      ensures Sound(out, Bool, Scope(tracker), mutLevel, isConstant) && (|opStack| > 0 ==> Enclosed(out))
      ensures Mirrors(e, Bool, Here(), out)
      ensures RaisedOnly(old(raised), raised, Has(Raising, e))
      decreases e, 1
    {
      hide *;
      ghost var was, start := raised, mutLevel;
      NumbersAreAskable(operands);
      var left, right;
      ghost var middle, m;
      left, right, middle, m := VisitCompared(e, operands);
      out := WriteOperation(e.op, left, right, operands, Bool);
      ComparisonMirrors(e, Here(), left, right, out);
      BinRaises(was, middle, raised, e);
      BinClimbs(start, m, mutLevel, e, left, right, e.op, out);
    }

    method VisitCompared(e: Expr, operands: VType)
      returns (left: OExpr, right: OExpr, ghost middle: bool, ghost between: nat)
      requires Ready(tracker, level) && (e.IntBoolBinOp? || e.DecBoolBinOp?)
      requires operands == Int(256, false) || operands == Decimal
      modifies this`mutLevel, this`opStack, this`raised
      ensures opStack == old(opStack) && mutLevel >= old(mutLevel)
      ensures Sound(left, operands, Scope(tracker), mutLevel, isConstant) && Enclosed(left)
      ensures Sound(right, operands, Scope(tracker), mutLevel, isConstant) && Enclosed(right)
      ensures Mirrors(e.l, operands, Here(), left) && Mirrors(e.r, operands, Here(), right)
      ensures RaisedOnly(old(raised), middle, Has(Raising, e.l)) && RaisedOnly(middle, raised, Has(Raising, e.r))
      ensures Climbs(old(mutLevel), between, Effect(left), Has(Dropping, e.l))
      ensures Climbs(between, mutLevel, Effect(right), Has(Dropping, e.r))
      decreases e, 0
    {
      hide *;
      NumbersAreAskable(operands);
      opStack := opStack + [Infix(e.op)];
      left := VisitExpr(e.l, operands);
      between, middle := mutLevel, raised;
      right := VisitExpr(e.r, operands);
      SoundLater(left, operands, Scope(tracker), between, mutLevel, isConstant);
      opStack := opStack[..|opStack| - 1];
      RaisedAsOnly(old(raised), middle, e.l, operands, Here());
      RaisedAsOnly(middle, raised, e.r, operands, Here());
    }

    /** A binary operation, in parentheses wherever an operator is waiting. */
    method WriteOperation(op: Op, l: OExpr, r: OExpr, operands: VType, t: VType) returns (out: OExpr)
      requires Sound(l, operands, Scope(tracker), mutLevel, isConstant) && Enclosed(l)
      requires Sound(r, operands, Scope(tracker), mutLevel, isConstant) && Enclosed(r)
      requires || (t.Decimal? && operands == Decimal && Arithmetic(op))
               || (t.Bool? && operands == Bool && Logical(op))
               || (t.Bool? && Comparison(op) && (operands == Int(256, false) || operands == Decimal))
      ensures Sound(out, t, Scope(tracker), mutLevel, isConstant) && (|opStack| > 0 ==> Enclosed(out))
      ensures Bare(out) == OBin(op, l, r)
    {
      hide *;
      SoundBin(op, l, r, operands, t, Scope(tracker), mutLevel, isConstant);
      out := InParensIfNested(OBin(op, l, r), t);
    }

    method InParensIfNested(e: OExpr, t: VType) returns (out: OExpr)
      requires Sound(e, t, Scope(tracker), mutLevel, isConstant) && !e.OParen?
      ensures Sound(out, t, Scope(tracker), mutLevel, isConstant) && (|opStack| > 0 ==> Enclosed(out))
      ensures Bare(out) == e && out == InParens(|opStack| > 0, e)
    {
      hide Sound, Scope;
      out := e;
      if |opStack| > 0 {
        SoundParen(e, t, Scope(tracker), mutLevel, isConstant);
        out := OParen(e);
      }
    }

    method VisitDecimal(e: Expr) returns (out: OExpr)
      requires Ready(tracker, level)
      modifies this`mutLevel, this`opStack, this`raised
      ensures opStack == old(opStack) && mutLevel >= old(mutLevel)
      ensures Climbs(old(mutLevel), mutLevel, Effect(out), Has(Dropping, e))
      ensures Sound(out, Decimal, Scope(tracker), mutLevel, isConstant) && (|opStack| > 0 ==> Enclosed(out))
      ensures Mirrors(e, Decimal, Here(), out)
      ensures RaisedOnly(old(raised), raised, Has(Raising, e))
      decreases e, 2
    {
      hide *;
      if e.BinOp? && Arithmetic(e.op) {
        out := VisitDecimalOperation(e);
      } else if e.UnOp? {
        ghost var was, m := raised, mutLevel;
        opStack := opStack + [UnMinus];
        var operand := VisitDecimal(e.e);
        SoundNeg(operand, Decimal, Scope(tracker), mutLevel, isConstant);
        opStack := opStack[..|opStack| - 1];
        out := InParensIfNested(ONeg(operand), Decimal);
        DecimalNegMirrors(e, Here(), operand, out);
        InnerRaises(was, raised, e);
        SignEffect(operand, out);
        InnerClimbs(m, mutLevel, e, operand, out);
      } else {
        ScalarsAreAskable();
        DecimalIsLeaf(e, Here());
        out := VisitLeaf(e, Decimal);
      }
    }

    method VisitDecimalOperation(e: Expr) returns (out: OExpr)
      requires Ready(tracker, level) && e.BinOp? && Arithmetic(e.op)
      modifies this`mutLevel, this`opStack, this`raised
      ensures opStack == old(opStack) && mutLevel >= old(mutLevel)
      ensures Climbs(old(mutLevel), mutLevel, Effect(out), Has(Dropping, e))
      ensures Sound(out, Decimal, Scope(tracker), mutLevel, isConstant) && (|opStack| > 0 ==> Enclosed(out))
      ensures Mirrors(e, Decimal, Here(), out)
      ensures RaisedOnly(old(raised), raised, Has(Raising, e))
      decreases e, 1
    {
      hide *;
      ghost var was, start := raised, mutLevel;
      opStack := opStack + [Infix(e.op)];
      var left := VisitDecimal(e.l);
      ghost var m, middle := mutLevel, raised;
      var right := VisitDecimal(e.r);
      SoundLater(left, Decimal, Scope(tracker), m, mutLevel, isConstant);
      opStack := opStack[..|opStack| - 1];
      out := WriteOperation(e.op, left, right, Decimal, Decimal);
      DecimalBinMirrors(e, Here(), left, right, out);
      BinRaises(was, middle, raised, e);
      BinClimbs(start, m, mutLevel, e, left, right, e.op, out);
    }

    // ----- conversions

    method VisitConversion(e: Expr, t: VType) returns (r: Option<OExpr>)
      requires Ready(tracker, level) && Askable(t) && !IsList(t)
      modifies this`mutLevel, this`opStack, this`raised
      ensures opStack == old(opStack) && mutLevel >= old(mutLevel)
      ensures Climbs(old(mutLevel), mutLevel, if r.Some? then Effect(r.value) else PURE, Has(Dropping, e))
      ensures r.Some? ==> Enclosed(r.value) && Sound(r.value, t, Scope(tracker), mutLevel, isConstant)
      ensures r.None? <==> ConversionSource(e, t).None?
      ensures r.Some? ==> LeafMirrors(e, t, Here(), r.value)
      ensures RaisedOnly(old(raised), raised, Has(Raising, e))
      decreases e, 0, 0
    {
      hide *;
      var from := ConversionSource(e, t);
      if from.None? {
        RaisedNothing(raised, Has(Raising, e));
        ClimbsStill(mutLevel, PURE, Has(Dropping, e));
        return None;
      }
      SourceIsScalar(e, t);
      var inner := VisitExpr(e.e, from.value);
      RaisedAsOnly(old(raised), raised, e.e, from.value, Here());
      InnerRaises(old(raised), raised, e);
      var out := FinishConversion(e, t, from.value, inner);
      InnerClimbs(old(mutLevel), mutLevel, e, inner, out);
      return Some(out);
    }

    method FinishConversion(e: Expr, t: VType, from: VType, inner: OExpr) returns (out: OExpr)
      requires Askable(t) && ConversionSource(e, t) == Some(from) && Mirrors(e.e, from, Here(), inner)
      requires Sound(inner, from, Scope(tracker), mutLevel, isConstant)
      ensures Enclosed(out) && Sound(out, t, Scope(tracker), mutLevel, isConstant) && LeafMirrors(e, t, Here(), out)
      ensures Effect(out) == Effect(inner)
    {
      hide *;
      var known, at := inner, from;
      SourceIsScalar(e, t);
      HereIs();
      ConvertedIs(py, e, from, t, inner);
      ConvertedEffect(py, e, from, t, inner);
      LeafConversion(e, t, Here(), from, inner);
      if t.Int? && (e.ConvertInt? || e.ConvertDecimal?) {
        known, at := CheckBeforeConversion(t, inner, from);
      }
      out := ConvertTo(t, known, at);
    }

    /** A known number is brought into the range of the type it is to be converted to; what replaces it is a literal
        of that type. */
    method CheckBeforeConversion(t: VType, e: OExpr, from: VType) returns (out: OExpr, at: VType)
      requires t.Int? && t.n > 0 && (from.Int? || from.Decimal?)
      requires Sound(e, from, Scope(tracker), mutLevel, isConstant)
      ensures out == CheckLiteralBounds(py, t, e) && Sound(out, at, Scope(tracker), mutLevel, isConstant)
      ensures at == if out == e || out == OMinus(e) then from else t
    {
      hide Sound, Scope, Value, Eval;
      out, at := CheckLiteralBounds(py, t, e), from;
      MinusDiffers(e);
      if out == OMinus(e) {
        SoundMinus(py, e, from, Scope(tracker), mutLevel, isConstant);
      } else if out != e {
        SoundInt(out.v, t, Scope(tracker), mutLevel, isConstant);
        at := t;
      }
    }

    method ConvertTo(t: VType, e: OExpr, at: VType) returns (out: OExpr)
      requires Sound(e, at, Scope(tracker), mutLevel, isConstant) && Convertible(at, t)
      ensures out == OApp(Convert(t), [Arg(e, at)]) && Enclosed(out)
      ensures Sound(out, t, Scope(tracker), mutLevel, isConstant)
    {
      hide Sound;
      var args := [Arg(e, at)];
      SoundApp(Convert(t), args, t, Scope(tracker), mutLevel, isConstant);
      out := OApp(Convert(t), args);
    }

    // ----- bytes, strings, hashes

    method VisitBytesM(e: Expr, t: VType) returns (out: OExpr)
      requires Ready(tracker, level) && t.BytesM? && ValidScalar(t)
      modifies this`mutLevel, this`opStack, this`raised
      ensures opStack == old(opStack) && mutLevel >= old(mutLevel)
      ensures Climbs(old(mutLevel), mutLevel, Effect(out), Has(Dropping, e))
      ensures Sound(out, t, Scope(tracker), mutLevel, isConstant) && Enclosed(out)
      ensures Mirrors(e, t, Here(), out)
      ensures RaisedOnly(old(raised), raised, Has(Raising, e))
      decreases e, 2
    {
      hide Ready, Sound, Mirrors, HashMirrors, RaisesAt, NothingFits, Has;
      if e.HashOf? {
        HashHas(Raising, e);
        HashHas(Dropping, e);
        var hash := VisitHash256(e.arg);
        out := hash;
        if t.m != 32 {
          out := ConvertTo(t, hash, BytesM(32));
          SingleArg(Arg(hash, BytesM(32)));
        }
        HashOfMirrors(e, t, Here(), hash, out);
        return;
      }
      out := VisitLeaf(e, t);
    }

    method VisitHash256(arg: HashArg) returns (out: OExpr)
      requires Ready(tracker, level)
      modifies this`mutLevel, this`opStack, this`raised
      ensures opStack == old(opStack) && mutLevel >= old(mutLevel)
      ensures Climbs(old(mutLevel), mutLevel, Effect(out), Has(Dropping, arg.e))
      ensures Sound(out, BytesM(32), Scope(tracker), mutLevel, isConstant) && Enclosed(out)
      ensures HashMirrors(arg, Here(), out)
      ensures RaisedOnly(old(raised), raised, Has(Raising, arg.e))
      decreases arg, 0
    {
      hide Ready, Sound, Mirrors, RaisesAt, NothingFits, Has;
      var t := HashedType(arg);
      var value := VisitExpr(arg.e, t);
      var args := [Arg(value, t)];
      SoundApp(Hash, args, BytesM(32), Scope(tracker), mutLevel, isConstant);
      SingleArg(args[0]);
      out := OApp(Hash, args);
    }

    method VisitBytes(e: Expr, t: VType) returns (out: OExpr)
      requires Ready(tracker, level) && t.Bytes?
      modifies this`mutLevel, this`opStack, this`raised
      ensures opStack == old(opStack) && mutLevel >= old(mutLevel)
      ensures Climbs(old(mutLevel), mutLevel, Effect(out), Has(Dropping, e))
      ensures Sound(out, t, Scope(tracker), mutLevel, isConstant) && Enclosed(out)
      ensures Mirrors(e, t, Here(), out)
      ensures MaxLength(out, Scope(tracker)) <= t.m
      ensures RaisedOnly(old(raised), raised, Has(Raising, e))
      decreases e, 2
    {
      hide Ready, Sound, Mirrors, ConcatMirrors, RawCallMirrors, WellTyped, MaxLength, RaisesAt, NothingFits, Has;
      if e.RawCallExpr? && !isConstant && t.m > 0 {
        out := VisitRawCallExpr(e.rc, t.m, false);
        RawRaises(old(raised), raised, e);
        RawHas(Dropping, e);
        RawCallAsBytes(e, t, Here(), out);
      } else if e.ConcatOf? {
        out := VisitConcat(e, t);
        ConcatSuffices(e, t, Here(), out);
      } else {
        out := VisitLeaf(e, t);
      }
      StaysWithin(out, t, tracker, level, mutLevel, isConstant);
    }

    method VisitString(e: Expr, t: VType) returns (out: OExpr)
      requires Ready(tracker, level) && t.Str?
      modifies this`mutLevel, this`opStack, this`raised
      ensures opStack == old(opStack) && mutLevel >= old(mutLevel)
      ensures Climbs(old(mutLevel), mutLevel, Effect(out), Has(Dropping, e))
      ensures Sound(out, t, Scope(tracker), mutLevel, isConstant) && Enclosed(out)
      ensures Mirrors(e, t, Here(), out)
      ensures MaxLength(out, Scope(tracker)) <= t.m
      ensures RaisedOnly(old(raised), raised, Has(Raising, e))
      decreases e, 2
    {
      hide Ready, Sound, Mirrors, ConcatMirrors, WellTyped, MaxLength, RaisesAt, NothingFits, Has;
      if e.ConcatOf? {
        out := VisitConcat(e, t);
        ConcatSuffices(e, t, Here(), out);
      } else {
        out := VisitLeaf(e, t);
      }
      StaysWithin(out, t, tracker, level, mutLevel, isConstant);
    }

    /** A concatenation whose parts are sized so that together they never exceed the capacity. */
    method VisitConcat(e: Expr, t: VType) returns (out: OExpr)
      requires Ready(tracker, level) && e.ConcatOf? && (t.Bytes? || t.Str?)
      modifies this`mutLevel, this`opStack, this`raised
      ensures opStack == old(opStack) && mutLevel >= old(mutLevel)
      ensures Climbs(old(mutLevel), mutLevel, Effect(out), Has(Dropping, e))
      ensures Sound(out, t, Scope(tracker), mutLevel, isConstant) && Enclosed(out)
      ensures ConcatMirrors(e, t, Here(), out)
      ensures RaisedOnly(old(raised), raised, Has(Raising, e))
      decreases e, 1
    {
      hide Ready, Sound, ResultOk, SoundArgs, TotalSize, Mirrors, PartMirrors, MoreParts, ScaledSizes, RaisesAt,
           NothingFits, Has, HasPart, Climbs, EffectOfArgs, Effect;
      ConcatHas(Raising, e);
      ConcatHas(Dropping, e);
      ghost var drops := Has(Dropping, e);
      var (aSize, bSize) := ScaledSizes(e.a.size, e.b.size, t.m);
      var a := VisitPart(e.a, t, aSize);
      var args := [a];
      FirstPart(a, Scope(tracker), mutLevel, isConstant);
      ghost var m := mutLevel;
      var b := VisitPart(e.b, t, bSize);
      PartAppends(args, b, t, Scope(tracker), m, mutLevel, isConstant);
      SingleArg(a);
      PartClimbs(old(mutLevel), m, mutLevel, args, b, HasPart(Dropping, e.a), HasPart(Dropping, e.b), drops);
      args := args + [b];
      var total := PartSize(a.at) + PartSize(b.at);
      NoMoreParts(t, Here(), args);
      assert e.c[..0] == [];
      for i := 0 to |e.c|
        invariant opStack == old(opStack) && mutLevel >= old(mutLevel)
        invariant RaisedOnly(old(raised), raised, Has(Raising, e))
        invariant Climbs(old(mutLevel), mutLevel, EffectOfArgs(args), drops)
        invariant |args| >= 2 && PartsFit(args, t) && TotalSize(args) == total
        invariant SoundArgs(args, Scope(tracker), mutLevel, isConstant)
        invariant args[0] == a && args[1] == b && MoreParts(e.c[..i], t, Here(), args)
      {
        MorePartsSkip(e.c, i, t, Here(), args);
        if t.m >= total + e.c[i].size {
          m := mutLevel;
          var c := VisitPart(e.c[i], t, e.c[i].size);
          PartAppends(args, c, t, Scope(tracker), m, mutLevel, isConstant);
          PartClimbs(old(mutLevel), m, mutLevel, args, c, drops, HasPart(Dropping, e.c[i]), drops);
          MorePartsTake(e.c, i, t, Here(), args, c);
          args := args + [c];
          total := total + PartSize(c.at);
        }
      }
      assert e.c[..|e.c|] == e.c;
      ConcatResult(args, t);
      SoundApp(Concat, args, t, Scope(tracker), mutLevel, isConstant);
      AppClimbs(old(mutLevel), mutLevel, mutLevel, Concat, args, drops);
      out := OApp(Concat, args);
    }

    method VisitPart(part: Part, t: VType, size: nat) returns (a: Arg)
      requires Ready(tracker, level) && (t.Bytes? || t.Str?)
      modifies this`mutLevel, this`opStack, this`raised
      ensures opStack == old(opStack) && mutLevel >= old(mutLevel)
      ensures Climbs(old(mutLevel), mutLevel, Effect(a.e), HasPart(Dropping, part))
      ensures Sound(a.e, a.at, Scope(tracker), mutLevel, isConstant)
      ensures PartFits(a, t) && PartSize(a.at) <= size
      ensures PartMirrors(part, t, size, Here(), a)
      ensures RaisedOnly(old(raised), raised, HasPart(Raising, part))
      decreases part, 0
    {
      hide Ready, Sound, Mirrors, RaisesAt, NothingFits, Has;
      if t.Bytes? && part.bm.Some? && size != 0 {
        var at := BytesM(if size <= 32 then size else 32);
        var x := VisitExpr(part.bm.value, at);
        return Arg(x, at);
      }
      var at := if t.Str? then Str(size) else Bytes(size);
      var x := VisitExpr(part.e, at);
      return Arg(x, at);
    }
    // ----- addresses and calls

    method VisitAddress(e: Expr) returns (out: OExpr)
      requires Ready(tracker, level)
      modifies this`mutLevel, this`opStack, this`raised
      ensures opStack == old(opStack) && mutLevel >= old(mutLevel)
      ensures Climbs(old(mutLevel), mutLevel, Effect(out), Has(Dropping, e))
      ensures Sound(out, Address, Scope(tracker), mutLevel, isConstant) && Enclosed(out)
      ensures Mirrors(e, Address, Here(), out)
      ensures RaisedOnly(old(raised), raised, Has(Raising, e))
      decreases e, 2
    {
      hide Ready, Sound, Mirrors, ProxyMirrors, BlueprintMirrors, EcRecMirrors, LeafMirrors, Has;
      if e.CreateProxy? && !isConstant {
        out := VisitCreateMinProxyOrCopyOf(e);
        AddressSuffices(e, Here(), out);
      } else if e.CreateFromBlueprint? && !isConstant {
        out := VisitCreateFromBlueprint(e);
        AddressSuffices(e, Here(), out);
      } else if e.EcRec? {
        out := VisitEcrecover(e);
        AddressSuffices(e, Here(), out);
      } else {
        out := VisitLeaf(e, Address);
      }
    }

    /** Visits an optional argument and appends it. */
    method AppendOptional(args: seq<Arg>, e: Option<Expr>, t: VType) returns (r: seq<Arg>)
      requires Ready(tracker, level) && Askable(t)
      requires SoundArgs(args, Scope(tracker), mutLevel, isConstant)
      modifies this`mutLevel, this`opStack, this`raised
      ensures opStack == old(opStack) && mutLevel >= old(mutLevel)
      ensures Climbs(old(mutLevel), mutLevel, EffectOfArgs(r), HasOption(Dropping, e))
      ensures SoundArgs(r, Scope(tracker), mutLevel, isConstant)
      ensures |r| == |args| + Given(e) && args <= r && OptionMirrors(e, t, Here(), r, |args|)
      ensures !IsPair(t) ==> RaisedOnly(old(raised), raised, HasOption(Raising, e))
      decreases e, 4
    {
      hide Ready, Sound, SoundArgs, Mirrors, Has;
      r := args;
      ClimbsStill(mutLevel, EffectOfArgs(args), HasOption(Dropping, e));
      if e.Some? {
        r := AppendArg(args, e.value, t);
      }
    }

    method AppendArg(args: seq<Arg>, e: Expr, t: VType) returns (r: seq<Arg>)
      requires Ready(tracker, level) && Askable(t)
      requires SoundArgs(args, Scope(tracker), mutLevel, isConstant)
      modifies this`mutLevel, this`opStack, this`raised
      ensures opStack == old(opStack) && mutLevel >= old(mutLevel)
      ensures Climbs(old(mutLevel), mutLevel, EffectOfArgs(r), Has(Dropping, e))
      ensures SoundArgs(r, Scope(tracker), mutLevel, isConstant)
      ensures |r| == |args| + 1 && args <= r && r[|args|].at == t && ArgMirrors(e, t, Here(), r, |args|)
      ensures !IsPair(t) ==> RaisedOnly(old(raised), raised, Has(Raising, e))
      decreases e, 4
    {
      hide Ready, Sound, SoundArgs, Mirrors, RaisesAt, NothingFits, Has;
      ghost var m := mutLevel;
      var x := VisitExpr(e, t);
      SoundArgsAppend(args, Arg(x, t), Scope(tracker), m, mutLevel, isConstant);
      ArgsAppend(args, Arg(x, t));
      r := args + [Arg(x, t)];
    }

    method RequireNonPayable()
      modifies this`mutLevel
      ensures mutLevel == Max(old(mutLevel), NON_PAYABLE)
    {
      if mutLevel < NON_PAYABLE {
        mutLevel := NON_PAYABLE;
      }
    }

    method VisitCreateMinProxyOrCopyOf(e: Expr) returns (out: OExpr)
      requires Ready(tracker, level) && e.CreateProxy? && !isConstant
      modifies this`mutLevel, this`opStack, this`raised
      ensures opStack == old(opStack) && mutLevel >= old(mutLevel)
      ensures Climbs(old(mutLevel), mutLevel, Effect(out), Has(Dropping, e))
      ensures Sound(out, Address, Scope(tracker), mutLevel, isConstant) && Enclosed(out)
      ensures ProxyMirrors(e, Here(), out)
      ensures RaisedOnly(old(raised), raised, Has(Raising, e))
      decreases e, 1
    {
      hide Ready, Sound, SoundArgs, ProxyMirrors, ArgMirrors, OptionMirrors, Scope, Here, Has;
      CreateHas(Raising, e);
      CreateHas(Dropping, e);
      RequireNonPayable();
      NoArgs(Scope(tracker), mutLevel, isConstant);
      ghost var m := mutLevel;
      var target := AppendArg([], e.target, Address);
      ghost var m1 := mutLevel;
      var value := AppendOptional(target, e.value, UINT);
      ghost var m2 := mutLevel;
      var args := AppendOptional(value, e.salt, BytesM(32));
      ArgsClimb(m, m1, m2, target, value, Has(Dropping, e.target), HasOption(Dropping, e.value), Has(Dropping, e));
      ArgsClimb(m, m2, mutLevel, value, args, Has(Dropping, e), HasOption(Dropping, e.salt), Has(Dropping, e));
      AppClimbs(old(mutLevel), m, mutLevel, Create, args, Has(Dropping, e));
      ArgKept(e.target, Address, Here(), target, args, 0);
      OptionKept(e.value, UINT, Here(), value, args, 1);
      ProxyAre(e, Here(), args);
      ProxyTypes(e, Here(), OApp(Create, args));
      SoundApp(Create, args, Address, Scope(tracker), mutLevel, isConstant);
      out := OApp(Create, args);
    }

    method VisitCreateFromBlueprint(e: Expr) returns (out: OExpr)
      requires Ready(tracker, level) && e.CreateFromBlueprint? && !isConstant
      modifies this`mutLevel, this`opStack, this`raised
      ensures opStack == old(opStack) && mutLevel >= old(mutLevel)
      ensures Climbs(old(mutLevel), mutLevel, Effect(out), Has(Dropping, e))
      ensures Sound(out, Address, Scope(tracker), mutLevel, isConstant) && Enclosed(out)
      ensures BlueprintMirrors(e, Here(), out)
      ensures RaisedOnly(old(raised), raised, Has(Raising, e))
      decreases e, 1
    {
      hide Ready, Sound, SoundArgs, BlueprintMirrors, Scope, Here, Has, Climbs, EffectOfArgs, Effect, ResultOk;
      RequireNonPayable();
      ghost var m := mutLevel;
      var args := VisitBlueprintArgs(e);
      BlueprintTypes(e, Here(), OApp(Create, args));
      SoundApp(Create, args, Address, Scope(tracker), mutLevel, isConstant);
      AppClimbs(old(mutLevel), m, mutLevel, Create, args, Has(Dropping, e));
      out := OApp(Create, args);
    }

    method VisitBlueprintArgs(e: Expr) returns (args: seq<Arg>)
      requires Ready(tracker, level) && e.CreateFromBlueprint? && !isConstant
      modifies this`mutLevel, this`opStack, this`raised
      ensures opStack == old(opStack) && mutLevel >= old(mutLevel)
      ensures Climbs(old(mutLevel), mutLevel, EffectOfArgs(args), Has(Dropping, e))
      ensures SoundArgs(args, Scope(tracker), mutLevel, isConstant)
      ensures BlueprintMirrors(e, Here(), OApp(Create, args))
      ensures RaisedOnly(old(raised), raised, Has(Raising, e))
      decreases e, 1, 0
    {
      hide Ready, Sound, SoundArgs, BlueprintMirrors, ArgMirrors, OptionMirrors, Scope, Here, StartsWith, Has,
           HasOption, Climbs, EffectOfArgs, Effect;
      CreateHas(Raising, e);
      CreateHas(Dropping, e);
      ghost var drops := Has(Dropping, e);
      NoArgs(Scope(tracker), mutLevel, isConstant);
      var target := AppendArg([], e.target, Address);
      ghost var m1 := mutLevel;
      var raw := AppendRawArgs(target, e);
      ghost var m2 := mutLevel;
      var value := AppendOptional(raw, e.value, UINT);
      ghost var m3 := mutLevel;
      var offset := AppendOptional(value, e.codeOffset, UINT);
      ghost var m4 := mutLevel;
      args := AppendOptional(offset, e.salt, BytesM(32));
      ArgsClimb(old(mutLevel), m1, m2, target, raw, Has(Dropping, e.target), drops, drops);
      ArgsClimb(old(mutLevel), m2, m3, raw, value, drops, HasOption(Dropping, e.value), drops);
      ArgsClimb(old(mutLevel), m3, m4, value, offset, drops, HasOption(Dropping, e.codeOffset), drops);
      ArgsClimb(old(mutLevel), m4, mutLevel, offset, args, drops, HasOption(Dropping, e.salt), drops);
      FivePrefixes(target, raw, value, offset, args);
      BlueprintKept(e, Here(), target, raw, value, offset, args);
      BlueprintAre(e, Here(), args);
    }

    method AppendRawArgs(args: seq<Arg>, e: Expr) returns (r: seq<Arg>)
      requires Ready(tracker, level) && e.CreateFromBlueprint?
      requires SoundArgs(args, Scope(tracker), mutLevel, isConstant)
      modifies this`mutLevel, this`opStack, this`raised
      ensures opStack == old(opStack) && mutLevel >= old(mutLevel)
      ensures Climbs(old(mutLevel), mutLevel, EffectOfArgs(r), Has(Dropping, e))
      ensures RaisedOnly(old(raised), raised, Has(Raising, e))
      ensures SoundArgs(r, Scope(tracker), mutLevel, isConstant)
      ensures args <= r && |r| == |args| + RawCount(e)
      ensures RawCount(e) == 1 ==> ArgMirrors(e.rawArgs.value.arg, Bytes(100), Here(), r, |args|)
      decreases e, 0
    {
      hide Ready, Sound, SoundArgs, ArgMirrors, Scope, Here, Has;
      CreateHas(Raising, e);
      CreateHas(Dropping, e);
      ClimbsStill(mutLevel, EffectOfArgs(args), Has(Dropping, e));
      r := args;
      if e.rawArgs.Some? {
        var flag := CreateLiteral(Bool, e.rawArgs.value.flag);
        if flag.text == "True" {
          r := AppendArg(args, e.rawArgs.value.arg, Bytes(100));
          ClimbsWith(old(mutLevel), mutLevel, EffectOfArgs(r), Has(Dropping, e.rawArgs.value.arg), Has(Dropping, e));
        }
      }
    }

    method VisitEcrecover(e: Expr) returns (out: OExpr)
      requires Ready(tracker, level) && e.EcRec?
      modifies this`mutLevel, this`opStack, this`raised
      ensures opStack == old(opStack) && mutLevel >= old(mutLevel)
      ensures Climbs(old(mutLevel), mutLevel, Effect(out), Has(Dropping, e))
      ensures Sound(out, Address, Scope(tracker), mutLevel, isConstant) && Enclosed(out)
      ensures EcRecMirrors(e, Here(), out)
      ensures RaisedOnly(old(raised), raised, Has(Raising, e))
      decreases e, 1
    {
      hide Ready, Sound, SoundArgs, Mirrors, LeafMirrors, ArgMirrors, OptionMirrors, Scope, EcRecMirrors, InOrder,
           Here, Has;
      EcRecHas(Raising, e);
      EcRecHas(Dropping, e);
      ghost var drops := Has(Dropping, e);
      NoArgs(Scope(tracker), mutLevel, isConstant);
      var first := AppendArg([], e.hash, BytesM(32));
      ghost var m1 := mutLevel;
      var given := AppendGiven(first, e);
      ghost var m2 := mutLevel;
      var rest := AppendRead(given, e);
      ArgsClimb(old(mutLevel), m1, m2, first, given, Has(Dropping, e.hash), drops, drops);
      ArgsClimb(old(mutLevel), m2, mutLevel, given, rest, drops, drops, drops);
      var args := InOrder(rest, e.v8.Some?, e.rb.Some?, e.sb.Some?);
      ArgKept(e.hash, BytesM(32), Here(), first, given, 0);
      ArgKept(e.hash, BytesM(32), Here(), given, rest, 0);
      OptionKept(e.v8, Int(8, false), Here(), given, rest, 1);
      OptionKept(e.rb, BytesM(32), Here(), given, rest, 1 + Given(e.v8));
      OptionKept(e.sb, BytesM(32), Here(), given, rest, 1 + Given(e.v8) + Given(e.rb));
      EcrecoverOrder(e, Here(), rest);
      EcRecTypes(e, Here(), OApp(EcRecover, args));
      InOrderSound(rest, e.v8.Some?, e.rb.Some?, e.sb.Some?, Scope(tracker), mutLevel, isConstant);
      InOrderEffect(rest, e.v8.Some?, e.rb.Some?, e.sb.Some?);
      AppClimbs(old(mutLevel), mutLevel, mutLevel, EcRecover, args, drops);
      SoundApp(EcRecover, args, Address, Scope(tracker), mutLevel, isConstant);
      out := OApp(EcRecover, args);
    }

    /** Those of v, r and s that are given by their first fields. */
    method AppendGiven(first: seq<Arg>, e: Expr) returns (args: seq<Arg>)
      requires Ready(tracker, level) && e.EcRec? && |first| == 1
      requires SoundArgs(first, Scope(tracker), mutLevel, isConstant)
      modifies this`mutLevel, this`opStack, this`raised
      ensures opStack == old(opStack) && mutLevel >= old(mutLevel)
      ensures Climbs(old(mutLevel), mutLevel, EffectOfArgs(args), Has(Dropping, e))
      ensures RaisedOnly(old(raised), raised, Has(Raising, e))
      ensures SoundArgs(args, Scope(tracker), mutLevel, isConstant)
      ensures first <= args && |args| == 1 + Given(e.v8) + Given(e.rb) + Given(e.sb)
      ensures OptionMirrors(e.v8, Int(8, false), Here(), args, 1)
      ensures OptionMirrors(e.rb, BytesM(32), Here(), args, 1 + Given(e.v8))
      ensures OptionMirrors(e.sb, BytesM(32), Here(), args, 1 + Given(e.v8) + Given(e.rb))
      decreases e, 0
    {
      hide Ready, Sound, SoundArgs, ArgMirrors, OptionMirrors, Scope, Here, Has;
      EcRecHas(Raising, e);
      EcRecHas(Dropping, e);
      ghost var drops := Has(Dropping, e);
      var v := AppendOptional(first, e.v8, Int(8, false));
      ghost var m1 := mutLevel;
      var vr := AppendOptional(v, e.rb, BytesM(32));
      ghost var m2 := mutLevel;
      args := AppendOptional(vr, e.sb, BytesM(32));
      ArgsClimb(old(mutLevel), m1, m2, v, vr, HasOption(Dropping, e.v8), HasOption(Dropping, e.rb), drops);
      ArgsClimb(old(mutLevel), m2, mutLevel, vr, args, drops, HasOption(Dropping, e.sb), drops);
      OptionKept(e.v8, Int(8, false), Here(), v, vr, 1);
      OptionKept(e.v8, Int(8, false), Here(), vr, args, 1);
      OptionKept(e.rb, BytesM(32), Here(), vr, args, |v|);
    }

    /** Those that are not are read as 256-bit integers from their second fields. */
    method AppendRead(given: seq<Arg>, e: Expr) returns (args: seq<Arg>)
      requires Ready(tracker, level) && e.EcRec? && |given| == 1 + Given(e.v8) + Given(e.rb) + Given(e.sb)
      requires SoundArgs(given, Scope(tracker), mutLevel, isConstant)
      modifies this`mutLevel, this`opStack, this`raised
      ensures opStack == old(opStack) && mutLevel >= old(mutLevel)
      ensures Climbs(old(mutLevel), mutLevel, EffectOfArgs(args), Has(Dropping, e))
      ensures RaisedOnly(old(raised), raised, Has(Raising, e))
      ensures SoundArgs(args, Scope(tracker), mutLevel, isConstant)
      ensures given <= args && |args| == 4
      ensures e.v8.None? ==> ArgMirrors(e.vi, UINT, Here(), args, |given|)
      ensures e.rb.None? ==> ArgMirrors(e.ri, UINT, Here(), args, |given| + 1 - Given(e.v8))
      ensures e.sb.None? ==> ArgMirrors(e.si, UINT, Here(), args, 3)
      decreases e, 0
    {
      hide Ready, Sound, SoundArgs, ArgMirrors, Scope, Here, Has, Climbs, EffectOfArgs, Effect, HasOption;
      EcRecHas(Raising, e);
      EcRecHas(Dropping, e);
      ghost var drops := Has(Dropping, e);
      var v := given;
      ClimbsStill(mutLevel, EffectOfArgs(v), drops);
      if e.v8.None? {
        v := AppendArg(given, e.vi, UINT);
        ClimbsWith(old(mutLevel), mutLevel, EffectOfArgs(v), Has(Dropping, e.vi), drops);
      }
      var vr := v;
      ghost var m := mutLevel;
      if e.rb.None? {
        vr := AppendArg(v, e.ri, UINT);
        ArgsClimb(old(mutLevel), m, mutLevel, v, vr, drops, Has(Dropping, e.ri), drops);
      }
      args := vr;
      m := mutLevel;
      if e.sb.None? {
        args := AppendArg(vr, e.si, UINT);
        ArgsClimb(old(mutLevel), m, mutLevel, vr, args, drops, Has(Dropping, e.si), drops);
      }
      if e.v8.None? {
        ArgKept(e.vi, UINT, Here(), v, vr, |given|);
        ArgKept(e.vi, UINT, Here(), vr, args, |given|);
      }
      if e.rb.None? { ArgKept(e.ri, UINT, Here(), vr, args, |v|); }
    }

    /** A raw call inside an expression: for its success flag, or for `size` bytes of output. */
    method VisitRawCallExpr(rc: RawCallMessage, size: nat, asBool: bool) returns (out: OExpr)
      requires Ready(tracker, level) && !isConstant && (asBool || size > 0)
      modifies this`mutLevel, this`opStack, this`raised
      ensures opStack == old(opStack) && mutLevel >= old(mutLevel)
      ensures Climbs(old(mutLevel), mutLevel, Effect(out), HasRaw(Dropping, rc))
      ensures Sound(out, if asBool then Bool else Bytes(size), Scope(tracker), mutLevel, isConstant) && Enclosed(out)
      ensures RawCallMirrors(rc, size, Here(), out)
      ensures RaisedOnly(old(raised), raised, HasRaw(Raising, rc))
      decreases rc, 1
    {
      hide Ready, Sound, SoundArgs, Mirrors, ArgMirrors, RawCallArgs, Scope, Here, Has, Climbs, EffectOfArgs, Effect;
      NoArgs(Scope(tracker), mutLevel, isConstant);
      ghost var drops := HasRaw(Dropping, rc);
      var to := AppendArg([], rc.to, Address);
      ghost var m1 := mutLevel;
      var data := AppendArg(to, rc.data, Bytes(100));
      ghost var m2 := mutLevel;
      ArgKept(rc.to, Address, Here(), to, data, 0);
      var args := AppendGasAndValue(rc, data, Here());
      ArgsClimb(old(mutLevel), m1, m2, to, data, Has(Dropping, rc.to), Has(Dropping, rc.data), drops);
      ArgsClimb(old(mutLevel), m2, mutLevel, data, args, drops, drops, drops);
      var isStatic := CreateLiteral(Bool, rc.static_);
      ghost var m := mutLevel;
      RequireForRawCall(isStatic.text == "True");
      SoundArgsLater(args, Scope(tracker), m, mutLevel, isConstant);
      var f := RawCall(size, isStatic.text == "True");
      SoundApp(f, args, if asBool then Bool else Bytes(size), Scope(tracker), mutLevel, isConstant);
      AppClimbs(old(mutLevel), m, mutLevel, f, args, drops);
      out := OApp(f, args);
    }

    method RequireForRawCall(isStatic: bool)
      modifies this`mutLevel
      ensures mutLevel == Max(old(mutLevel), if isStatic then VIEW else NON_PAYABLE)
    {
      if isStatic && mutLevel <= VIEW {
        mutLevel := VIEW;
      } else if mutLevel < NON_PAYABLE {
        mutLevel := NON_PAYABLE;
      }
    }

    // ----- lists

    method VisitList(e: Expr, t: VType) returns (out: OExpr)
      requires Ready(tracker, level) && IsList(t) && ValidType(t)
      modifies this`mutLevel, this`opStack, this`raised
      ensures opStack == old(opStack) && mutLevel >= old(mutLevel)
      ensures Climbs(old(mutLevel), mutLevel, Effect(out), Has(Dropping, e))
      ensures Sound(out, t, Scope(tracker), mutLevel, isConstant) && Enclosed(out)
      ensures Mirrors(e, t, Here(), out)
      ensures RaisedAs(old(raised), raised, e, t, Here())
      decreases e, 2
    {
      hide Ready, Sound, SoundArgs, Mirrors, ListMirrors, NothingFits, NameOk, Scope, ItemsMirror, ArgMirrors,
           Literally, Has, HasOther, Climbs, Effect;
      if e.ListOf? && e.other.ListVar? {
        var r := TryVarRef(t);
        ghost var drops := Has(Dropping, e);
        if r.Some? {
          ListVarSuffices(e, t, Here(), r.value);
          ClimbsWith(old(mutLevel), mutLevel, Effect(r.value), false, drops);
          return r.value;
        }
        ClimbsToNothing(old(mutLevel), mutLevel);
      }
      if t.base.Int? && t.base.n == 256 && t.size == 2 {
        // Only fixed lists have the fields asked for here: on a dynamic array the question itself raises.
        if t.DynArray? {
          raised := true;
        } else if e.ListOf? && (e.other.EcAddOf? || e.other.EcMulOf?) {
          out := VisitPoint(e, t);
          return;
        }
      }
      if !e.ListOf? {
        out := DefaultList(t);
        LiterallyPure(out);
        ClimbsStill(mutLevel, Effect(out), Has(Dropping, e));
      } else {
        out := VisitListItems(e, t);
      }
      ItemsSuffice(e, t, Here(), out);
    }

    method VisitPoint(e: Expr, t: VType) returns (out: OExpr)
      requires Ready(tracker, level) && e.ListOf? && (e.other.EcAddOf? || e.other.EcMulOf?) && PointType(t)
      modifies this`mutLevel, this`opStack, this`raised
      ensures opStack == old(opStack) && mutLevel >= old(mutLevel)
      ensures Climbs(old(mutLevel), mutLevel, Effect(out), Has(Dropping, e))
      ensures Sound(out, t, Scope(tracker), mutLevel, isConstant) && Enclosed(out)
      ensures Mirrors(e, t, Here(), out)
      ensures RaisedOnly(old(raised), raised, Has(Raising, e))
      decreases e, 1
    {
      hide Ready, Sound, SoundArgs, Mirrors, ArgMirrors, NothingFits, Scope, Has, HasOther, Climbs, Effect;
      OtherHas(Raising, e);
      OtherHas(Dropping, e);
      if e.other.EcAddOf? {
        out := VisitEcadd(e.other, t);
      } else {
        out := VisitEcmul(e.other, t);
      }
      ClimbsWith(old(mutLevel), mutLevel, Effect(out), HasOther(Dropping, e.other), Has(Dropping, e));
      PointSuffices(e, t, Here(), out);
    }

    method VisitListItems(e: Expr, t: VType) returns (out: OExpr)
      requires Ready(tracker, level) && IsList(t) && ValidType(t) && e.ListOf?
      modifies this`mutLevel, this`opStack, this`raised
      ensures opStack == old(opStack) && mutLevel >= old(mutLevel)
      ensures Climbs(old(mutLevel), mutLevel, Effect(out), Has(Dropping, e))
      ensures Sound(out, t, Scope(tracker), mutLevel, isConstant) && Enclosed(out)
      ensures out.OApp? && out.f == ListLiteral && ItemsMirror(e, t, Here(), out.args)
      ensures RaisedOnly(old(raised), raised, Has(Raising, e))
      decreases e, 1
    {
      hide Ready, Sound, SoundArgs, Mirrors, RaisesAt, NothingFits, Has, Climbs, EffectOfArgs, Effect;
      ItemsHas(Raising, e);
      ItemsHas(Dropping, e);
      ghost var drops := Has(Dropping, e);
      NoArgs(Scope(tracker), mutLevel, isConstant);
      var args := AppendArg([], e.rexp, t.base);
      ClimbsWith(old(mutLevel), mutLevel, EffectOfArgs(args), Has(Dropping, e.rexp), drops);
      for i := 0 to |e.exps|
        invariant opStack == old(opStack) && mutLevel >= old(mutLevel)
        invariant RaisedOnly(old(raised), raised, Has(Raising, e))
        invariant Climbs(old(mutLevel), mutLevel, EffectOfArgs(args), drops)
        invariant SoundArgs(args, Scope(tracker), mutLevel, isConstant)
        invariant |args| == i + 1 <= t.size && AllAt(args, t.base)
        invariant ArgMirrors(e.rexp, t.base, Here(), args, 0)
        invariant forall j :: 0 <= j < i ==> ArgMirrors(e.exps[j], t.base, Here(), args, j + 1)
      {
        if |args| == MAX_LIST_SIZE || |args| == t.size {
          break;
        }
        ghost var m, before := mutLevel, args;
        args := AppendArg(args, e.exps[i], t.base);
        ArgsClimb(old(mutLevel), m, mutLevel, before, args, drops, Has(Dropping, e.exps[i]), drops);
      }
      out := FinishList(args, t);
      ArgsFilled(args, out.args);
      AppClimbs(old(mutLevel), mutLevel, mutLevel, ListLiteral, out.args, drops);
    }

    /** Fills a fixed list up with random values and writes it. */
    method FinishList(args0: seq<Arg>, t: VType) returns (out: OExpr)
      requires IsList(t) && ValidType(t) && 1 <= |args0| <= t.size && AllAt(args0, t.base)
      requires SoundArgs(args0, Scope(tracker), mutLevel, isConstant)
      ensures Sound(out, t, Scope(tracker), mutLevel, isConstant) && Enclosed(out)
      ensures out.OApp? && out.f == ListLiteral && args0 <= out.args && (t.DynArray? ==> out.args == args0)
      ensures forall i :: |args0| <= i < |out.args| ==> Literally(out.args[i].e)
    {
      hide Sound, SoundArgs;
      var args := args0;
      if !t.DynArray? && |args| < t.size && !t.base.FixedList? {
        while |args| < t.size
          invariant args0 <= args && forall i :: |args0| <= i < |args| ==> Literally(args[i].e)
          invariant 1 <= |args| <= t.size && AllAt(args, t.base)
          invariant SoundArgs(args, Scope(tracker), mutLevel, isConstant)
        {
          var x := GenerateValue(t.base);
          SoundArgsAppend(args, Arg(x, t.base), Scope(tracker), mutLevel, mutLevel, isConstant);
          args := args + [Arg(x, t.base)];
        }
      }
      SoundApp(ListLiteral, args, t, Scope(tracker), mutLevel, isConstant);
      out := OApp(ListLiteral, args);
    }

    /** A random value of a scalar type. */
    method GenerateValue(t: VType) returns (out: OExpr)
      requires ValidScalar(t)
      ensures Sound(out, t, Scope(tracker), mutLevel, isConstant) && Literally(out)
    {
      hide Sound;
      if t.Int? {
        var v: nat := *;
        out := OInt(Generate(t.n, t.signed, v));
        SoundInt(out.v, t, Scope(tracker), mutLevel, isConstant);
        return;
      }
      var text := "";
      if t.Bool? {
        var b: bool := *;
        text := if b then "True" else "False";
      } else if t.BytesM? {
        var bytes: seq<nat> := *;
        text := BytesMLiteral(t.m, bytes);
      } else if t.Decimal? {
        var negative: bool, whole: nat, fraction: nat := *, *, *;
        DecimalIsOk(Digits(whole), Digits(fraction), negative);
        text := (if negative then "-" else "") + Digits(whole) + "." + Digits(fraction);
      } else {
        var value: nat := *;
        text := AddressText(value);
      }
      out := OLit(t, text);
      SoundLit(t, text, Scope(tracker), mutLevel, isConstant);
    }

    /** What an unset list message reads as: one literal, filled up. */
    method DefaultList(t: VType) returns (out: OExpr)
      requires IsList(t) && ValidType(t)
      ensures Sound(out, t, Scope(tracker), mutLevel, isConstant) && Enclosed(out)
      ensures out.OApp? && out.f == ListLiteral && Literally(out)
      decreases t
    {
      hide Sound, SoundArgs;
      var first: OExpr;
      if IsList(t.base) {
        first := DefaultList(t.base);
      } else {
        first := CreateLiteral(t.base, NO_LITERAL);
      }
      NoArgs(Scope(tracker), mutLevel, isConstant);
      SoundArgsAppend([], Arg(first, t.base), Scope(tracker), mutLevel, mutLevel, isConstant);
      assert [] + [Arg(first, t.base)] == [Arg(first, t.base)];
      out := FinishList([Arg(first, t.base)], t);
    }

    method VisitEcadd(m: ListOther, t: VType) returns (out: OExpr)
      requires Ready(tracker, level) && m.EcAddOf? && PointType(t)
      modifies this`mutLevel, this`opStack, this`raised
      ensures opStack == old(opStack) && mutLevel >= old(mutLevel)
      ensures Climbs(old(mutLevel), mutLevel, Effect(out), HasOther(Dropping, m))
      ensures Sound(out, t, Scope(tracker), mutLevel, isConstant) && Enclosed(out)
      ensures out.OApp? && out.f == EcAdd && |out.args| == 2
      ensures ArgMirrors(m.x, POINT, Here(), out.args, 0) && ArgMirrors(m.y, POINT, Here(), out.args, 1)
      ensures RaisedOnly(old(raised), raised, HasOther(Raising, m))
      decreases m, 0
    {
      hide Ready, Sound, SoundArgs, Mirrors, RaisesAt, NothingFits;
      NoArgs(Scope(tracker), mutLevel, isConstant);
      var first := AppendArg([], m.x, FixedList(2, Int(256, false)));
      ghost var m1 := mutLevel;
      var args := AppendArg(first, m.y, FixedList(2, Int(256, false)));
      ArgKept(m.x, POINT, Here(), first, args, 0);
      SoundApp(EcAdd, args, t, Scope(tracker), mutLevel, isConstant);
      ArgsClimb(old(mutLevel), m1, mutLevel, first, args, Has(Dropping, m.x), Has(Dropping, m.y),
                HasOther(Dropping, m));
      AppClimbs(old(mutLevel), mutLevel, mutLevel, EcAdd, args, HasOther(Dropping, m));
      out := OApp(EcAdd, args);
    }

    method VisitEcmul(m: ListOther, t: VType) returns (out: OExpr)
      requires Ready(tracker, level) && m.EcMulOf? && PointType(t)
      modifies this`mutLevel, this`opStack, this`raised
      ensures opStack == old(opStack) && mutLevel >= old(mutLevel)
      ensures Climbs(old(mutLevel), mutLevel, Effect(out), HasOther(Dropping, m))
      ensures Sound(out, t, Scope(tracker), mutLevel, isConstant) && Enclosed(out)
      ensures out.OApp? && out.f == EcMul && |out.args| == 2
      ensures ArgMirrors(m.point, POINT, Here(), out.args, 0) && ArgMirrors(m.scalar, UINT, Here(), out.args, 1)
      ensures RaisedOnly(old(raised), raised, HasOther(Raising, m))
      decreases m, 0
    {
      hide Ready, Sound, SoundArgs, Mirrors, RaisesAt, NothingFits;
      NoArgs(Scope(tracker), mutLevel, isConstant);
      var first := AppendArg([], m.point, FixedList(2, Int(256, false)));
      ghost var m1 := mutLevel;
      var args := AppendArg(first, m.scalar, Int(256, false));
      ArgKept(m.point, POINT, Here(), first, args, 0);
      SoundApp(EcMul, args, t, Scope(tracker), mutLevel, isConstant);
      ArgsClimb(old(mutLevel), m1, mutLevel, first, args, Has(Dropping, m.point), Has(Dropping, m.scalar),
                HasOther(Dropping, m));
      AppClimbs(old(mutLevel), mutLevel, mutLevel, EcMul, args, HasOther(Dropping, m));
      out := OApp(EcMul, args);
    }
    // ----- statements

    /** What the body under construction is checked against: the finished signatures of the functions it may
        call, and its own outputs. */
    ghost function Context(): Ctx
      reads this`callMap, this`currentFunc, this`functionOutput, funcs
    {
      Ctx(Signatures(CallGraph.Callees(callMap, currentFunc), funcs.functions), functionOutput)
    }

    /** The mutability that a block written here needs, captures in larger storage aside. */
    ghost function Needs(out: seq<OStmt>): nat
      reads this`callMap, this`currentFunc, this`functionOutput, funcs
    {
      BlockEffect(out, Context().callable, false)
    }

    /** One more piece of a block, ended at the current level. */
    lemma PieceClimbs(a: nat, b: nat, out: seq<OStmt>, more: seq<OStmt>, drops: bool, later: bool, any: bool)
      requires Climbs(a, b, Needs(out), drops) && Climbs(b, mutLevel, Needs(more), later) && (drops || later ==> any)
      ensures Climbs(a, mutLevel, Needs(out + more), any)
    {
      hide Climbs, Signatures;
      BlocksClimb(a, b, mutLevel, out, more, Context().callable, drops, later, any);
    }

    lemma NeedsIs(out: seq<OStmt>)
      ensures Needs(out) == BlockEffect(out, Context().callable, false)
    {
    }

    ghost function PlaceNow(): Place
      reads this`callMap, this`currentFunc, this`functionOutput, this`forCount, this`level, funcs
    {
      Place(Context(), |funcs.functions|, forCount > 0, level, py)
    }

    ghost predicate Walking()
      reads this`callMap, this`currentFunc, this`functionOutput, this`isConstant, this`level, funcs
    {
      !isConstant && level >= 1 && GoodSignatures(Context().callable) && GoodTypes(functionOutput)
    }

    method VisitTyped(te: TypedExpr, t: VType) returns (out: OExpr)
      requires Ready(tracker, level) && Askable(t)
      modifies this`mutLevel, this`opStack, this`raised
      ensures opStack == old(opStack) && mutLevel >= old(mutLevel)
      ensures Climbs(old(mutLevel), mutLevel, Effect(out), Has(Dropping, FieldFor(te, t)))
      ensures Sound(out, t, Scope(tracker), mutLevel, isConstant)
      ensures TypedMirrors(te, t, Here(), out)
      ensures RaisedAs(old(raised), raised, FieldFor(te, t), t, Here())
    {
      hide Ready, Sound, Mirrors, RaisesAt, NothingFits, RaisedAs, Has;
      out := VisitExpr(FieldFor(te, t), t);
    }

    /** Registers a local variable under a name made from the next number. */
    method RegisterLocal(prefix: Prefix, at: nat, t: VType, mutable: bool) returns (name: Name)
      requires Ready(tracker, at) && at >= 1 && ValidType(t)
      modifies tracker
      ensures Ready(tracker, at) && NamedFor(name, prefix, t)
      ensures Scope(tracker) == old(Scope(tracker)) + {Decl(name, at, t, mutable, 0)}
      ensures FreshName(name, old(Scope(tracker))) && forall d :: d in old(Scope(tracker)) ==> TypeBy(d, name).None?
    {
      hide VarsAgree, ListsAgree, SizedAgree, Numbered;
      var idx := tracker.NextId(t);
      name := Var(prefix, TypeName(t), idx);
      ghost var before := tracker.live;
      assert forall d :: d in before ==> WellPlaced(d, at);
      tracker.RegisterFunctionVariable(name, at, t, mutable, 0);
      ghost var d := Decl(name, at, t, mutable, 0);
      ScopeAppend(before, d);
      FreshStandsForNothing(before, tracker.idMap, tracker.globalIdMap, d);
    }

    /** Leaves the current level: everything declared since `env` was in scope goes. */
    method LeaveLevel(readonlyToo: bool, ghost env: Env)
      requires Ready(tracker, level) && level >= 1
      requires env <= Scope(tracker)
      requires forall d :: d in Scope(tracker) - env ==> d.level == level && (d.mutable || readonlyToo)
      requires forall d :: d in env ==> d.level < level
      modifies tracker, this`level
      ensures level == old(level) - 1 && Ready(tracker, level) && Scope(tracker) == env
    {
      hide VarsAgree, ListsAgree, SizedAgree, Numbered;
      ghost var live := tracker.live;
      tracker.RemoveFunctionLevel(level, true);
      if readonlyToo {
        tracker.RemoveFunctionLevel(level, false);
      }
      level := level - 1;
      assert forall d :: d in tracker.live <==> d in live && d in env;
    }

    method VarDecl(te: TypedExpr, t: VType) returns (out: seq<OStmt>)
      requires Ready(tracker, level) && Walking() && ValidType(t)
      modifies this`mutLevel, this`opStack, this`raised, tracker
      ensures Ready(tracker, level) && opStack == old(opStack) && mutLevel >= old(mutLevel)
      ensures Climbs(old(mutLevel), mutLevel, Needs(out), Has(Dropping, FieldFor(te, t)))
      ensures Wrote(out, Context(), old(Scope(tracker)), Scope(tracker), level, forCount > 0, mutLevel)
      ensures |out| == 1 && out[0].SDecl? && out[0].t == t && TypedMirrors(te, t, old(Here()), out[0].value)
      ensures RaisedAs(old(raised), raised, FieldFor(te, t), t, old(Here()))
    {
      hide Ready, WellTyped, Wrote, Scope, Mirrors, RaisedAs, Here, TypedMirrors;
      var value := VisitTyped(te, t);
      var name := RegisterLocal(Plain, level, t, true);
      out := [SDecl(name, t, value)];
      NeedsIs(out);
      DeclarationClimbs(old(mutLevel), mutLevel, out[0], Context().callable, Has(Dropping, FieldFor(te, t)));
      WroteOne(out[0], Context(), old(Scope(tracker)), Scope(tracker), level, forCount > 0, mutLevel);
    }

    method VisitAssignment(a: Assignment) returns (out: seq<OStmt>)
      requires Ready(tracker, level) && Walking()
      modifies this`mutLevel, this`opStack, this`raised, tracker
      ensures Ready(tracker, level) && opStack == old(opStack) && mutLevel >= old(mutLevel)
      ensures Climbs(old(mutLevel), mutLevel, Needs(out), AssignmentMentions(Dropping, a))
      ensures Wrote(out, Context(), old(Scope(tracker)), Scope(tracker), level, forCount > 0, mutLevel)
      ensures AssignmentMirrors(a, old(Here()), out)
      ensures RaisedBetween(old(raised), raised, AssignmentCertain(py, a), AssignmentMentions(Raising, a), Context())
    {
      hide Ready, WellTyped, Wrote, Readable, Mirrors, RaisesAt, NothingFits, Scope, PairInSigs, Has, HasTyped,
           RaisedAs, RaisedBetween, AssignmentCertain, AssignmentMentions, GoodSignatures, GoodTypes;
      var t := ExtractType(a.refId);
      AssignmentHas(Dropping, a);
      var n := VisitVarRef(t, true);
      ghost var m := mutLevel;
      if n.None? {
        ClimbsToNothing(old(mutLevel), m);
        out := VarDecl(a.value, t);
        ClimbsWith(m, mutLevel, Needs(out), Has(Dropping, FieldFor(a.value, t)), AssignmentMentions(Dropping, a));
        AssignmentRaises(old(raised), raised, a, old(Here()), Context());
        return;
      }
      ghost var declared := WritableAs(tracker, n.value, t);
      var value := VisitTyped(a.value, t);
      AssignmentRaises(old(raised), raised, a, old(Here()), Context());
      out := [SAssign(Target(n.value, t, declared), value)];
      NeedsIs(out);
      AssignmentClimbs(old(mutLevel), m, mutLevel, out[0], Context().callable, Has(Dropping, FieldFor(a.value, t)),
                       AssignmentMentions(Dropping, a));
      WroteOne(out[0], Context(), Scope(tracker), Scope(tracker), level, forCount > 0, mutLevel);
    }

    /** One statement built from visited arguments. */
    method WriteAction(a: Action, args: seq<Arg>) returns (out: seq<OStmt>)
      requires Walking() && SoundArgs(args, Scope(tracker), mutLevel, false) && ActionEffect(a) <= mutLevel
      ensures Wrote(out, Context(), Scope(tracker), Scope(tracker), level, forCount > 0, mutLevel)
      ensures out == [SAct(a, args)]
    {
      hide SoundArgs, Wrote;
      SoundArgsOk(args, Scope(tracker), mutLevel, false);
      out := [SAct(a, args)];
      WroteOne(out[0], Context(), Scope(tracker), Scope(tracker), level, forCount > 0, mutLevel);
    }

    method VisitAssertStmt(cond: Expr, reason: Expr) returns (out: seq<OStmt>)
      requires Ready(tracker, level) && Walking()
      modifies this`mutLevel, this`opStack, this`raised
      ensures opStack == old(opStack) && mutLevel >= old(mutLevel)
      ensures Climbs(old(mutLevel), mutLevel, Needs(out), Has(Dropping, cond) || Has(Dropping, reason))
      ensures Wrote(out, Context(), Scope(tracker), Scope(tracker), level, forCount > 0, mutLevel)
      ensures ActionIs(Assert, out) && ArgMirrors(cond, Bool, Here(), out[0].args, 0) &&
              MessageMirrors(reason, Here(), out[0].args, 1)
      ensures RaisedOnly(old(raised), raised, Has(Raising, cond) || Has(Raising, reason))
    {
      hide Ready, SoundArgs, Sound, Wrote, Mirrors, ArgMirrors, MessageMirrors, Has;
      NoArgs(Scope(tracker), mutLevel, false);
      ghost var drops := Has(Dropping, cond) || Has(Dropping, reason);
      var condition := AppendArg([], cond, Bool);
      ghost var m := mutLevel;
      var args := AppendMessage(condition, reason);
      ArgsClimb(old(mutLevel), m, mutLevel, condition, args, Has(Dropping, cond), Has(Dropping, reason), drops);
      ActionClimbs(old(mutLevel), old(mutLevel), mutLevel, Assert, args, Context().callable, drops);
      NeedsIs([SAct(Assert, args)]);
      ArgKept(cond, Bool, Here(), condition, args, 0);
      out := WriteAction(Assert, args);
    }

    /** Visits an error message and appends it unless it is the empty literal. */
    method AppendMessage(args: seq<Arg>, e: Expr) returns (r: seq<Arg>)
      requires Ready(tracker, level) && SoundArgs(args, Scope(tracker), mutLevel, isConstant)
      modifies this`mutLevel, this`opStack, this`raised
      ensures opStack == old(opStack) && mutLevel >= old(mutLevel)
      ensures Climbs(old(mutLevel), mutLevel, EffectOfArgs(r), Has(Dropping, e))
      ensures SoundArgs(r, Scope(tracker), mutLevel, isConstant)
      ensures args <= r && MessageMirrors(e, Here(), r, |args|)
      ensures RaisedOnly(old(raised), raised, Has(Raising, e))
    {
      hide Ready, Sound, SoundArgs, Mirrors, Has;
      ghost var m := mutLevel;
      var all := AppendArg(args, e, Str(100));
      SoundArgsLater(args, Scope(tracker), m, mutLevel, isConstant);
      var message := all[|args|].e;
      LiteralType(all, |args|, Scope(tracker), mutLevel, isConstant);
      assert all == args + [all[|args|]];
      ArgsAppend(args, all[|args|]);
      r := if message.OLit? && message.text == "" then args else all;
    }

    method VisitSendStmt(to: Expr, amount: Expr, gas: Option<Expr>) returns (out: seq<OStmt>)
      requires Ready(tracker, level) && Walking()
      modifies this`mutLevel, this`opStack, this`raised
      ensures opStack == old(opStack) && mutLevel >= old(mutLevel)
      ensures Climbs(old(mutLevel), mutLevel, Needs(out), Has(Dropping, to) || Has(Dropping, amount) ||
                     HasOption(Dropping, gas))
      ensures Wrote(out, Context(), Scope(tracker), Scope(tracker), level, forCount > 0, mutLevel)
      ensures ActionIs(Send, out) && |out[0].args| == 2 + Given(gas) && ArgMirrors(to, Address, Here(), out[0].args, 0)
      ensures ArgMirrors(amount, UINT, Here(), out[0].args, 1) && OptionMirrors(gas, UINT, Here(), out[0].args, 2)
      ensures RaisedOnly(old(raised), raised, Has(Raising, to) || Has(Raising, amount) || HasOption(Raising, gas))
    {
      hide Ready, SoundArgs, Wrote, ArgMirrors, OptionMirrors, Has, HasOption, RaisedOnly, Climbs, EffectOfArgs, Effect,
           Given, Scope, GoodSignatures, GoodTypes;
      RequireNonPayable();
      ghost var m := mutLevel;
      var args := VisitSendArgs(to, amount, gas);
      out := WriteAction(Send, args);
      ActionClimbs(old(mutLevel), m, mutLevel, Send, args, Context().callable,
                   Has(Dropping, to) || Has(Dropping, amount) || HasOption(Dropping, gas));
      NeedsIs(out);
    }

    method VisitSendArgs(to: Expr, amount: Expr, gas: Option<Expr>) returns (args: seq<Arg>)
      requires Ready(tracker, level) && Walking()
      modifies this`mutLevel, this`opStack, this`raised
      ensures opStack == old(opStack) && mutLevel >= old(mutLevel)
      ensures Climbs(old(mutLevel), mutLevel, EffectOfArgs(args), Has(Dropping, to) || Has(Dropping, amount) ||
                     HasOption(Dropping, gas))
      ensures SoundArgs(args, Scope(tracker), mutLevel, false)
      ensures |args| == 2 + Given(gas) && ArgMirrors(to, Address, Here(), args, 0)
      ensures ArgMirrors(amount, UINT, Here(), args, 1) && OptionMirrors(gas, UINT, Here(), args, 2)
      ensures RaisedOnly(old(raised), raised, Has(Raising, to) || Has(Raising, amount) || HasOption(Raising, gas))
    {
      hide Ready, SoundArgs, Sound, Mirrors, ArgMirrors, OptionMirrors, Has, HasOption, Climbs, EffectOfArgs, Effect,
           Scope, GoodSignatures, GoodTypes, RaisedOnly;
      NoArgs(Scope(tracker), mutLevel, false);
      ghost var may := Has(Raising, to) || Has(Raising, amount) || HasOption(Raising, gas);
      var target := AppendArg([], to, Address);
      ghost var m1, was := mutLevel, raised;
      var value := AppendArg(target, amount, UINT);
      ghost var m2, middle := mutLevel, raised;
      args := AppendOptional(value, gas, UINT);
      RaisedOn(old(raised), was, middle, Has(Raising, to), Has(Raising, amount), may);
      RaisedOn(old(raised), middle, raised, may, HasOption(Raising, gas), may);
      ArgKept(to, Address, Here(), target, args, 0);
      ArgKept(amount, UINT, Here(), value, args, 1);
      ghost var drops := Has(Dropping, to) || Has(Dropping, amount) || HasOption(Dropping, gas);
      ArgsClimb(old(mutLevel), m1, m2, target, value, Has(Dropping, to), Has(Dropping, amount), drops);
      ArgsClimb(old(mutLevel), m2, mutLevel, value, args, drops, HasOption(Dropping, gas), drops);
    }

    method VisitRawLog(topics: Expr, topicAmount: nat, dataBs: Option<Expr>, dataBm: Expr) returns (out: seq<OStmt>)
      requires Ready(tracker, level) && Walking()
      modifies this`mutLevel, this`opStack, this`raised
      ensures opStack == old(opStack) && mutLevel >= old(mutLevel)
      ensures Climbs(old(mutLevel), mutLevel, Needs(out), Has(Dropping, topics) || HasOption(Dropping, dataBs) ||
                     Has(Dropping, dataBm))
      ensures Wrote(out, Context(), Scope(tracker), Scope(tracker), level, forCount > 0, mutLevel)
      ensures ActionIs(RawLog, out) && |out[0].args| == 2
      ensures ArgMirrors(topics, FixedList((topicAmount - 1) % 4 + 1, BytesM(32)), Here(), out[0].args, 0)
      ensures if dataBs.Some? then ArgMirrors(dataBs.value, Bytes(100), Here(), out[0].args, 1)
              else ArgMirrors(dataBm, BytesM(32), Here(), out[0].args, 1)
      ensures RaisedOnly(old(raised), raised, Has(Raising, topics) || HasOption(Raising, dataBs) ||
                         Has(Raising, dataBm))
    {
      hide Ready, SoundArgs, Wrote, ArgMirrors, Has, HasOption, RaisedOnly, Climbs, EffectOfArgs, Effect, Scope,
           GoodSignatures, GoodTypes;
      RequireNonPayable();
      ghost var m := mutLevel;
      var args := VisitLogArgs(topics, FixedList((topicAmount - 1) % 4 + 1, BytesM(32)), dataBs, dataBm);
      out := WriteAction(RawLog, args);
      ActionClimbs(old(mutLevel), m, mutLevel, RawLog, args, Context().callable,
                   Has(Dropping, topics) || HasOption(Dropping, dataBs) || Has(Dropping, dataBm));
      NeedsIs(out);
    }

    method VisitLogArgs(topics: Expr, listed: VType, dataBs: Option<Expr>, dataBm: Expr) returns (args: seq<Arg>)
      requires Ready(tracker, level) && Walking() && Askable(listed) && !IsPair(listed)
      modifies this`mutLevel, this`opStack, this`raised
      ensures opStack == old(opStack) && mutLevel >= old(mutLevel)
      ensures Climbs(old(mutLevel), mutLevel, EffectOfArgs(args),
                     Has(Dropping, topics) || HasOption(Dropping, dataBs) || Has(Dropping, dataBm))
      ensures SoundArgs(args, Scope(tracker), mutLevel, false)
      ensures |args| == 2 && ArgMirrors(topics, listed, Here(), args, 0)
      ensures if dataBs.Some? then ArgMirrors(dataBs.value, Bytes(100), Here(), args, 1)
              else ArgMirrors(dataBm, BytesM(32), Here(), args, 1)
      ensures RaisedOnly(old(raised), raised, Has(Raising, topics) || HasOption(Raising, dataBs) ||
                         Has(Raising, dataBm))
    {
      hide Ready, SoundArgs, Sound, Mirrors, ArgMirrors, Has, Climbs, EffectOfArgs, Effect, Scope, GoodSignatures,
           GoodTypes;
      ghost var drops := Has(Dropping, topics) || HasOption(Dropping, dataBs) || Has(Dropping, dataBm);
      NoArgs(Scope(tracker), mutLevel, false);
      var first := AppendArg([], topics, listed);
      ghost var m := mutLevel;
      if dataBs.Some? {
        args := AppendArg(first, dataBs.value, Bytes(100));
        ArgsClimb(old(mutLevel), m, mutLevel, first, args, Has(Dropping, topics), Has(Dropping, dataBs.value), drops);
      } else {
        args := AppendArg(first, dataBm, BytesM(32));
        ArgsClimb(old(mutLevel), m, mutLevel, first, args, Has(Dropping, topics), Has(Dropping, dataBm), drops);
      }
      ArgKept(topics, listed, Here(), first, args, 0);
    }

    /** append and pop work on a dynamic array of any base type. */
    method PickDynArray() returns (r: Option<(Name, VType)>)
      requires Ready(tracker, level) && Walking()
      modifies this`mutLevel
      ensures mutLevel >= old(mutLevel)
      ensures Climbs(old(mutLevel), mutLevel, if r.Some? then AccessEffect(r.value.0, true) else PURE, false)
      ensures r.Some? ==>
                && (exists d :: d in Scope(tracker) && d.mutable && d.name == r.value.0 && d.t.DynArray? &&
                      d.t.base == r.value.1 && d.t.size <= MAX_LIST_SIZE)
                && Askable(r.value.1)
                && (IsStorage(r.value.0) ==> mutLevel >= NON_PAYABLE)
      ensures r.None? ==> NothingFits(ANY_ARRAY, Scope(tracker), true)
      ensures r.Some? ==> !NothingFits(ANY_ARRAY, Scope(tracker), true) && !IsPair(r.value.1)
    {
      hide Ready, NothingFits, Offers, Askable;
      var any := ANY_ARRAY;
      var n := VisitVarRef(any, true);
      if n.None? {
        return None;
      }
      ReadyIsValid(tracker, level);
      var base := tracker.GetDynArrayBaseType(n.value, true);
      PickedArray(tracker, level, n.value, base);
      return Some((n.value, base.value));
    }

    method VisitAppendStmt(item: TypedExpr) returns (r: Option<seq<OStmt>>)
      requires Ready(tracker, level) && Walking()
      modifies this`mutLevel, this`opStack, this`raised
      ensures opStack == old(opStack) && mutLevel >= old(mutLevel)
      ensures r.Some? ==> Climbs(old(mutLevel), mutLevel, Needs(r.value), HasTyped(Dropping, item))
      ensures r.None? ==> mutLevel == old(mutLevel)
      ensures r.Some? ==> Wrote(r.value, Context(), Scope(tracker), Scope(tracker), level, forCount > 0, mutLevel)
      ensures r.Some? ==> |r.value| == 1 && r.value[0].SAppend?
      ensures r.Some? ==> TypedMirrors(item, r.value[0].item, Here(), r.value[0].value)
      ensures r.None? ==> NothingFits(ANY_ARRAY, Scope(tracker), true)
      ensures RaisedOnly(old(raised), raised, HasTyped(Raising, item))
      ensures r.Some? ==> !NothingFits(ANY_ARRAY, Scope(tracker), true)
      ensures r.None? ==> raised == old(raised)
    {
      hide Ready, Wrote, WellTyped, Scope, Readable, Mirrors, NothingFits, Signatures, GoodSignatures, GoodTypes,
           Effect, Here, TypedMirrors, Has, HasTyped, RaisedAs, TargetOk, StmtOk, StmtEffect;
      var picked := PickDynArray();
      ghost var m := mutLevel;
      if picked.None? {
        ClimbsToNothing(old(mutLevel), m);
        return None;
      }
      var (n, base) := picked.value;
      ghost var d :| d in Scope(tracker) && d.mutable && d.name == n && d.t.DynArray? && d.t.base == base &&
                     d.t.size <= MAX_LIST_SIZE;
      var value := VisitTyped(item, base);
      var out := [SAppend(Target(n, ANY_ARRAY, d.t), base, value)];
      FieldDrops(item, base);
      NeedsIs(out);
      AssignmentClimbs(old(mutLevel), m, mutLevel, out[0], Context().callable, Has(Dropping, FieldFor(item, base)),
                       HasTyped(Dropping, item));
      AppendOk(d, base, value, Context(), Scope(tracker), level, forCount > 0, mutLevel);
      AppendRaises(old(raised), raised, item, base, old(Here()));
      WroteOne(out[0], Context(), Scope(tracker), Scope(tracker), level, forCount > 0, mutLevel);
      return Some(out);
    }

    method VisitPopStmt() returns (r: Option<seq<OStmt>>)
      requires Ready(tracker, level) && Walking()
      modifies this`mutLevel
      ensures mutLevel >= old(mutLevel)
      ensures r.Some? ==> Climbs(old(mutLevel), mutLevel, Needs(r.value), false)
      ensures r.None? ==> mutLevel == old(mutLevel)
      ensures r.Some? ==> Wrote(r.value, Context(), Scope(tracker), Scope(tracker), level, forCount > 0, mutLevel)
      ensures r.Some? ==> |r.value| == 1 && r.value[0].SPop?
      ensures r.None? ==> NothingFits(ANY_ARRAY, Scope(tracker), true)
      ensures r.Some? ==> !NothingFits(ANY_ARRAY, Scope(tracker), true)
    {
      hide Ready, Wrote, Scope, NothingFits;
      var picked := PickDynArray();
      if picked.None? {
        ClimbsToNothing(old(mutLevel), mutLevel);
        return None;
      }
      var (n, base) := picked.value;
      ghost var d :| d in Scope(tracker) && d.mutable && d.name == n && d.t.DynArray? && d.t.base == base &&
                     d.t.size <= MAX_LIST_SIZE;
      var any := ANY_ARRAY;
      var out := [SPop(Target(n, any, d.t))];
      NeedsIs(out);
      OneStatement(out[0], Context().callable);
      assert Offers(d, n, any, false);
      WroteOne(out[0], Context(), Scope(tracker), Scope(tracker), level, forCount > 0, mutLevel);
      return Some(out);
    }
    // ----- calls

    /** Chooses or declares a variable for one output of a call. Any variable large enough will do, unless it
        already receives an earlier output. */
    method ChooseTarget(t: VType, taken: seq<Name>) returns (x: Target, decls: seq<OStmt>)
      requires Ready(tracker, level) && Walking() && ValidType(t) && AllDenote(taken, Scope(tracker))
      modifies this`mutLevel, tracker
      ensures Ready(tracker, level) && mutLevel >= old(mutLevel)
      ensures Climbs(old(mutLevel), mutLevel, if Oversized(x) then PURE else WriteEffect(x), false)
      ensures Wrote(decls, Context(), old(Scope(tracker)), Scope(tracker), level, forCount > 0, mutLevel)
      ensures x.wanted == t && x.name !in taken && TargetOk(x, Scope(tracker), true)
      ensures !Oversized(x) ==> WriteEffect(x) <= mutLevel
      ensures old(Scope(tracker)) <= Scope(tracker)
      ensures forall i :: 0 <= i < |decls| ==> decls[i].SDeclEmpty? && decls[i].name == x.name
      ensures decls != [] ==> NoneFree(t, taken, old(Scope(tracker)), Scope(tracker))
    {
      hide Ready, Wrote, TargetOk, AllDenote, Holds;
      var picked := PickCapture(t, taken);
      if picked.Some? {
        x := picked.value;
        decls := [];
        WroteNothing(Context(), Scope(tracker), level, forCount > 0, mutLevel);
      } else {
        ghost var before := Scope(tracker);
        var n := RegisterLocal(Plain, level, t, true);
        x := Target(n, t, t);
        FreshTarget(Decl(n, level, t, true, 0), taken, before, Scope(tracker));
        decls := [SDeclEmpty(n, t)];
        NoneFreeLater(t, taken, before, before, Scope(tracker));
        WroteOne(decls[0], Context(), before, Scope(tracker), level, forCount > 0, mutLevel);
      }
    }

    /** A variable to receive a call result, if a free one can be found. Storage counts as a write only when it
        is among the globals looked up for the result's own type. */
    method PickCapture(t: VType, taken: seq<Name>) returns (r: Option<Target>)
      requires Ready(tracker, level) && Walking() && ValidType(t)
      modifies this`mutLevel
      ensures mutLevel >= old(mutLevel)
      ensures Climbs(old(mutLevel), mutLevel, if r.None? || Oversized(r.value) then PURE else WriteEffect(r.value),
                     false)
      ensures r.Some? ==>
                && r.value.wanted == t && r.value.name !in taken && TargetOk(r.value, Scope(tracker), true)
                && (!Oversized(r.value) ==> WriteEffect(r.value) <= mutLevel)
      ensures r.None? ==> NoneFree(t, taken, Scope(tracker), Scope(tracker))
    {
      hide VarsAgree, ListsAgree, SizedAgree, OnlyKinds, Numbered, Visible, Offers, TypeBy;
      var allowed := tracker.GetMutableVariables(level, t, true);
      if |allowed| == 0 {
        NothingToCapture(tracker, level, t);
        return None;
      }
      var n := RandomChoice(allowed);
      if n in taken {
        InLookup(allowed, tracker.live, level, t, true, true, n);
        ScopeHolds(tracker, level, n, t);
        return None;
      }
      var globals := tracker.GetGlobalVars(t);
      if n in globals && mutLevel < NON_PAYABLE {
        mutLevel := NON_PAYABLE;
      }
      InLookup(allowed, tracker.live, level, t, true, true, n);
      InLookup(globals, tracker.live, 0, t, true, false, n);
      ghost var d :| d in tracker.live && InReach(d, level, true) && Offers(d, n, t, true);
      assert WellPlaced(d, level) && d in Scope(tracker);
      if n in globals { NoticedIsCapture(tracker, level, d, n, t); }
      OfferedStorage(d, n, t, true);
      if IsStorage(n) && TypeBy(d, n) == Some(t) { CaptureIsNoticed(d, n, t); }
      OfferedType(d, n, t, true);
      return Some(Target(n, t, TypeBy(d, n).value));
    }

    /** One distinct variable for every output of a call, found or declared. */
    method ChooseTargets(outputs: seq<VType>) returns (xs: seq<Target>, out: seq<OStmt>)
      requires Ready(tracker, level) && Walking() && GoodTypes(outputs)
      modifies this`mutLevel, tracker
      ensures Ready(tracker, level) && mutLevel >= old(mutLevel)
      ensures Climbs(old(mutLevel), mutLevel, WritesOf(xs, false), false)
      ensures Wrote(out, Context(), old(Scope(tracker)), Scope(tracker), level, forCount > 0, mutLevel)
      ensures |xs| == |outputs| && forall i :: 0 <= i < |xs| ==> xs[i].wanted == outputs[i]
      ensures DistinctTargets(xs) && WritesOf(xs, false) <= mutLevel
      ensures forall i :: 0 <= i < |xs| ==> TargetOk(xs[i], Scope(tracker), true)
      ensures forall i :: 0 <= i < |out| ==> out[i].SDeclEmpty?
      ensures DeclaredForNeed(out, xs, outputs, old(Scope(tracker)), Scope(tracker))
    {
      hide Ready, Wrote, TargetOk, Scope, WritesOf, Oversized, AllDenote, ValidType, DeclaredForNeed, NoneFree;
      xs := [];
      var outputVars: seq<Name> := [];
      out := [];
      WroteNothing(Context(), Scope(tracker), level, forCount > 0, mutLevel);
      NoTargets();
      NoNames(Scope(tracker));
      NothingNeeded(outputs[..0], Scope(tracker));
      for i := 0 to |outputs|
        invariant Ready(tracker, level) && mutLevel >= old(mutLevel)
        invariant Wrote(out, Context(), old(Scope(tracker)), Scope(tracker), level, forCount > 0, mutLevel)
        invariant |xs| == |outputVars| == i && AllDenote(outputVars, Scope(tracker))
        invariant forall j :: 0 <= j < i ==> xs[j].name == outputVars[j] && xs[j].wanted == outputs[j]
        invariant DistinctTargets(xs) && WritesOf(xs, false) <= mutLevel
        invariant Climbs(old(mutLevel), mutLevel, WritesOf(xs, false), false)
        invariant forall j :: 0 <= j < i ==> TargetOk(xs[j], Scope(tracker), true)
        invariant old(Scope(tracker)) <= Scope(tracker)
        invariant forall j :: 0 <= j < |out| ==> out[j].SDeclEmpty? && out[j].name in outputVars
        invariant DeclaredForNeed(out, xs, outputs[..i], old(Scope(tracker)), Scope(tracker))
      {
        ghost var m, middle := mutLevel, Scope(tracker);
        var x, decls := ChooseTarget(outputs[i], outputVars);
        assert outputVars == NamesOfTargets(xs);
        OneMoreTarget(out, decls, xs, x, outputs, i, old(Scope(tracker)), middle, Scope(tracker));
        TargetsInLarger(xs, middle, Scope(tracker), true);
        DenoteMore(outputVars, x, middle, Scope(tracker));
        WritesAppend(xs, x, m, mutLevel);
        TargetsClimb(old(mutLevel), m, mutLevel, xs, x);
        WroteBoth(out, decls, Context(), old(Scope(tracker)), middle, Scope(tracker), level, forCount > 0, m, mutLevel);
        out := out + decls;
        xs := xs + [x];
        outputVars := outputVars + [x.name];
      }
      assert outputs[..|outputs|] == outputs;
    }

    /** A call of a finished function: results into distinct variables, one argument per parameter. */
    method VisitFuncCall(f: nat, params: Payload) returns (out: seq<OStmt>)
      requires Ready(tracker, level) && Walking() && f in Context().callable
      modifies this`mutLevel, this`opStack, this`raised, tracker
      ensures Ready(tracker, level) && opStack == old(opStack) && mutLevel >= old(mutLevel)
      ensures Climbs(old(mutLevel), mutLevel, Needs(out), HasPayload(Dropping, params))
      ensures Wrote(out, Context(), old(Scope(tracker)), Scope(tracker), level, forCount > 0, mutLevel)
      ensures CallMirrors(py, f, params, Context().callable[f], old(Scope(tracker)), level, out)
      ensures RaisedBetween(old(raised), raised, false, HasPayload(Raising, params), Context())
    {
      hide Ready, Wrote, TargetOk, SoundArgs, Sound, Scope, WritesOf, PayloadMirrors, CallMirrors, DistinctTargets,
           GoodTypes, AnyPair, RaisedBetween, Oversized, Has, Climbs, EffectOfArgs, Effect, HasPayload,
           DeclaredForNeed;
      var func := funcs.functions[f];
      if mutLevel < func.mutability {
        mutLevel := func.mutability;
      }
      ghost var called := mutLevel;
      var xs;
      xs, out := ChooseTargets(func.outputs);
      ghost var m := mutLevel;
      ghost var was := raised;
      var args := VisitArguments(func.inputs, params);
      ArgumentsRaise(was, raised, HasPayload(Raising, params), Context(), f);
      SoundArgsOk(args, Scope(tracker), mutLevel, false);
      var call := SCall(f, xs, args);
      NeedsIs(out + [call]);
      CallClimbs(old(mutLevel), called, m, mutLevel, out, call, Context().callable, HasPayload(Dropping, params));
      CallOk(call, Context(), Scope(tracker), level, forCount > 0, mutLevel);
      WroteEnv(out, Context(), old(Scope(tracker)), Scope(tracker), level, forCount > 0, m);
      CallIs(py, f, params, Context().callable[f], old(Scope(tracker)), level, out, call);
      WroteSnoc(out, call, Context(), old(Scope(tracker)), Scope(tracker), Scope(tracker), level, forCount > 0, m,
                mutLevel);
      out := out + [call];
    }

    /** One argument per parameter, each visited at the declared type. */
    method VisitArguments(types: seq<VType>, params: Payload) returns (args: seq<Arg>)
      requires Ready(tracker, level) && Walking() && GoodTypes(types)
      modifies this`mutLevel, this`opStack, this`raised
      ensures opStack == old(opStack) && mutLevel >= old(mutLevel)
      ensures Climbs(old(mutLevel), mutLevel, EffectOfArgs(args), HasPayload(Dropping, params))
      ensures SoundArgs(args, Scope(tracker), mutLevel, false)
      ensures |args| == |types| && forall i :: 0 <= i < |args| ==> args[i].at == types[i]
      ensures PayloadMirrors(params, types, Here(), Expressions(args))
      ensures (old(raised) ==> raised) && (raised ==> old(raised) || HasPayload(Raising, params) || AnyPair(types))
    {
      hide Ready, Sound, SoundArgs, ValidType, Mirrors, RaisesAt, NothingFits, Here, Climbs, EffectOfArgs, Effect;
      args := [];
      NoArgs(Scope(tracker), mutLevel, false);
      ClimbsStill(mutLevel, EffectOfArgs(args), HasPayload(Dropping, params));
      for i := 0 to |types|
        invariant opStack == old(opStack) && mutLevel >= old(mutLevel)
        invariant (old(raised) ==> raised) && (raised ==> old(raised) || HasPayload(Raising, params) || AnyPair(types))
        invariant Climbs(old(mutLevel), mutLevel, EffectOfArgs(args), HasPayload(Dropping, params))
        invariant SoundArgs(args, Scope(tracker), mutLevel, false)
        invariant |args| == i && forall j :: 0 <= j < i ==> args[j].at == types[j]
        invariant forall j :: 0 <= j < i ==> TypedMirrors(Values(params)[j], types[j], Here(), args[j].e)
      {
        ghost var m := mutLevel;
        var x := VisitTyped(Values(params)[i], types[i]);
        SoundArgsAppend(args, Arg(x, types[i]), Scope(tracker), m, mutLevel, false);
        PayloadDrops(params, i, types[i]);
        PartClimbs(old(mutLevel), m, mutLevel, args, Arg(x, types[i]), HasPayload(Dropping, params),
                   Has(Dropping, FieldFor(Values(params)[i], types[i])), HasPayload(Dropping, params));
        args := args + [Arg(x, types[i])];
      }
    }

    /** A return statement carries exactly the declared outputs. */
    method VisitReturnPayload(payload: Payload) returns (out: seq<OStmt>)
      requires Ready(tracker, level) && Walking()
      modifies this`mutLevel, this`opStack, this`raised
      ensures opStack == old(opStack) && mutLevel >= old(mutLevel)
      ensures Climbs(old(mutLevel), mutLevel, Needs(out), HasPayload(Dropping, payload))
      ensures Wrote(out, Context(), Scope(tracker), Scope(tracker), level, forCount > 0, mutLevel)
      ensures |out| == 1 && out[0].SReturn? && PayloadMirrors(payload, functionOutput, Here(), out[0].values)
      ensures RaisedBetween(old(raised), raised, false, HasPayload(Raising, payload), Context())
    {
      hide Ready, Sound, SoundArgs, Wrote, WellTyped, Mirrors, PayloadMirrors, Here, Has;
      var args := VisitArguments(functionOutput, payload);
      var values := Expressions(args);
      ReturnOk(args, Context(), Scope(tracker), level, forCount > 0, mutLevel);
      out := [SReturn(values)];
      NeedsIs(out);
      OneStatement(out[0], Context().callable);
      ExpressionsEffect(args);
      WroteOne(out[0], Context(), Scope(tracker), Scope(tracker), level, forCount > 0, mutLevel);
    }

    method VisitExitStatement(exit: ExitStmt, forceReturn: bool) returns (out: seq<OStmt>)
      requires Ready(tracker, level) && Walking()
      modifies this`mutLevel, this`opStack, this`raised
      ensures opStack == old(opStack) && mutLevel >= old(mutLevel)
      ensures Climbs(old(mutLevel), mutLevel, Needs(out), ExitMentions(Dropping, exit))
      ensures Wrote(out, Context(), Scope(tracker), Scope(tracker), level, forCount > 0, mutLevel)
      ensures ExitMirrors(exit, forceReturn, functionOutput, Here(), out)
      ensures RaisedBetween(old(raised), raised, false, ExitMentions(Raising, exit), Context())
    {
      hide Ready, Wrote, PayloadMirrors, ArgMirrors, Signatures, Scope, Here, PairInSigs, HasPayload, Climbs, Has,
           GoodSignatures, GoodTypes;
      ghost var drops := ExitMentions(Dropping, exit);
      if exit.kind.PlainExit? {
        if |functionOutput| > 0 || exit.flag || forceReturn {
          out := VisitReturnPayload(exit.payload);
          ClimbsWith(old(mutLevel), mutLevel, Needs(out), HasPayload(Dropping, exit.payload), drops);
        } else {
          out := [SBlank];
          ClimbsStill(mutLevel, Needs(out), drops);
          WroteOne(SBlank, Context(), Scope(tracker), Scope(tracker), level, forCount > 0, mutLevel);
        }
      } else {
        out := VisitActionExit(exit.kind);
        ClimbsWith(old(mutLevel), mutLevel, Needs(out), KindMentions(Dropping, exit.kind), drops);
      }
    }

    /** An exit by an action: nothing is returned. */
    method VisitActionExit(kind: ExitKind) returns (out: seq<OStmt>)
      requires Ready(tracker, level) && Walking() && !kind.PlainExit?
      modifies this`mutLevel, this`opStack, this`raised
      ensures opStack == old(opStack) && mutLevel >= old(mutLevel)
      ensures Climbs(old(mutLevel), mutLevel, Needs(out), KindMentions(Dropping, kind))
      ensures Wrote(out, Context(), Scope(tracker), Scope(tracker), level, forCount > 0, mutLevel)
      ensures ActionExitMirrors(kind, Here(), out)
      ensures RaisedOnly(old(raised), raised, KindMentions(Raising, kind))
    {
      hide Ready, SoundArgs, Wrote, Mirrors, ArgMirrors, Signatures, Scope, Here, Has, Climbs, EffectOfArgs, Effect,
           GoodSignatures, GoodTypes;
      ghost var drops := KindMentions(Dropping, kind);
      NoArgs(Scope(tracker), mutLevel, false);
      match kind {
        case SelfdExit(to) =>
          RequireNonPayable();
          ghost var m := mutLevel;
          NoArgs(Scope(tracker), mutLevel, false);
          var args := AppendArg([], to, Address);
          out := WriteAction(SelfDestruct, args);
          ActionClimbs(old(mutLevel), m, mutLevel, SelfDestruct, args, Context().callable, drops);
        case RaiseExit(errval) =>
          var args := AppendMessage([], errval);
          out := WriteAction(Raise, args);
          ActionClimbs(old(mutLevel), old(mutLevel), mutLevel, Raise, args, Context().callable, drops);
        case RevertExit(data) =>
          var args := AppendArg([], data, Bytes(100));
          out := WriteAction(RawRevert, args);
          ActionClimbs(old(mutLevel), old(mutLevel), mutLevel, RawRevert, args, Context().callable, drops);
      }
      NeedsIs(out);
    }

    // ----- blocks

    /** The statements of a block, then its exit where one is due. */
    method VisitBlock(block: Block) returns (out: seq<OStmt>)
      requires Ready(tracker, level) && Walking()
      modifies this`mutLevel, this`opStack, this`raised, this`level, this`forCount, tracker
      ensures level == old(level) && forCount == old(forCount)
      ensures Ready(tracker, level) && opStack == old(opStack) && mutLevel >= old(mutLevel)
      ensures Climbs(old(mutLevel), mutLevel, Needs(out), BlockMentions(Dropping, block))
      ensures Wrote(out, Context(), old(Scope(tracker)), Scope(tracker), level, forCount > 0, mutLevel)
      ensures BlockMirrors(block, PlaceNow(), old(Scope(tracker)), out)
      ensures RaisedBetween(old(raised), raised, BlockCertain(py, block), BlockMentions(Raising, block), Context())
      decreases block, 3
    {
      hide Ready, Wrote, Scope, BlockMirrors, GroupsMirror, StmtMirrors, ExitMirrors, StmtMentions, StmtCertain,
           PairInSigs, Signatures, ExitMentions, GoodSignatures, GoodTypes, Climbs, EffectOfArgs, Effect, Needs;
      out := VisitStatements(block);
      WroteEnv(out, Context(), old(Scope(tracker)), Scope(tracker), level, forCount > 0, mutLevel);
      if level == 1 || block.exit.flag || |block.statements| == 0 {
        ghost var m := mutLevel;
        var more := VisitExitStatement(block.exit, |block.statements| == 0);
        WroteBoth(out, more, Context(), old(Scope(tracker)), Scope(tracker), Scope(tracker), level, forCount > 0, m,
                  mutLevel);
        BlockExits(block, PlaceNow(), old(Scope(tracker)), out, more, Here());
        PieceClimbs(old(mutLevel), m, out, more, BlockMentions(Dropping, block), ExitMentions(Dropping, block.exit),
                    BlockMentions(Dropping, block));
        out := out + more;
      } else {
        BlockIs(block, PlaceNow(), old(Scope(tracker)), out, []);
        assert out + [] == out;
      }
    }

    method VisitStatements(block: Block) returns (out: seq<OStmt>)
      requires Ready(tracker, level) && Walking()
      modifies this`mutLevel, this`opStack, this`raised, this`level, this`forCount, tracker
      ensures level == old(level) && forCount == old(forCount)
      ensures Ready(tracker, level) && opStack == old(opStack) && mutLevel >= old(mutLevel)
      ensures Climbs(old(mutLevel), mutLevel, Needs(out), BlockMentions(Dropping, block))
      ensures Wrote(out, Context(), old(Scope(tracker)), Scope(tracker), level, forCount > 0, mutLevel)
      ensures GroupsMirror(block.statements, PlaceNow(), old(Scope(tracker)), out)
      ensures RaisedBetween(old(raised), raised, BlockCertain(py, block), BlockMentions(Raising, block), Context())
      decreases block, 2
    {
      hide Ready, Wrote, Scope, GroupsMirror, StmtMirrors, StmtMentions, StmtCertain, PairInSigs, Signatures,
           ExitMentions, GoodSignatures, GoodTypes, Climbs, Effect, Needs;
      out := [];
      WroteNothing(Context(), Scope(tracker), level, forCount > 0, mutLevel);
      NoGroups(block.statements, PlaceNow(), Scope(tracker));
      ClimbsStill(mutLevel, Needs(out), BlockMentions(Dropping, block));
      for i := 0 to |block.statements|
        invariant GroupsMirror(block.statements[..i], PlaceNow(), old(Scope(tracker)), out)
        invariant level == old(level) && forCount == old(forCount)
        invariant Ready(tracker, level) && opStack == old(opStack) && mutLevel >= old(mutLevel)
        invariant RaisedBetween(old(raised), raised, AnyCertain(py, block.statements[..i]),
                                BlockMentions(Raising, block), Context())
        invariant Climbs(old(mutLevel), mutLevel, Needs(out), BlockMentions(Dropping, block))
        invariant Wrote(out, Context(), old(Scope(tracker)), Scope(tracker), level, forCount > 0, mutLevel)
      {
        ghost var m, middle := mutLevel, Scope(tracker);
        WroteEnv(out, Context(), old(Scope(tracker)), middle, level, forCount > 0, m);
        var more := VisitStatement(block.statements[i]);
        GroupsStep(block.statements, i, PlaceNow(), old(Scope(tracker)), out, more);
        PieceClimbs(old(mutLevel), m, out, more, BlockMentions(Dropping, block),
                    StmtMentions(Dropping, block.statements[i]), BlockMentions(Dropping, block));
        WroteBoth(out, more, Context(), old(Scope(tracker)), middle, Scope(tracker), level, forCount > 0, m, mutLevel);
        out := out + more;
      }
      assert block.statements[..|block.statements|] == block.statements;
    }

    method VisitForStmt(iter: ForIter, body: Block) returns (out: seq<OStmt>)
      requires Ready(tracker, level) && Walking()
      modifies this`mutLevel, this`opStack, this`raised, this`level, this`forCount, tracker
      ensures level == old(level) && forCount == old(forCount)
      ensures Ready(tracker, level) && opStack == old(opStack) && mutLevel >= old(mutLevel)
      ensures Climbs(old(mutLevel), mutLevel, Needs(out), BlockMentions(Dropping, body))
      ensures Wrote(out, Context(), old(Scope(tracker)), Scope(tracker), level, forCount > 0, mutLevel)
      ensures |out| == 1 && out[0].SFor? && RangeMirrors(iter, old(Here()), out[0].range)
      ensures BlockMirrors(body, Nested(PlaceNow(), true), old(Scope(tracker)) + {CounterDecl(out[0].counter, level)},
                           out[0].body)
      ensures RaisedBetween(old(raised), raised, BlockCertain(py, body), BlockMentions(Raising, body), Context())
      decreases body, 4
    {
      hide Ready, Wrote, Scope, BlockOk, BlockEffect, BlockMirrors, RangeMirrors, Here, BlockMentions, BlockCertain,
           PairInSigs, Has, Climbs, EffectOfArgs, Effect;
      var t := Int(256, false);
      ghost var env := Scope(tracker);
      EnvBelow(tracker, level);
      var range := VisitRange(iter);
      ghost var m := mutLevel;
      ReadyAbove(tracker, level);
      var i := RegisterLocal(Counter, level + 1, t, false);
      ghost var inner := Scope(tracker);
      forCount := forCount + 1;
      level := level + 1;
      var inside := VisitBlock(body);
      BodyAdds(inside, Context(), inner, Scope(tracker), level, true, mutLevel);
      LeaveLevel(true, env);
      forCount := forCount - 1;
      var s := SFor(i, range, inside);
      ForOk(s, Context(), env, level, forCount > 0, mutLevel);
      LoopClimbs(old(mutLevel), m, mutLevel, s, Context().callable, BlockMentions(Dropping, body));
      out := [s];
    }

    method VisitRange(iter: ForIter) returns (range: ORange)
      requires Ready(tracker, level) && Walking()
      modifies this`mutLevel
      ensures mutLevel >= old(mutLevel)
      ensures Climbs(old(mutLevel), mutLevel, RangeEffect(range), false)
      ensures RangeCheck(range, Scope(tracker)) && RangeEffect(range) <= mutLevel
      ensures RangeMirrors(iter, Here(), range)
    {
      hide Ready, Scope;
      match iter {
        case Ranged(a, b) =>
          var start, stop := if a < b then a else b, if a < b then b else a;
          if stop == start {
            stop := stop + 1;
          }
          range := Constants(start, stop);
        case Variable(refId, len) =>
          var variable: Option<Name> := None;
          if refId {
            variable := VisitVarRef(Int(256, false), false);
          }
          var length := if len == 0 then 1 else len;
          if variable.None? {
            range := UpTo(length);
          } else {
            range := FromName(variable.value, length);
            ScopedName(tracker, variable.value, Int(256, false));
          }
      }
    }

    /** A nested block of an if statement: its declarations are gone afterwards. */
    method VisitBranch(block: Block) returns (out: seq<OStmt>)
      requires Ready(tracker, level) && Walking()
      modifies this`mutLevel, this`opStack, this`raised, this`level, this`forCount, tracker
      ensures level == old(level) && forCount == old(forCount)
      ensures Ready(tracker, level) && opStack == old(opStack) && mutLevel >= old(mutLevel)
      ensures Climbs(old(mutLevel), mutLevel, Needs(out), BlockMentions(Dropping, block))
      ensures Scope(tracker) == old(Scope(tracker))
      ensures BlockOk(out, Context(), Scope(tracker), level + 1, forCount > 0)
      ensures BlockEffect(out, Context().callable, false) <= mutLevel
      ensures BlockMirrors(block, Nested(PlaceNow(), forCount > 0), Scope(tracker), out)
      ensures RaisedBetween(old(raised), raised, BlockCertain(py, block), BlockMentions(Raising, block), Context())
      decreases block, 4
    {
      hide Ready, Scope, BlockOk, BlockEffect, BlockMirrors, BlockMentions, BlockCertain, PairInSigs, Has;
      ghost var env := Scope(tracker);
      EnvBelow(tracker, level);
      ReadyAbove(tracker, level);
      level := level + 1;
      out := VisitBlock(block);
      BodyAdds(out, Context(), env, Scope(tracker), level, forCount > 0, mutLevel);
      LeaveLevel(false, env);
    }

    method VisitIfStmt(ifStmt: StmtKind) returns (out: seq<OStmt>)
      requires Ready(tracker, level) && Walking() && ifStmt.IfStmt?
      modifies this`mutLevel, this`opStack, this`raised, this`level, this`forCount, tracker
      ensures level == old(level) && forCount == old(forCount)
      ensures Ready(tracker, level) && opStack == old(opStack) && mutLevel >= old(mutLevel)
      ensures Climbs(old(mutLevel), mutLevel, Needs(out),
                     CasesMention(Dropping, ifStmt.cases) || ElseMentions(Dropping, ifStmt.elseCase))
      ensures Wrote(out, Context(), old(Scope(tracker)), Scope(tracker), level, forCount > 0, mutLevel)
      ensures |out| == 1 && out[0].SIf? && CasesMirror(ifStmt.cases, PlaceNow(), Scope(tracker), out[0].cases)
      ensures ElseMirrors(ifStmt.elseCase, PlaceNow(), Scope(tracker), out[0].els)
      ensures RaisedBetween(old(raised), raised, CasesCertain(py, ifStmt.cases) || ElseCertain(py, ifStmt.elseCase),
                            CasesMention(Raising, ifStmt.cases) || ElseMentions(Raising, ifStmt.elseCase), Context())
      ensures Scope(tracker) == old(Scope(tracker))
      decreases ifStmt, 5
    {
      hide Ready, Wrote, Scope, BlockOk, BlockEffect, CasesOk, CasesEffect, BlockMirrors, CaseMirrors, BlockMentions,
           CasesMention, BlockCertain, CasesCertain, PairInSigs, Has, Climbs, Signatures, GoodSignatures, GoodTypes;
      var cases, elseCase := ifStmt.cases, ifStmt.elseCase;
      var written := VisitCases(cases);
      ghost var m := mutLevel;
      var els: seq<OStmt> := [];
      EmptyBlock(Context(), Scope(tracker), level + 1, forCount > 0);
      ClimbsStill(mutLevel, Needs(els), ElseMentions(Dropping, elseCase));
      if elseCase.Some? {
        els := VisitBranch(elseCase.value);
      }
      IfOk(SIf(written, els), Context(), Scope(tracker), level, forCount > 0, mutLevel);
      IfClimbs(old(mutLevel), m, mutLevel, SIf(written, els), Context().callable, CasesMention(Dropping, cases),
               ElseMentions(Dropping, elseCase));
      out := [SIf(written, els)];
    }

    /** One branch per case; without a case, one that does nothing. */
    method VisitCases(cases: seq<IfCase>) returns (written: seq<OCase>)
      requires Ready(tracker, level) && Walking()
      modifies this`mutLevel, this`opStack, this`raised, this`level, this`forCount, tracker
      ensures level == old(level) && forCount == old(forCount) && Scope(tracker) == old(Scope(tracker))
      ensures Ready(tracker, level) && opStack == old(opStack) && mutLevel >= old(mutLevel)
      ensures Climbs(old(mutLevel), mutLevel, CasesEffect(written, Context().callable, false),
                     CasesMention(Dropping, cases))
      ensures CasesOk(written, Context(), Scope(tracker), level, forCount > 0) && written != []
      ensures CasesEffect(written, Context().callable, false) <= mutLevel
      ensures CasesMirror(cases, PlaceNow(), Scope(tracker), written)
      ensures RaisedBetween(old(raised), raised, CasesCertain(py, cases), CasesMention(Raising, cases), Context())
      decreases cases, 5
    {
      hide Ready, Scope, BlockOk, BlockEffect, CasesOk, CasesEffect, BlockMirrors, CaseMirrors, BlockMentions,
           CaseMentions, BlockCertain, CaseCertain, PairInSigs, Has, Climbs, Effect, Signatures, GoodSignatures,
           GoodTypes;
      written := [];
      NoCases(Context(), Scope(tracker), level, forCount > 0);
      ClimbsStill(mutLevel, CasesEffect(written, Context().callable, false), CasesMention(Dropping, cases));
      for i := 0 to |cases|
        invariant level == old(level) && forCount == old(forCount)
        invariant Ready(tracker, level) && opStack == old(opStack) && mutLevel >= old(mutLevel)
        invariant Scope(tracker) == old(Scope(tracker))
        invariant CasesOk(written, Context(), Scope(tracker), level, forCount > 0)
        invariant CasesEffect(written, Context().callable, false) <= mutLevel
        invariant Climbs(old(mutLevel), mutLevel, CasesEffect(written, Context().callable, false),
                         CasesMention(Dropping, cases))
        invariant |written| == i
        invariant RaisedBetween(old(raised), raised, CasesCertain(py, cases[..i]), CasesMention(Raising, cases),
                                Context())
        invariant forall j :: 0 <= j < i ==> CaseMirrors(cases[j], PlaceNow(), Scope(tracker), written[j])
      {
        ghost var m := mutLevel;
        var c := VisitCase(cases[i]);
        CaseAppends(written, c, Context(), Scope(tracker), level, forCount > 0, m, mutLevel);
        CaseClimbs(old(mutLevel), m, mutLevel, written, c, Context().callable, CasesMention(Dropping, cases),
                   CaseMentions(Dropping, cases[i]), CasesMention(Dropping, cases));
        written := written + [c];
      }
      assert cases[..|cases|] == cases;
      if |cases| == 0 {
        written := [OCase(OLit(Bool, "False"), [SPass])];
        PassCase(Context(), Scope(tracker), level, forCount > 0);
        ClimbsStill(mutLevel, CasesEffect(written, Context().callable, false), CasesMention(Dropping, cases));
      }
    }

    method VisitCase(c: IfCase) returns (out: OCase)
      requires Ready(tracker, level) && Walking()
      modifies this`mutLevel, this`opStack, this`raised, this`level, this`forCount, tracker
      ensures level == old(level) && forCount == old(forCount)
      ensures Ready(tracker, level) && opStack == old(opStack) && mutLevel >= old(mutLevel)
      ensures Climbs(old(mutLevel), mutLevel, Max(Effect(out.cond), Needs(out.body)), CaseMentions(Dropping, c))
      ensures Scope(tracker) == old(Scope(tracker))
      ensures ExprOk(out.cond, Bool, Scope(tracker)) && Effect(out.cond) <= mutLevel
      ensures BlockOk(out.body, Context(), Scope(tracker), level + 1, forCount > 0)
      ensures BlockEffect(out.body, Context().callable, false) <= mutLevel
      ensures CaseMirrors(c, PlaceNow(), Scope(tracker), out)
      ensures RaisedBetween(old(raised), raised, CaseCertain(py, c), CaseMentions(Raising, c), Context())
      decreases c, 4
    {
      hide Ready, Scope, BlockOk, BlockEffect, WellTyped, Effect, Readable, BlockMirrors, Mirrors, BlockMentions,
           PairInSigs, Has;
      var cond := VisitBool(c.cond);
      ghost var m := mutLevel;
      var body := VisitBranch(c.ifBody);
      out := OCase(cond, body);
      ClimbsOn(old(mutLevel), m, mutLevel, Effect(cond), Needs(body), Max(Effect(cond), Needs(body)),
               Has(Dropping, c.cond), BlockMentions(Dropping, c.ifBody), CaseMentions(Dropping, c));
    }

    method VisitStatement(s: Stmt) returns (out: seq<OStmt>)
      requires Ready(tracker, level) && Walking()
      modifies this`mutLevel, this`opStack, this`raised, this`level, this`forCount, tracker
      ensures level == old(level) && forCount == old(forCount)
      ensures Ready(tracker, level) && opStack == old(opStack) && mutLevel >= old(mutLevel)
      ensures Climbs(old(mutLevel), mutLevel, Needs(out), StmtMentions(Dropping, s))
      ensures Wrote(out, Context(), old(Scope(tracker)), Scope(tracker), level, forCount > 0, mutLevel)
      ensures StmtMirrors(s, PlaceNow(), old(Scope(tracker)), out)
      ensures RaisedBetween(old(raised), raised, StmtCertain(py, s), StmtMentions(Raising, s), Context())
      decreases s, 2
    {
      hide Ready, Wrote, Scope, GoodSignatures, GoodTypes, AssignmentMirrors, StmtMirrors, FallsBack, StmtCertain,
           StmtMentions, AssignmentMentions, AssignmentCertain, PairInSigs, Signatures;
      var r := VisitByKind(s);
      if r.Some? {
        return r.value;
      }
      ghost var env := Scope(tracker);
      out := VisitAssignment(s.assignment);
      FallbackHas(Dropping, s);
      ClimbsWith(old(mutLevel), mutLevel, Needs(out), AssignmentMentions(Dropping, s.assignment),
                 StmtMentions(Dropping, s));
      FallbackMirrors(s, PlaceNow(), env, out);
      FallbackRaises(s, PlaceNow(), env);
    }

    /** The statement as its kind has it, unless it has none or cannot be written here. */
    method VisitByKind(s: Stmt) returns (r: Option<seq<OStmt>>)
      requires Ready(tracker, level) && Walking()
      modifies this`mutLevel, this`opStack, this`raised, this`level, this`forCount, tracker
      ensures level == old(level) && forCount == old(forCount)
      ensures Ready(tracker, level) && opStack == old(opStack) && mutLevel >= old(mutLevel)
      ensures r.Some? ==> Climbs(old(mutLevel), mutLevel, Needs(r.value), StmtMentions(Dropping, s))
      ensures r.None? ==> mutLevel == old(mutLevel)
      ensures r.Some? ==> Wrote(r.value, Context(), old(Scope(tracker)), Scope(tracker), level, forCount > 0, mutLevel)
      ensures r.Some? ==> StmtMirrors(s, PlaceNow(), old(Scope(tracker)), r.value)
      ensures r.Some? ==> RaisedBetween(old(raised), raised, StmtCertain(py, s), StmtMentions(Raising, s), Context())
      ensures r.None? ==> FallsBack(s, PlaceNow(), old(Scope(tracker)))
      ensures r.None? ==> Scope(tracker) == old(Scope(tracker)) && raised == old(raised)
      decreases s, 1
    {
      hide *;
      if AlwaysWritten(s.kind) {
        var out := VisitWithoutFallback(s);
        r := Some(out);
      } else {
        r := VisitWhereItFits(s);
      }
    }

    /** Jumps, calls and what works on a dynamic array. */
    method VisitWhereItFits(s: Stmt) returns (r: Option<seq<OStmt>>)
      requires Ready(tracker, level) && Walking() && !AlwaysWritten(s.kind)
      modifies this`mutLevel, this`opStack, this`raised, this`level, this`forCount, tracker
      ensures level == old(level) && forCount == old(forCount)
      ensures Ready(tracker, level) && opStack == old(opStack) && mutLevel >= old(mutLevel)
      ensures r.Some? ==> Climbs(old(mutLevel), mutLevel, Needs(r.value), StmtMentions(Dropping, s))
      ensures r.None? ==> mutLevel == old(mutLevel)
      ensures r.Some? ==> Wrote(r.value, Context(), old(Scope(tracker)), Scope(tracker), level, forCount > 0, mutLevel)
      ensures r.Some? ==> StmtMirrors(s, PlaceNow(), old(Scope(tracker)), r.value)
      ensures r.Some? ==> RaisedBetween(old(raised), raised, StmtCertain(py, s), StmtMentions(Raising, s), Context())
      ensures r.None? ==> FallsBack(s, PlaceNow(), old(Scope(tracker)))
      ensures r.None? ==> Scope(tracker) == old(Scope(tracker)) && raised == old(raised)
      decreases s, 0
    {
      hide Ready, Wrote, Scope, GoodSignatures, GoodTypes, CallMirrors, Mirrors, TypedMirrors, NothingFits,
           BlockMirrors, CasesMirror, ElseMirrors, RawCallStmtMirrors, MessageMirrors, RangeMirrors, ArgMirrors,
           OptionMirrors, BlockCertain, CasesCertain, ElseCertain, ValueCertain, AssignmentCertain, AssignmentMirrors,
           BlockMentions, CasesMention, ElseMentions, PairInSigs, Signatures, Has, Climbs, EffectOfArgs, Effect,
           Needs, HasTyped, HasPayload, HasRaw, HasOption;
      r := None;
      match s.kind {
        case ContinueStmt =>
          if forCount > 0 {
            WroteOne(SContinue, Context(), Scope(tracker), Scope(tracker), level, forCount > 0, mutLevel);
            r := Some([SContinue]);
            ClimbsStill(mutLevel, Needs(r.value), StmtMentions(Dropping, s));
          }
        case BreakStmt =>
          if forCount > 0 {
            WroteOne(SBreak, Context(), Scope(tracker), Scope(tracker), level, forCount > 0, mutLevel);
            r := Some([SBreak]);
            ClimbsStill(mutLevel, Needs(r.value), StmtMentions(Dropping, s));
          }
        case CallStmt(funcNum, params) =>
          if |funcs.functions| > 0 {
            var f := funcNum % |funcs.functions|;
            CallableIff(CallGraph.Callees(callMap, currentFunc), funcs.functions, f);
            if f in CallGraph.Callees(callMap, currentFunc) {
              var out := VisitFuncCall(f, params);
              ClimbsWith(old(mutLevel), mutLevel, Needs(out), HasPayload(Dropping, params), StmtMentions(Dropping, s));
              r := Some(out);
            }
          }
        case AppendStmt(item) =>
          r := VisitAppendStmt(item);
          if r.Some? {
            ClimbsWith(old(mutLevel), mutLevel, Needs(r.value), HasTyped(Dropping, item), StmtMentions(Dropping, s));
          }
        case PopStmt =>
          r := VisitPopStmt();
          if r.Some? { ClimbsWith(old(mutLevel), mutLevel, Needs(r.value), false, StmtMentions(Dropping, s)); }
        case NoKind =>
      }
    }

    /** Statements of a kind that can always be written. */
    method VisitWithoutFallback(s: Stmt) returns (out: seq<OStmt>)
      requires Ready(tracker, level) && Walking() && AlwaysWritten(s.kind)
      modifies this`mutLevel, this`opStack, this`raised, this`level, this`forCount, tracker
      ensures level == old(level) && forCount == old(forCount)
      ensures Ready(tracker, level) && opStack == old(opStack) && mutLevel >= old(mutLevel)
      ensures Climbs(old(mutLevel), mutLevel, Needs(out), StmtMentions(Dropping, s))
      ensures Wrote(out, Context(), old(Scope(tracker)), Scope(tracker), level, forCount > 0, mutLevel)
      ensures StmtMirrors(s, PlaceNow(), old(Scope(tracker)), out)
      ensures RaisedBetween(old(raised), raised, StmtCertain(py, s), StmtMentions(Raising, s), Context())
      decreases s, 0
    {
      hide Ready, Wrote, Scope, GoodSignatures, GoodTypes, BlockMirrors, CasesMirror, ElseMirrors, Mirrors,
           ArgMirrors, OptionMirrors, MessageMirrors, RawCallStmtMirrors, RangeMirrors, TypedMirrors, BlockMentions,
           CasesMention, ElseMentions, BlockCertain, CasesCertain, ElseCertain, PairInSigs, Signatures, Has, Climbs,
           EffectOfArgs, Effect, Needs;
      ghost var drops := StmtMentions(Dropping, s);
      match s.kind {
        case DeclStmt(t, value) =>
          FieldDrops(value, ExtractType(t));
          out := VarDecl(value, ExtractType(t));
          ClimbsWith(old(mutLevel), mutLevel, Needs(out), Has(Dropping, FieldFor(value, ExtractType(t))), drops);
        case ForStmt(_, _) => out := VisitNestingStmt(s);
        case IfStmt(_, _) => out := VisitNestingStmt(s);
        case AssertStmt(cond, reason) =>
          out := VisitAssertStmt(cond, reason);
          ClimbsWith(old(mutLevel), mutLevel, Needs(out), Has(Dropping, cond) || Has(Dropping, reason), drops);
        case SendStmt(_, _, _) => out := VisitOutwardStmt(s);
        case RawCallStmt(_) => out := VisitOutwardStmt(s);
        case RawLogStmt(_, _, _, _) => out := VisitOutwardStmt(s);
      }
    }

    /** A statement that reaches outside the contract. */
    method VisitOutwardStmt(s: Stmt) returns (out: seq<OStmt>)
      requires Ready(tracker, level) && Walking() && (s.kind.SendStmt? || s.kind.RawCallStmt? || s.kind.RawLogStmt?)
      modifies this`mutLevel, this`opStack, this`raised, this`level, this`forCount, tracker
      ensures level == old(level) && forCount == old(forCount)
      ensures Ready(tracker, level) && opStack == old(opStack) && mutLevel >= old(mutLevel)
      ensures Climbs(old(mutLevel), mutLevel, Needs(out), StmtMentions(Dropping, s))
      ensures Wrote(out, Context(), old(Scope(tracker)), Scope(tracker), level, forCount > 0, mutLevel)
      ensures StmtMirrors(s, PlaceNow(), old(Scope(tracker)), out)
      ensures RaisedBetween(old(raised), raised, StmtCertain(py, s), StmtMentions(Raising, s), Context())
    {
      hide Ready, Wrote, Scope, GoodSignatures, GoodTypes, BlockMirrors, CasesMirror, ElseMirrors, Mirrors,
           ArgMirrors, OptionMirrors, MessageMirrors, RawCallStmtMirrors, RangeMirrors, TypedMirrors, BlockMentions,
           CasesMention, ElseMentions, BlockCertain, CasesCertain, ElseCertain, PairInSigs, Signatures, Has, Climbs,
           EffectOfArgs, Effect, Needs;
      ghost var drops := StmtMentions(Dropping, s);
      match s.kind {
        case SendStmt(to, amount, gas) =>
          out := VisitSendStmt(to, amount, gas);
          ClimbsWith(old(mutLevel), mutLevel, Needs(out),
                     Has(Dropping, to) || Has(Dropping, amount) || HasOption(Dropping, gas), drops);
        case RawCallStmt(rc) =>
          out := VisitRawCallStmt(rc);
          ClimbsWith(old(mutLevel), mutLevel, Needs(out), HasRaw(Dropping, rc), drops);
        case RawLogStmt(topics, topicAmount, dataBs, dataBm) =>
          out := VisitRawLog(topics, topicAmount, dataBs, dataBm);
          ClimbsWith(old(mutLevel), mutLevel, Needs(out),
                     Has(Dropping, topics) || HasOption(Dropping, dataBs) || Has(Dropping, dataBm), drops);
      }
    }

    /** A loop or a conditional. */
    method VisitNestingStmt(s: Stmt) returns (out: seq<OStmt>)
      requires Ready(tracker, level) && Walking() && (s.kind.ForStmt? || s.kind.IfStmt?)
      modifies this`mutLevel, this`opStack, this`raised, this`level, this`forCount, tracker
      ensures level == old(level) && forCount == old(forCount)
      ensures Ready(tracker, level) && opStack == old(opStack) && mutLevel >= old(mutLevel)
      ensures Climbs(old(mutLevel), mutLevel, Needs(out), StmtMentions(Dropping, s))
      ensures Wrote(out, Context(), old(Scope(tracker)), Scope(tracker), level, forCount > 0, mutLevel)
      ensures StmtMirrors(s, PlaceNow(), old(Scope(tracker)), out)
      ensures RaisedBetween(old(raised), raised, StmtCertain(py, s), StmtMentions(Raising, s), Context())
      decreases s, 0, 0
    {
      hide Ready, Wrote, Scope, GoodSignatures, GoodTypes, BlockMirrors, CasesMirror, ElseMirrors, RangeMirrors,
           AssignmentMentions, BlockMentions, CasesMention, ElseMentions, BlockCertain, CasesCertain, ElseCertain,
           PairInSigs, Signatures, Climbs, Needs;
      ghost var drops := StmtMentions(Dropping, s);
      match s.kind {
        case ForStmt(iter, body) =>
          out := VisitForStmt(iter, body);
          ClimbsWith(old(mutLevel), mutLevel, Needs(out), BlockMentions(Dropping, body), drops);
        case IfStmt(_, _) =>
          out := VisitIfStmt(s.kind);
          ClimbsWith(old(mutLevel), mutLevel, Needs(out),
                     CasesMention(Dropping, s.kind.cases) || ElseMentions(Dropping, s.kind.elseCase), drops);
      }
    }

    predicate AlwaysWritten(kind: StmtKind) {
      kind.DeclStmt? || kind.ForStmt? || kind.IfStmt? || kind.AssertStmt? || kind.SendStmt? || kind.RawCallStmt? ||
      kind.RawLogStmt?
    }

    // ----- raw calls as statements

    /** The response is chosen after target and data are visited and before gas and value are. */
    method VisitRawCallStmt(rc: RawCallMessage) returns (out: seq<OStmt>)
      requires Ready(tracker, level) && Walking()
      modifies this`mutLevel, this`opStack, this`raised, tracker
      ensures Ready(tracker, level) && opStack == old(opStack) && mutLevel >= old(mutLevel)
      ensures Climbs(old(mutLevel), mutLevel, Needs(out), HasRaw(Dropping, rc))
      ensures RaisedOnly(old(raised), raised, HasRaw(Raising, rc))
      ensures Wrote(out, Context(), old(Scope(tracker)), Scope(tracker), level, forCount > 0, mutLevel)
      ensures RawCallStmtMirrors(py, rc, old(Scope(tracker)), level, out)
    {
      hide Ready, Wrote, Scope, SoundArgs, Sound, Mirrors, ArgMirrors, Signatures, RawCallStmtMirrors, NothingFits,
           FreshLocal, TargetOk, Generate, WriteEffect, GoodSignatures, GoodTypes, Has, RawDeclared;
      NoArgs(Scope(tracker), mutLevel, false);
      ghost var drops := HasRaw(Dropping, rc);
      var to := AppendArg([], rc.to, Address);
      ghost var m1 := mutLevel;
      var args := AppendArg(to, rc.data, Bytes(100));
      ArgKept(rc.to, Address, Here(), to, args, 0);
      ArgsClimb(old(mutLevel), m1, mutLevel, to, args, Has(Dropping, rc.to), Has(Dropping, rc.data), drops);
      var maxOut := Generate(256, false, rc.maxOut.intval);
      if maxOut == 0 {
        ghost var m := mutLevel;
        out := FinishWithoutResponse(rc, args);
        ClimbsOn(old(mutLevel), m, mutLevel, EffectOfArgs(args), Needs(out), Needs(out), drops, drops, drops);
        return;
      }
      ghost var env, m, sight := Scope(tracker), mutLevel, Here();
      var response, declared := PickOrDeclare(Bytes(if maxOut > 100 then 100 else maxOut));
      SoundArgsInLarger(args, env, Scope(tracker), m, false);
      SoundArgsLater(args, Scope(tracker), m, mutLevel, false);
      ghost var m2 := mutLevel;
      out := FinishWithResponse(rc, args, response, declared, env, sight);
      ClimbsOn(m, m2, mutLevel, WriteEffect(response), Needs(out), Needs(out), false, drops, drops);
      ClimbsOn(old(mutLevel), m, mutLevel, EffectOfArgs(args), Needs(out), Needs(out), drops, drops, drops);
    }

    /** Gas and value, if given, behind target and data. */
    method AppendGasAndValue(rc: RawCallMessage, args0: seq<Arg>, ghost sight: Sight) returns (args: seq<Arg>)
      requires Ready(tracker, level) && SoundArgs(args0, Scope(tracker), mutLevel, isConstant)
      requires |args0| == 2 && args0[0].at == Address && args0[1].at == Bytes(100)
      requires ArgMirrors(rc.to, Address, sight, args0, 0) && ArgMirrors(rc.data, Bytes(100), sight, args0, 1)
      modifies this`mutLevel, this`opStack, this`raised
      ensures opStack == old(opStack) && mutLevel >= old(mutLevel)
      ensures Climbs(old(mutLevel), mutLevel, EffectOfArgs(args), HasRaw(Dropping, rc))
      ensures RaisedOnly(old(raised), raised, HasRaw(Raising, rc))
      ensures SoundArgs(args, Scope(tracker), mutLevel, isConstant)
      ensures RawArgTypes(args) && args0 <= args
      ensures RawCallArgs(rc, sight, Here(), args)
      decreases rc, 0
    {
      hide Ready, Sound, SoundArgs, Mirrors, ArgMirrors, OptionMirrors, RawCallArgs, Scope, Here, Has;
      ghost var drops := HasRaw(Dropping, rc);
      var gas := AppendOptional(args0, rc.gas, UINT);
      ghost var m := mutLevel;
      args := AppendOptional(gas, rc.value, UINT);
      ArgsClimb(old(mutLevel), m, mutLevel, gas, args, HasOption(Dropping, rc.gas), HasOption(Dropping, rc.value),
                drops);
      RawCallArgsAre(rc, sight, Here(), args0, gas, args);
      RawTypes(rc, sight, Here(), args);
    }

    /** Gas and value, then the status variable, for a call whose output is thrown away. */
    method FinishWithoutResponse(rc: RawCallMessage, args0: seq<Arg>) returns (out: seq<OStmt>)
      requires Ready(tracker, level) && Walking() && SoundArgs(args0, Scope(tracker), mutLevel, false)
      requires |args0| == 2 && args0[0].at == Address && args0[1].at == Bytes(100) && ResponseSize(rc) == 0
      requires ArgMirrors(rc.to, Address, Here(), args0, 0) && ArgMirrors(rc.data, Bytes(100), Here(), args0, 1)
      modifies this`mutLevel, this`opStack, this`raised, tracker
      ensures Ready(tracker, level) && opStack == old(opStack) && mutLevel >= old(mutLevel)
      ensures Climbs(old(mutLevel), mutLevel, Needs(out), HasRaw(Dropping, rc)) && EffectOfArgs(args0) <= Needs(out)
      ensures RaisedOnly(old(raised), raised, HasRaw(Raising, rc))
      ensures Wrote(out, Context(), old(Scope(tracker)), Scope(tracker), level, forCount > 0, mutLevel)
      ensures RawCallStmtMirrors(py, rc, old(Scope(tracker)), level, out)
    {
      hide Ready, Wrote, Scope, SoundArgs, Sound, Mirrors, ArgMirrors, RawCallArgs, Signatures, RawCallStmtMirrors, Has;
      var args := AppendGasAndValue(rc, args0, Here());
      ghost var m := mutLevel;
      if rc.revert.boolval {
        out := FinishBare(rc, args);
      } else {
        out := FinishWithStatusOnly(rc, args);
      }
      ArgsPrefix(args0, args);
      ClimbsOn(old(mutLevel), m, mutLevel, EffectOfArgs(args), Needs(out), Needs(out), HasRaw(Dropping, rc), false,
               HasRaw(Dropping, rc));
    }

    method FinishBare(rc: RawCallMessage, args: seq<Arg>) returns (out: seq<OStmt>)
      requires Walking() && SoundArgs(args, Scope(tracker), mutLevel, false) && rc.revert.boolval
      requires RawArgTypes(args) && ResponseSize(rc) == 0
      requires RawCallArgs(rc, Here(), Here(), args)
      modifies this`mutLevel
      ensures mutLevel >= old(mutLevel)
      ensures Climbs(old(mutLevel), mutLevel, Needs(out), false) && EffectOfArgs(args) <= Needs(out)
      ensures Wrote(out, Context(), Scope(tracker), Scope(tracker), level, forCount > 0, mutLevel)
      ensures RawCallStmtMirrors(py, rc, Scope(tracker), level, out)
    {
      hide Wrote, Scope, SoundArgs, Sound, Mirrors, RawCallArgs, Signatures, RawCallStmtMirrors, DeclaredAs, CapturesAs;
      ghost var env, m := Scope(tracker), mutLevel;
      var call := OApp(RawCall(0, rc.static_.boolval), args);
      RequireForRawCall(rc.static_.boolval);
      SoundArgsLater(args, env, m, mutLevel, false);
      ReadyRawCall(call, env, mutLevel);
      out := [SRawCall([], call)];
      RawCallOk(out[0], Context(), env, level, forCount > 0, mutLevel);
      CaptureDeclares([], call, level);
      NeedsIs(out);
      OneStatement(out[0], Context().callable);
      AppEffect(call.f, args);
      assert StatusTypes(rc) + ResponseTypes(0) == [] && env + {} == env;
      RawCallStmtIs(py, rc, env, level, out, {});
    }

    method FinishWithStatusOnly(rc: RawCallMessage, args: seq<Arg>) returns (out: seq<OStmt>)
      requires Ready(tracker, level) && Walking() && SoundArgs(args, Scope(tracker), mutLevel, false)
      requires RawArgTypes(args) && ResponseSize(rc) == 0
      requires RawCallArgs(rc, Here(), Here(), args) && !rc.revert.boolval
      modifies this`mutLevel, tracker
      ensures Ready(tracker, level) && mutLevel >= old(mutLevel)
      ensures Climbs(old(mutLevel), mutLevel, Needs(out), false) && EffectOfArgs(args) <= Needs(out)
      ensures Wrote(out, Context(), old(Scope(tracker)), Scope(tracker), level, forCount > 0, mutLevel)
      ensures RawCallStmtMirrors(py, rc, old(Scope(tracker)), level, out)
    {
      hide Ready, Wrote, Scope, SoundArgs, Sound, TargetOk, Mirrors, RawCallArgs, Signatures, NothingFits,
           RawCallStmtMirrors, DeclaredAs, CapturesAs, FreshLocal, WriteEffect, GoodSignatures, GoodTypes, RawArgTypes,
           RawCallReady, ResponseSize;
      ghost var env, m := Scope(tracker), mutLevel;
      var call := OApp(RawCall(0, rc.static_.boolval), args);
      var status, declared := PickOrDeclare(Bool);
      ghost var m1 := mutLevel;
      RequireForRawCall(rc.static_.boolval);
      RawCallClimbs(old(mutLevel), m1, mutLevel, call, status);
      SoundArgsLater(args, env, m, mutLevel, false);
      ReadyRawCall(call, env, mutLevel);
      out := WriteStatus(call, status, declared, env);
      AppEffect(call.f, args);
      ClimbsFurther(old(mutLevel), mutLevel, Max(WriteEffect(status), OwnEffect(call.f)), Needs(out));
      assert StatusTypes(rc) + ResponseTypes(0) == [Bool] && env + {} == env;
      RawCallStmtIs(py, rc, env, level, out, {});
    }

    /** Gas and value, then the status variable, for a call whose output is kept. */
    method FinishWithResponse(rc: RawCallMessage, args0: seq<Arg>, response: Target, declared: bool, ghost env: Env,
                              ghost sight: Sight)
      returns (out: seq<OStmt>)
      requires Ready(tracker, level) && Walking() && SoundArgs(args0, Scope(tracker), mutLevel, false)
      requires |args0| == 2 && args0[0].at == Address && args0[1].at == Bytes(100) && sight == Sight(false, env, py)
      requires ArgMirrors(rc.to, Address, sight, args0, 0) && ArgMirrors(rc.data, Bytes(100), sight, args0, 1)
      requires RawDeclared(response, declared, env, Scope(tracker), level)
      requires ResponseSize(rc) > 0 && response.wanted == Bytes(ResponseSize(rc))
      requires declared ==> NothingFits(response.wanted, env, true)
      requires TargetOk(response, Scope(tracker), false) && WriteEffect(response) <= mutLevel
      modifies this`mutLevel, this`opStack, this`raised, tracker
      ensures Ready(tracker, level) && opStack == old(opStack) && mutLevel >= old(mutLevel)
      ensures Climbs(old(mutLevel), mutLevel, Needs(out), HasRaw(Dropping, rc))
      ensures EffectOfArgs(args0) <= Needs(out) && WriteEffect(response) <= Needs(out)
      ensures RaisedOnly(old(raised), raised, HasRaw(Raising, rc))
      ensures Wrote(out, Context(), env, Scope(tracker), level, forCount > 0, mutLevel)
      ensures RawCallStmtMirrors(py, rc, env, level, out)
    {
      hide Ready, Wrote, Scope, SoundArgs, Sound, TargetOk, RawDeclared, Mirrors, ArgMirrors, RawCallArgs, Signatures,
           NothingFits, RawCallStmtMirrors, Has;
      var args := AppendGasAndValue(rc, args0, sight);
      ghost var m := mutLevel;
      if rc.revert.boolval {
        out := FinishReverting(rc, args, response, declared, env);
      } else {
        out := FinishWithStatus(rc, args, response, declared, env);
      }
      ArgsPrefix(args0, args);
      ClimbsOn(old(mutLevel), m, mutLevel, EffectOfArgs(args), Needs(out), Needs(out), HasRaw(Dropping, rc), false,
               HasRaw(Dropping, rc));
    }

    method FinishReverting(rc: RawCallMessage, args: seq<Arg>, response: Target, declared: bool, ghost env: Env)
      returns (out: seq<OStmt>)
      requires Walking() && SoundArgs(args, Scope(tracker), mutLevel, false) && rc.revert.boolval
      requires RawArgTypes(args)
      requires RawCallArgs(rc, Sight(false, env, py), Here(), args) &&
               RawDeclared(response, declared, env, Scope(tracker), level)
      requires ResponseSize(rc) > 0 && response.wanted == Bytes(ResponseSize(rc))
      requires declared ==> NothingFits(response.wanted, env, true)
      requires TargetOk(response, Scope(tracker), false) && WriteEffect(response) <= mutLevel
      modifies this`mutLevel
      ensures mutLevel >= old(mutLevel) && Wrote(out, Context(), env, Scope(tracker), level, forCount > 0, mutLevel)
      ensures Climbs(old(mutLevel), mutLevel, Needs(out), false)
      ensures EffectOfArgs(args) <= Needs(out) && WriteEffect(response) <= Needs(out)
      ensures RawCallStmtMirrors(py, rc, env, level, out)
    {
      hide Wrote, Scope, SoundArgs, Sound, TargetOk, RawDeclared, Mirrors, RawCallArgs, Signatures, NothingFits,
           DeclaredAs, CapturesAs, RawCallStmtMirrors;
      ghost var m := mutLevel;
      RequireForRawCall(rc.static_.boolval);
      var call := OApp(RawCall(response.wanted.m, rc.static_.boolval), args);
      SoundArgsLater(args, Scope(tracker), m, mutLevel, false);
      ReadyRawCall(call, Scope(tracker), mutLevel);
      AppEffect(call.f, args);
      out := WriteResponse(call, response, declared, env);
      ResponseScope(response, declared, env, Scope(tracker), level);
      assert StatusTypes(rc) + ResponseTypes(ResponseSize(rc)) == [response.wanted];
      RawCallStmtIs(py, rc, env, level, out, Scope(tracker) - env);
    }

    method FinishWithStatus(rc: RawCallMessage, args: seq<Arg>, response: Target, declared: bool, ghost env: Env)
      returns (out: seq<OStmt>)
      requires Ready(tracker, level) && Walking() && SoundArgs(args, Scope(tracker), mutLevel, false)
      requires RawArgTypes(args) && !rc.revert.boolval
      requires RawCallArgs(rc, Sight(false, env, py), Here(), args) &&
               RawDeclared(response, declared, env, Scope(tracker), level)
      requires ResponseSize(rc) > 0 && response.wanted == Bytes(ResponseSize(rc))
      requires declared ==> NothingFits(response.wanted, env, true)
      requires TargetOk(response, Scope(tracker), false) && WriteEffect(response) <= mutLevel
      modifies this`mutLevel, tracker
      ensures Ready(tracker, level) && mutLevel >= old(mutLevel)
      ensures Climbs(old(mutLevel), mutLevel, Needs(out), false)
      ensures EffectOfArgs(args) <= Needs(out) && WriteEffect(response) <= Needs(out)
      ensures Wrote(out, Context(), env, Scope(tracker), level, forCount > 0, mutLevel)
      ensures RawCallStmtMirrors(py, rc, env, level, out)
    {
      hide Ready, Wrote, Scope, SoundArgs, Sound, TargetOk, RawDeclared, Mirrors, RawCallArgs, Signatures, NothingFits,
           DeclaredAs, CapturesAs, RawCallStmtMirrors;
      ghost var middle, m := Scope(tracker), mutLevel;
      var status, statusDeclared := PickOrDeclare(Bool);
      ghost var m1 := mutLevel;
      RequireForRawCall(rc.static_.boolval);
      var call := OApp(RawCall(response.wanted.m, rc.static_.boolval), args);
      RawCallClimbs(m, m1, mutLevel, call, status);
      SoundArgsLater(args, middle, m, mutLevel, false);
      ReadyRawCall(call, middle, mutLevel);
      out := WriteBoth(call, response, declared, status, statusDeclared, env, middle);
      AppEffect(call.f, args);
      ClimbsFurther(m, mutLevel, Max(WriteEffect(status), OwnEffect(call.f)), Needs(out));
      ResponseScope(response, declared, env, middle, level);
      assert StatusTypes(rc) + ResponseTypes(ResponseSize(rc)) == [Bool, response.wanted];
      RawCallStmtIs(py, rc, env, level, out, middle - env);
    }

    /** A variable of exactly this type's kind to write to, declared first if there is none. */
    method PickOrDeclare(t: VType) returns (x: Target, declared: bool)
      requires Ready(tracker, level) && Walking() && ValidType(t)
      modifies this`mutLevel, tracker
      ensures Ready(tracker, level) && mutLevel >= old(mutLevel)
      ensures Climbs(old(mutLevel), mutLevel, WriteEffect(x), false)
      ensures x.wanted == t && WriteEffect(x) <= mutLevel && TargetOk(x, Scope(tracker), false)
      ensures RawDeclared(x, declared, old(Scope(tracker)), Scope(tracker), level)
      ensures old(Scope(tracker)) <= Scope(tracker)
      ensures declared ==> NothingFits(t, old(Scope(tracker)), true)
    {
      hide Ready, TargetOk, NothingFits, Scope;
      var n := VisitVarRef(t, true);
      declared := n.None?;
      if declared {
        var name := RegisterLocal(Plain, level, t, true);
        x := Target(name, t, t);
        DeclaredTarget(Decl(name, level, t, true, 0), Scope(tracker));
      } else {
        x := Target(n.value, t, WritableAs(tracker, n.value, t));
      }
    }

    /** status, response = raw_call(...), after the declarations of whichever is new. */
    method WriteBoth(call: OExpr, response: Target, declared: bool, status: Target, statusDeclared: bool,
                     ghost env: Env, ghost middle: Env)
      returns (out: seq<OStmt>)
      requires Walking() && RawCallReady(call, middle, mutLevel) && RawDeclared(response, declared, env, middle, level)
      requires RawDeclared(status, statusDeclared, middle, Scope(tracker), level)
      requires response.wanted.Bytes? && status.wanted == Bool
      requires TargetOk(response, middle, false) && TargetOk(status, Scope(tracker), false)
      requires WriteEffect(response) <= mutLevel && WriteEffect(status) <= mutLevel
      ensures Wrote(out, Context(), env, Scope(tracker), level, forCount > 0, mutLevel)
      ensures Effect(call) <= Needs(out) && WriteEffect(response) <= Needs(out) && WriteEffect(status) <= Needs(out)
      ensures |out| > 0 && CapturesAs(out[|out| - 1], [Bool, response.wanted]) && ValueOf(out[|out| - 1]) == call
      ensures forall i :: 0 <= i < |out| - 1 ==> EmptyDeclaration(out[i])
      ensures DeclaredAs(response.wanted, out, level) == DeclIf(declared, response, level)
      ensures DeclaredAs(Bool, out, level) == DeclIf(statusDeclared, status, level)
    {
      hide Wrote, Scope, TargetOk, Signatures, DeclaredAs, RawDeclared, RawCallReady, WriteEffect, GoodSignatures;
      ghost var first, after := env + DeclIf(statusDeclared, status, level), Scope(tracker);
      StatusFirst(response, declared, status, statusDeclared, env, middle, after, level);
      WroteNothing(Context(), env, level, forCount > 0, mutLevel);
      NothingDeclared(level);
      out := DeclareFirst([], statusDeclared, status, env, env, first);
      out := DeclareFirst(out, declared, response, env, first, after);
      var s := SRawCall([status, response], call);
      TargetsInLarger([response], middle, after, false);
      assert TargetOk([response][0], after, false);
      CaptureOk(status, response, call, Context(), middle, after, level, forCount > 0, mutLevel);
      WroteSnoc(out, s, Context(), env, after, after, level, forCount > 0, mutLevel, mutLevel);
      MoreDeclare(Bool, out, s, level);
      MoreDeclare(response.wanted, out, s, level);
      LastEffect(out, s, Context().callable);
      CapturesEffect(status, response, call, Context().callable);
      out := out + [s];
    }

    /** The declaration of a status or response variable, if it is new. */
    method DeclareFirst(out0: seq<OStmt>, declared: bool, x: Target, ghost env: Env, ghost before: Env,
                        ghost after: Env)
      returns (out: seq<OStmt>)
      requires Walking() && Wrote(out0, Context(), env, before, level, forCount > 0, mutLevel)
      requires RawDeclared(x, declared, before, after, level) && (x.wanted.Bytes? || x.wanted == Bool)
      requires forall i :: 0 <= i < |out0| ==> EmptyDeclaration(out0[i])
      ensures forall i :: 0 <= i < |out| ==> EmptyDeclaration(out[i])
      ensures Wrote(out, Context(), env, after, level, forCount > 0, mutLevel)
      ensures DeclaredAs(x.wanted, out, level) == DeclaredAs(x.wanted, out0, level) + DeclIf(declared, x, level)
      ensures forall t :: t != x.wanted ==> DeclaredAs(t, out, level) == DeclaredAs(t, out0, level)
    {
      hide Wrote, DeclaredAs, Signatures, GoodSignatures;
      out := out0;
      if declared {
        var s := SDecl(x.name, x.wanted, OLit(x.wanted, if x.wanted == Bool then "False" else ""));
        WroteSnoc(out, s, Context(), env, before, after, level, forCount > 0, mutLevel, mutLevel);
        forall t
          ensures DeclaredAs(t, out + [s], level) ==
                  DeclaredAs(t, out, level) + (set d | d in DeclaredBy(s, level) && d.t == t)
        {
          MoreDeclare(t, out, s, level);
        }
        out := out + [s];
      }
    }

    method WriteResponse(call: OExpr, x: Target, declared: bool, ghost env: Env) returns (out: seq<OStmt>)
      requires Walking() && RawCallReady(call, Scope(tracker), mutLevel)
      requires RawDeclared(x, declared, env, Scope(tracker), level) && x.wanted == Bytes(call.f.outsize)
      requires TargetOk(x, Scope(tracker), false) && WriteEffect(x) <= mutLevel
      ensures Wrote(out, Context(), env, Scope(tracker), level, forCount > 0, mutLevel)
      ensures Effect(call) <= Needs(out) && WriteEffect(x) <= Needs(out)
      ensures |out| == 1 && CapturesAs(out[0], [x.wanted]) && ValueOf(out[0]) == call
      ensures DeclaredAs(x.wanted, out, level) == DeclIf(declared, x, level) && DeclaredAs(Bool, out, level) == {}
    {
      hide Wrote, Scope, TargetOk, DeclaredAs, Signatures;
      if declared {
        out := [SDeclRawCall(x.name, x.wanted, call)];
        CallTyped(call, x.wanted, Scope(tracker));
      } else {
        out := [SRawCall([x], call)];
        OneWrite(x, mutLevel);
      }
      OneDeclares(Bool, out[0], level);
      OneDeclares(x.wanted, out[0], level);
      CaptureEffect(out[0], call, x, Context().callable);
      WroteOne(out[0], Context(), env, Scope(tracker), level, forCount > 0, mutLevel);
    }

    method WriteStatus(call: OExpr, x: Target, declared: bool, ghost env: Env) returns (out: seq<OStmt>)
      requires Walking() && RawCallReady(call, env, mutLevel)
      requires RawDeclared(x, declared, env, Scope(tracker), level) && x.wanted == Bool
      requires TargetOk(x, Scope(tracker), false) && WriteEffect(x) <= mutLevel
      ensures Wrote(out, Context(), env, Scope(tracker), level, forCount > 0, mutLevel)
      ensures Effect(call) <= Needs(out) && WriteEffect(x) <= Needs(out)
      ensures |out| == 1 && CapturesAs(out[0], [Bool]) && ValueOf(out[0]) == call
      ensures DeclaredAs(Bool, out, level) == DeclIf(declared, x, level) && DeclaredAs(Bytes(0), out, level) == {}
    {
      hide Wrote, Scope, TargetOk, DeclaredAs, Signatures;
      if declared {
        out := [SDecl(x.name, Bool, call)];
        CallTyped(call, Bool, env);
      } else {
        out := [SRawCall([x], call)];
        OneWrite(x, mutLevel);
      }
      OneDeclares(Bool, out[0], level);
      OneDeclares(Bytes(0), out[0], level);
      CaptureEffect(out[0], call, x, Context().callable);
      WroteOne(out[0], Context(), env, Scope(tracker), level, forCount > 0, mutLevel);
    }

    // ----- functions

    /** Registers the parameters of a function as read-only variables of level 1, at most five. */
    method VisitInputParameters(params: seq<SchemaType>) returns (types: seq<VType>, names: seq<Name>)
      requires Ready(tracker, 0)
      modifies tracker
      ensures Ready(tracker, 1) && GoodTypes(types) && types == ParameterTypes(params, MAX_FUNCTION_INPUT)
      ensures ParameterNames(names, types, old(Scope(tracker)))
      ensures Scope(tracker) == old(Scope(tracker)) + ParameterDecls(names, types)
    {
      hide Ready, Scope;
      types, names := [], [];
      ReadyAbove(tracker, 0);
      for i := 0 to |params|
        invariant Ready(tracker, 1) && GoodTypes(types) && |names| == |types| == i <= MAX_FUNCTION_INPUT
        invariant forall j :: 0 <= j < i ==> types[j] == ExtractType(params[j])
        invariant ParameterNames(names, types, old(Scope(tracker)))
        invariant Scope(tracker) == old(Scope(tracker)) + ParameterDecls(names, types)
      {
        if i == MAX_FUNCTION_INPUT {
          break;
        }
        var t := ExtractType(params[i]);
        ghost var before := Scope(tracker);
        var name := RegisterLocal(Plain, 1, t, false);
        ParametersAppend(names, types, name, t, old(Scope(tracker)), before);
        types, names := types + [t], names + [name];
      }
    }

    /** The body of one function, from an empty level 1 that holds its parameters. */
    method VisitBody(block: Block, ghost globals: Env) returns (body: seq<OStmt>)
      requires level == 0 && forCount == 0 && opStack == [] && !isConstant
      requires Ready(tracker, 1) && GoodSignatures(Context().callable) && GoodTypes(functionOutput)
      requires globals <= Scope(tracker) && (forall d :: d in globals ==> d.level == 0)
      requires forall d :: d in Scope(tracker) - globals ==> d.level == 1
      modifies this`mutLevel, this`opStack, this`raised, this`level, this`forCount, tracker
      ensures level == 0 && forCount == 0 && opStack == []
      ensures Ready(tracker, 0) && Scope(tracker) == globals
      ensures BlockOk(body, Context(), old(Scope(tracker)), 1, false)
      ensures BlockEffect(body, Context().callable, false) <= mutLevel
      ensures Climbs(PURE, mutLevel, BlockEffect(body, Context().callable, false), BlockMentions(Dropping, block))
      ensures BlockMirrors(block, Place(Context(), |funcs.functions|, false, 1, py), old(Scope(tracker)), body)
      ensures RaisedBetween(old(raised), raised, BlockCertain(py, block), BlockMentions(Raising, block), Context())
    {
      hide Ready, Scope, BlockOk, BlockEffect, BlockMirrors, BlockMentions, BlockCertain, PairInSigs, Has;
      mutLevel := 0;
      ghost var inner := Scope(tracker);
      level := 1;
      body := VisitBlock(block);
      NeedsIs(body);
      BodyAdds(body, Context(), inner, Scope(tracker), 1, false, mutLevel);
      LeaveLevel(true, globals);
    }

    /** Converts one function whose callees are finished. */
    method VisitFunction(id: nat, msg: FuncMessage) returns (names: seq<Name>)
      requires level == 0 && forCount == 0 && opStack == [] && !isConstant && Ready(tracker, 0)
      requires funcs.Valid() && id < |funcs.functions|
      requires id !in CallGraph.Callees(callMap, id)
      requires GoodSignatures(Signatures(CallGraph.Callees(callMap, id), funcs.functions))
      modifies this`mutLevel, this`opStack, this`raised, this`level, this`forCount, this`currentFunc,
               this`functionOutput, tracker, funcs`functions
      ensures level == 0 && forCount == 0 && opStack == [] && Ready(tracker, 0)
      ensures funcs.Valid() && |funcs.functions| == |old(funcs.functions)|
      ensures funcs.functions == old(funcs.functions)[id := funcs.functions[id]]
      ensures Scope(tracker) == old(Scope(tracker)) && currentFunc == id &&
              functionOutput == funcs.functions[id].outputs
      ensures funcs.functions[id].external == old(funcs.functions)[id].external
      ensures funcs.functions[id].mutability == Max(mutLevel, msg.mut)
      ensures FunctionOk(py, funcs.functions, CallGraph.Callees(callMap, id), id, names, msg, Scope(tracker))
      ensures RaisedBetween(old(raised), raised, BlockCertain(py, msg.block), BlockMentions(Raising, msg.block),
                            Context())
    {
      hide Ready, Scope, BlockOk, BlockEffect, BlockMirrors, BlockMentions, BlockCertain, PairInSigs, Has;
      ghost var globals := Scope(tracker);
      EnvBelow(tracker, 0);
      var types: seq<VType>;
      types, names := VisitInputParameters(msg.inputParams);
      var outputs := ParameterTypes(msg.outputParams, MAX_FUNCTION_OUTPUT);
      var f := funcs.functions[id].(inputs := types, outputs := outputs);
      SignaturesElsewhere(CallGraph.Callees(callMap, id), funcs.functions, id, f);
      funcs.Update(id, f);
      functionOutput := outputs;
      currentFunc := id;
      var body := VisitBody(msg.block, globals);
      var done := f.(mutability := Max(mutLevel, msg.mut), body := body);
      SignaturesElsewhere(CallGraph.Callees(callMap, id), funcs.functions, id, done);
      funcs.Update(id, done);
    }

    // ----- the contract

    /** One storage variable, constant or immutable. The value of a constant mentions constants only. */
    method VarDeclGlobal(v: DeclMessage) returns (g: GlobalDecl)
      requires level == 0 && opStack == [] && !isConstant && Ready(tracker, 0)
      modifies this`mutLevel, this`opStack, this`raised, this`isConstant, tracker
      ensures opStack == [] && !isConstant && Ready(tracker, 0)
      ensures GlobalMirrors(py, v, g, old(Scope(tracker))) && GlobalOk(g, old(Scope(tracker)))
      ensures Scope(tracker) == old(Scope(tracker)) + {GlobalAsDecl(g)}
      ensures GlobalRaisedAs(py, old(raised), raised, v, old(Scope(tracker)))
    {
      hide VarsAgree, ListsAgree, SizedAgree, Numbered, WellTyped, Readable, Effect, Mirrors, RaisedAs;
      var t := ExtractType(v.t);
      var value: Option<OExpr> := None;
      if v.mut != Plain {
        isConstant := v.mut == Constant;
        var x := VisitTyped(v.value, t);
        isConstant := false;
        value := Some(x);
      }
      ghost var before := tracker.live;
      var name := tracker.CreateAndRegisterVariable(t, 0, v.mut);
      g := GlobalDecl(name, t, v.mut, value);
      ScopeAppend(before, GlobalAsDecl(g));
      assert forall d :: d in before ==> WellPlaced(d, 0);
    }

    method VisitGlobals(decls: seq<DeclMessage>) returns (gs: seq<GlobalDecl>)
      requires level == 0 && opStack == [] && !isConstant && Ready(tracker, 0) && Scope(tracker) == {}
      modifies this`mutLevel, this`opStack, this`raised, this`isConstant, tracker
      ensures opStack == [] && !isConstant && Ready(tracker, 0)
      ensures GlobalsMirror(py, decls, gs) && GlobalsOk(gs) && Scope(tracker) == GlobalEnv(gs)
      ensures old(raised) || GlobalsCertain(py, decls) ==> raised
      ensures raised ==> old(raised) || GlobalsMention(Raising, decls)
    {
      hide Ready, Scope, GlobalOk, GlobalMirrors, GlobalRaisedAs, GlobalMentions, GlobalCertain;
      gs := [];
      for i := 0 to |decls|
        invariant opStack == [] && !isConstant && Ready(tracker, 0)
        invariant |gs| == i <= MAX_STORAGE_VARIABLES && GlobalsOk(gs) && Scope(tracker) == GlobalEnv(gs)
        invariant forall j :: 0 <= j < i ==> GlobalMirrors(py, decls[j], gs[j], GlobalEnv(gs[..j]))
        invariant old(raised) || (exists j :: 0 <= j < i && GlobalCertain(py, decls[j])) ==> raised
        invariant raised ==> old(raised) || GlobalsMention(Raising, decls)
      {
        if i >= MAX_STORAGE_VARIABLES {
          break;
        }
        ghost var before, env := raised, Scope(tracker);
        var g := VarDeclGlobal(decls[i]);
        GlobalRaises(py, before, raised, decls, i, env);
        GlobalsAppend(gs, g);
        EarlierGlobals(gs, g);
        gs := gs + [g];
      }
    }

    method VisitInit(init: InitMessage, gs: seq<GlobalDecl>) returns (out: InitOutput)
      requires level == 0 && forCount == 0 && opStack == [] && !isConstant && functionOutput == []
      requires Ready(tracker, 0) && GlobalsOk(gs) && Scope(tracker) == GlobalEnv(gs)
      requires Context().callable == map[] && funcs.functions == []
      modifies this`mutLevel, this`opStack, this`raised, this`level, this`forCount, tracker
      ensures level == 0 && forCount == 0 && opStack == []
      ensures Ready(tracker, 0) && Scope(tracker) == GlobalEnv(gs) && InitOk(py, out, init, gs)
      ensures old(raised) || BlockCertain(py, init.block) ==> raised
      ensures raised ==> old(raised) || BlockMentions(Raising, init.block)
    {
      hide Ready, Scope, BlockOk, BlockEffect, BlockMirrors, BlockMentions, BlockCertain, Has;
      EnvBelow(tracker, 0);
      var types, names := VisitInputParameters(init.inputParams);
      var body := VisitBody(init.block, GlobalEnv(gs));
      out := InitOutput(names, types, Immutables(gs), body);
    }

    method VisitDefaultFunc(msg: DefaultMessage, ghost globals: Env) returns (out: DefaultOutput)
      requires level == 0 && forCount == 0 && opStack == [] && !isConstant
      requires Ready(tracker, 0) && Scope(tracker) == globals && GoodSignatures(Context().callable)
      modifies this`mutLevel, this`opStack, this`raised, this`level, this`forCount, this`functionOutput, tracker
      ensures DefaultOk(py, out, msg, Context().callable, |funcs.functions|, globals)
      ensures RaisedBetween(old(raised), raised, BlockCertain(py, msg.block), BlockMentions(Raising, msg.block),
                            Context())
      ensures SignatureOf(functionOutput, msg.outputParams, MAX_FUNCTION_OUTPUT)
    {
      hide Ready, Scope, BlockOk, BlockEffect, BlockMirrors, BlockMentions, BlockCertain, PairInSigs, Signatures, Has;
      EnvBelow(tracker, 0);
      ReadyAbove(tracker, 0);
      functionOutput := ParameterTypes(msg.outputParams, MAX_FUNCTION_OUTPUT);
      var body := VisitBody(msg.block, globals);
      out := DefaultOutput(Max(mutLevel, msg.mut), functionOutput, body);
    }

    /** Converts the functions in the given order, callees first. */
    method VisitFunctions(ms: seq<FuncMessage>, order: seq<nat>, ghost globals: Env) returns (names: seq<seq<Name>>)
      requires level == 0 && forCount == 0 && opStack == [] && !isConstant
      requires Ready(tracker, 0) && Scope(tracker) == globals && funcs.Valid() && |funcs.functions| <= |ms|
      requires FunctionConverter.IsPermutation(order, |funcs.functions|)
      requires FunctionConverter.CalleesFirst(callMap, order)
      requires forall i :: 0 <= i < |funcs.functions| ==> funcs.functions[i].external == ms[i].external
      requires InputsOfMessage(funcs.functions, ms)
      requires |funcs.functions| == (if |ms| < MAX_FUNCTIONS then |ms| else MAX_FUNCTIONS)
      modifies this`mutLevel, this`opStack, this`raised, this`level, this`forCount, this`currentFunc,
               this`functionOutput, tracker, funcs`functions
      ensures level == 0 && forCount == 0 && opStack == [] && Ready(tracker, 0) && Scope(tracker) == globals
      ensures funcs.Valid() && |funcs.functions| == |old(funcs.functions)| && |names| == |order|
      ensures forall i :: 0 <= i < |funcs.functions| ==> funcs.functions[i].external == ms[i].external
      ensures Finished(py, funcs.functions, callMap, order, names, ms, globals) && InputsOfMessage(funcs.functions, ms)
      ensures currentFunc == if order == [] then old(currentFunc) else order[|order| - 1]
      ensures old(raised) || FunctionsCertain(py, ms) ==> raised
      ensures raised ==> old(raised) || FunctionsMention(Raising, ms)
    {
      hide Ready, Scope, FunctionOk, Finished, FunctionConverter.IsPermutation, FunctionConverter.CalleesFirst,
           FunctionsMention, FunctionsCertain, BlockCertain, BlockMentions, InputsOfMessage, PairInSigs, SignatureOf,
           Signatures, GoodSignatures, GoodTypes, CallGraph.Callees, RaisedBetween;
      names := [];
      NothingFinished(py, funcs.functions, callMap, ms, globals);
      assert order[..0] == [];
      PermutationBelow(order, |funcs.functions|);
      for k := 0 to |order|
        invariant level == 0 && forCount == 0 && opStack == [] && Ready(tracker, 0) && Scope(tracker) == globals
        invariant funcs.Valid() && |funcs.functions| == |old(funcs.functions)| && |names| == k
        invariant forall i :: 0 <= i < |funcs.functions| ==> funcs.functions[i].external == ms[i].external
        invariant Finished(py, funcs.functions, callMap, order[..k], names, ms, globals)
        invariant InputsOfMessage(funcs.functions, ms)
        invariant currentFunc == if k == 0 then old(currentFunc) else order[k - 1]
        invariant old(raised) || (exists p :: 0 <= p < k && BlockCertain(py, ms[order[p]].block)) ==> raised
        invariant raised ==> old(raised) || FunctionsMention(Raising, ms)
      {
        var id := order[k];
        ghost var before, was := funcs.functions, raised;
        NextIsReady(py, before, callMap, order, k, names, ms, globals);
        var ns := VisitFunction(id, ms[id]);
        OneMoreFinished(py, before, funcs.functions, callMap, order, k, names, ns, ms, globals);
        OneMoreInput(py, before, funcs.functions, id, CallGraph.Callees(callMap, id), ns, ms, globals);
        FunctionRaises(py, was, raised, funcs.functions, ms, id, CallGraph.Callees(callMap, id));
        names := names + [ns];
      }
      assert order[..|order|] == order;
      AllAreConverted(py, order, ms, |funcs.functions|);
    }

    /** Registers, orders and converts the functions, then puts them back in order of registration, each with
        its own parameter names. Fails exactly where ordering raises. */
    method VisitAllFunctions(ms: seq<FuncMessage>, ghost globals: Env)
      returns (failed: bool, definitions: seq<FuncTracker.Definition>)
      requires level == 0 && forCount == 0 && opStack == [] && !isConstant && currentFunc == 0
      requires Ready(tracker, 0) && Scope(tracker) == globals
      requires funcs.Valid() && funcs.functions == [] && funcs.maxFunctions == MAX_FUNCTIONS
      modifies this`mutLevel, this`opStack, this`raised, this`level, this`forCount, this`currentFunc,
               this`functionOutput, this`callMap, tracker, funcs
      ensures level == 0 && forCount == 0 && opStack == []
      ensures failed <==> Clashes(ms)
      ensures !failed ==> Ready(tracker, 0) && Scope(tracker) == globals && FunctionsOk(py, definitions, ms, globals)
      ensures !failed ==> Functions(definitions) == funcs.functions && GoodSignatures(Context().callable)
      ensures !failed ==> Context().callable == CallableAfterAll(ms, funcs.functions)
      ensures !failed ==> InputsOfMessage(funcs.functions, ms)
      ensures old(raised) || (!failed && FunctionsCertain(py, ms)) ==> raised
      ensures raised ==> old(raised) || FunctionsMention(Raising, ms)
    {
      hide Ready, Scope, FunctionOk, Finished, CallGraph.Acyclic, CallGraph.WellFormed, CallGraph.Sanitized,
           FunctionConverter.CalleesFirst, FunctionConverter.SomePassClashes, FunctionConverter.OnlyInternal,
           CallGraph.SameCalls, FunctionConverter.CallsOf, FunctionConverter.OrderUpTo, FunctionsMention,
           FunctionsCertain;
      definitions := [];
      funcs.RegisterFunctions(ms);
      var converter := new FunctionConverter.Converter(funcs);
      var order: seq<nat>;
      failed, order := converter.SetupOrder(ms);
      if failed {
        return;
      }
      callMap := converter.callTree;
      ghost var registered := funcs.functions;
      var names := VisitFunctions(ms, order, globals);
      SameVisibility(registered, funcs.functions, ms, callMap);
      definitions := Assemble(order, names);
      DefinitionsOk(py, definitions, callMap, order, names, ms, globals, funcs.functions);
      FunctionsAre(py, definitions, ms, callMap, globals);
      AllSignaturesGood(py, funcs.functions, callMap, order, names, ms, globals, currentFunc);
      CallableIs(ms, callMap, order, currentFunc, funcs.functions);
    }

    method Assemble(order: seq<nat>, names: seq<seq<Name>>) returns (ds: seq<FuncTracker.Definition>)
      requires FunctionConverter.IsPermutation(order, |funcs.functions|) && |names| == |order|
      ensures |ds| == |funcs.functions|
      ensures forall i: nat :: i < |ds| ==> CallGraph.IndexOf(order, i) < |order|
      ensures forall i: nat :: i < |ds| ==>
                ds[i] == FuncTracker.Definition(funcs.functions[i], names[CallGraph.IndexOf(order, i)])
    {
      ds := [];
      PermutationIndex(order, |funcs.functions|);
      for i := 0 to |funcs.functions|
        invariant |ds| == i
        invariant forall j: nat :: j < i ==>
                    ds[j] == FuncTracker.Definition(funcs.functions[j], names[CallGraph.IndexOf(order, j)])
      {
        ds := ds + [FuncTracker.Definition(funcs.functions[i], names[CallGraph.IndexOf(order, i)])];
      }
    }

    /** The whole conversion. It fails where the source raises: always when a pass over the call graph clashes or
        something is certain to raise, otherwise only where something that may raise is mentioned. When it does not
        fail, everything it emits is right. */
    method Visit(contract: Contract) returns (failed: bool, out: ContractOutput)
      requires level == 0 && forCount == 0 && opStack == [] && !isConstant && !raised && functionOutput == []
      requires callMap == map[] && currentFunc == 0
      requires tracker.Valid() && tracker.NamesNumbered() && tracker.live == []
      requires funcs.Valid() && funcs.functions == [] && funcs.maxFunctions == MAX_FUNCTIONS
      modifies this, tracker, funcs
      ensures Clashes(contract.functions) || Certain(py, contract) ==> failed
      ensures failed ==> Clashes(contract.functions) || Mentions(Raising, contract)
      ensures !failed ==> ContractOk(py, out, contract)
    {
      hide Ready, Scope, FunctionsOk, InitOk, DefaultOk, GlobalsOk, GlobalsMirror, Clashes, BlockCertain, BlockMentions,
           GlobalsCertain, GlobalsMention, FunctionsCertain, FunctionsMention, PairInSigs, ParamsMention, Signatures,
           GoodSignatures, CallableAfterAll, InputsOfMessage, SignatureOf, Immutables, GlobalEnv, Functions,
           CallGraph.Callees;
      NothingInScope(tracker);
      var gs := VisitGlobals(contract.decls);
      var init: Option<InitOutput> := None;
      if contract.init.flag || |Immutables(gs)| > 0 {
        NothingCallable(callMap, currentFunc, funcs.functions);
        var i := VisitInit(contract.init, gs);
        init := Some(i);
      }
      var definitions: seq<FuncTracker.Definition>;
      failed, definitions := VisitAllFunctions(contract.functions, GlobalEnv(gs));
      out := ContractOutput(gs, init, definitions, None);
      if failed {
        return;
      }
      if contract.defFunc.Some? {
        var d := VisitDefaultFunc(contract.defFunc.value, GlobalEnv(gs));
        out := out.(default := Some(d));
        if PairInSigs(Context()) {
          PairIsMentioned(funcs.functions, contract.functions, CallGraph.Callees(callMap, currentFunc), functionOutput,
                          contract.defFunc.value.outputParams);
        }
      }
      failed := raised;
    }
  }

  /** Converts a message from the beginning. */
  method Convert(contract: Contract, py: Python) returns (failed: bool, out: ContractOutput)
    ensures Clashes(contract.functions) || Certain(py, contract) ==> failed
    ensures failed ==> Clashes(contract.functions) || Mentions(Raising, contract)
    ensures !failed ==> ContractOk(py, out, contract)
  {
    hide ContractOk, Certain, Mentions, Clashes;
    var tracker := new Tracker();
    var funcs := new FuncTracker.FunctionTracker(MAX_FUNCTIONS);
    var converter := new Converter(tracker, funcs, py);
    failed, out := converter.Visit(contract);
  }

  /** Not every message becomes a contract: this one has no calls at all, and fails whatever is chosen. */
  method ConvertPairArray(py: Python) returns (failed: bool)
    ensures failed
  {
    hide *;
    PairArrayWitness(py);
    var out;
    failed, out := Convert(PAIR_ARRAY, py);
  }

  /** Nor does this one, without an array in it. */
  method ConvertComplexPower(py: Python) returns (failed: bool)
    ensures failed
  {
    hide *;
    ComplexPowerWitness(py);
    var out;
    failed, out := Convert(COMPLEX_POWER, py);
  }

  // ----- the functions of a contract

  lemma EarlierGlobals(gs: seq<GlobalDecl>, g: GlobalDecl)
    ensures forall j :: 0 <= j < |gs| ==> (gs + [g])[..j] == gs[..j]
    ensures (gs + [g])[..|gs|] == gs
  {
  }

  lemma NothingCallable(calls: CallGraph.Graph, f: nat, fs: seq<FuncTracker.Function>)
    requires calls == map[]
    ensures Signatures(CallGraph.Callees(calls, f), fs) == map[]
  {
  }

  lemma OneMoreInput(py: Python, fs: seq<FuncTracker.Function>, fs': seq<FuncTracker.Function>, id: nat,
                     callees: seq<nat>, names: seq<Name>, ms: seq<FuncMessage>, globals: Env)
    requires InputsOfMessage(fs, ms) && id < |fs| == |fs'| && fs' == fs[id := fs'[id]]
    requires FunctionOk(py, fs', callees, id, names, ms[id], globals)
    ensures InputsOfMessage(fs', ms)
    ensures SignatureOf(fs'[id].outputs, ms[id].outputParams, MAX_FUNCTION_OUTPUT)
  {
    hide BlockOk, BlockEffect, BlockMirrors, SignatureOf;
  }

  /** What converting function id does to the flag, in terms of the message. */
  lemma FunctionRaises(py: Python, before: bool, after: bool, fs: seq<FuncTracker.Function>, ms: seq<FuncMessage>,
                       id: nat, callees: seq<nat>)
    requires InputsOfMessage(fs, ms) && id < |fs|
    requires SignatureOf(fs[id].outputs, ms[id].outputParams, MAX_FUNCTION_OUTPUT)
    requires RaisedBetween(before, after, BlockCertain(py, ms[id].block), BlockMentions(Raising, ms[id].block),
                           Ctx(Signatures(callees, fs), fs[id].outputs))
    ensures before || BlockCertain(py, ms[id].block) ==> after
    ensures after ==> before || FunctionsMention(Raising, ms)
  {
    hide BlockCertain, BlockMentions, PairInSigs, ParamsMention, Signatures;
    if PairInSigs(Ctx(Signatures(callees, fs), fs[id].outputs)) {
      PairIsMentioned(fs, ms, callees, fs[id].outputs, ms[id].outputParams);
    }
    assert BlockMentions(Raising, ms[id].block) || ParamsMention(Raising, ms[id].outputParams, MAX_FUNCTION_OUTPUT) ==>
             FunctionMentions(Raising, ms[id]);
  }

  lemma AllAreConverted(py: Python, order: seq<nat>, ms: seq<FuncMessage>, n: nat)
    requires FunctionConverter.IsPermutation(order, n) && n == (if |ms| < MAX_FUNCTIONS then |ms| else MAX_FUNCTIONS)
    requires forall p :: 0 <= p < |order| ==> order[p] < |ms|
    ensures FunctionsCertain(py, ms) ==> exists p :: 0 <= p < |order| && BlockCertain(py, ms[order[p]].block)
  {
    hide BlockCertain;
    if FunctionsCertain(py, ms) {
      var i: nat :| i < |ms| && i < MAX_FUNCTIONS && BlockCertain(py, ms[i].block);
      PermutationIndex(order, n);
      assert BlockCertain(py, ms[order[CallGraph.IndexOf(order, i)]].block);
    }
  }

  lemma CallableIs(ms: seq<FuncMessage>, calls: CallGraph.Graph, order: seq<nat>, current: nat,
                   fs: seq<FuncTracker.Function>)
    requires var n := |FuncTracker.Registered(ms, MAX_FUNCTIONS)|;
             && CallGraph.SameCalls(calls, SanitizedCalls(ms))
             && CallGraph.WellFormed(calls, n) && CallGraph.Acyclic(calls)
             && order == FunctionConverter.OrderUpTo(calls, n, n)
    requires current == if order == [] then 0 else order[|order| - 1]
    ensures Signatures(CallGraph.Callees(calls, current), fs) == CallableAfterAll(ms, fs)
  {
    hide CallGraph.WellFormed, CallGraph.Acyclic, SanitizedCalls, CallGraph.Callees, FunctionConverter.OrderUpTo;
    SanitizedCallsAreSafe(ms);
    var n := |FuncTracker.Registered(ms, MAX_FUNCTIONS)|;
    FunctionConverter.SameOrder(calls, SanitizedCalls(ms), n, n);
  }

  // ----- levels

  lemma EnvBelow(tracker: Tracker, level: nat)
    requires Ready(tracker, level)
    ensures forall d :: d in Scope(tracker) ==> d.level < level + 1
  {
    forall d | d in Scope(tracker) ensures d.level < level + 1 {
      assert WellPlaced(d, level);
    }
  }

  lemma ReadyAbove(tracker: Tracker, level: nat)
    requires Ready(tracker, level)
    ensures Ready(tracker, level + 1)
  {
    forall d | d in tracker.live ensures WellPlaced(d, level + 1) {
      assert WellPlaced(d, level);
    }
  }

  lemma NothingInScope(tracker: Tracker)
    requires tracker.Valid() && tracker.NamesNumbered() && tracker.live == []
    ensures Ready(tracker, 0) && Scope(tracker) == {}
  {
  }

  /** The declared type of a variable that may be written where t is asked for. */
  ghost function WritableAs(tracker: Tracker, n: Name, t: VType): (declared: VType)
    requires exists d :: d in tracker.live && d.mutable && Offers(d, n, t, false)
    reads tracker
    ensures TargetOk(Target(n, t, declared), Scope(tracker), false)
  {
    var d :| d in tracker.live && d.mutable && Offers(d, n, t, false);
    assert d in Scope(tracker);
    TypeBy(d, n).value
  }
}
