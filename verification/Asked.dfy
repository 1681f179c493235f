/** The types at which writing an expression looks up variables, and what follows for the one declaration whose
    own initialiser may mention it. */
module Asked {
  import opened Types
  import opened Declarations
  import opened Emitted
  import opened IntBounds
  import PyInt
  import opened Literals
  import opened Checker
  import opened Soundness
  import opened BlockSoundness
  import opened Messages
  import opened Mirror
  import opened Sizing
  import opened PyNumber

  /** Every type at which a variable may be looked up while message e is visited at type t. */
  function AskedBy(e: Expr, t: VType): set<VType>
    decreases e, 3
  {
    match t
    case Int(_, _) =>
      if e.BinOp? && Arithmetic(e.op) then AskedBy(e.l, t) + AskedBy(e.r, t)
      else if e.UnOp? then AskedBy(e.e, t)
      else AskedByLeaf(e, t)
    case Bool => AskedByBool(e)
    case Decimal =>
      if e.BinOp? && Arithmetic(e.op) then AskedBy(e.l, t) + AskedBy(e.r, t)
      else if e.UnOp? then AskedBy(e.e, t)
      else AskedByLeaf(e, t)
    case Address => AskedByAddress(e)
    case BytesM(_) => if e.HashOf? then AskedBy(e.arg.e, HashedType(e.arg)) else AskedByLeaf(e, t)
    case Bytes(m) =>
      if e.RawCallExpr? && m > 0 then AskedByRawCall(e.rc) + AskedByLeaf(e, t)
      else if e.ConcatOf? then AskedByConcat(e, t)
      else AskedByLeaf(e, t)
    case Str(_) => if e.ConcatOf? then AskedByConcat(e, t) else AskedByLeaf(e, t)
    case FixedList(_, _) => AskedByList(e, t)
    case DynArray(_, _) => AskedByList(e, t)
    case NoType => {}
  }

  /** A variable is looked up at the type itself, a converted expression at the type it is converted from. */
  function AskedByLeaf(e: Expr, t: VType): set<VType>
    decreases e, 1
  {
    if e.VarRef? then {t}
    else if ConversionSource(e, t).Some? then AskedBy(e.e, ConversionSource(e, t).value)
    else {}
  }

  function AskedByBool(e: Expr): set<VType>
    decreases e, 2
  {
    if e.BoolBinOp? && Logical(e.op) then AskedBy(e.l, Bool) + AskedBy(e.r, Bool)
    else if e.BoolUnOp? then AskedBy(e.e, Bool)
    else if (e.IntBoolBinOp? || e.DecBoolBinOp?) && Comparison(e.op) then
      var t := if e.IntBoolBinOp? then UINT else Decimal;
      AskedBy(e.l, t) + AskedBy(e.r, t)
    else if e.RawCallExpr? then AskedByRawCall(e.rc) + AskedByLeaf(e, Bool)
    else AskedByLeaf(e, Bool)
  }

  function AskedByOption(e: Option<Expr>, t: VType): set<VType>
    decreases e, 0
  {
    if e.Some? then AskedBy(e.value, t) else {}
  }

  /** The types asked for by gas and value, the arguments that are written after the response is declared. */
  function AskedByRest(rc: RawCallMessage): set<VType>
    decreases rc, 0
  {
    AskedByOption(rc.gas, UINT) + AskedByOption(rc.value, UINT)
  }

  function AskedByRawCall(rc: RawCallMessage): set<VType>
    decreases rc, 1
  {
    AskedBy(rc.to, Address) + AskedBy(rc.data, Bytes(100)) + AskedByRest(rc)
  }

  function AskedByAddress(e: Expr): set<VType>
    decreases e, 2
  {
    AskedByLeaf(e, Address) +
    match e
    case CreateProxy(target, value, salt) =>
      AskedBy(target, Address) + AskedByOption(value, UINT) + AskedByOption(salt, BytesM(32))
    case CreateFromBlueprint(target, rawArgs, value, codeOffset, salt) =>
      AskedBy(target, Address) + (if rawArgs.Some? then AskedBy(rawArgs.value.arg, Bytes(100)) else {}) +
      AskedByOption(value, UINT) + AskedByOption(codeOffset, UINT) + AskedByOption(salt, BytesM(32))
    case EcRec(hash, v8, vi, rb, ri, sb, si) =>
      AskedBy(hash, BytesM(32)) +
      (if v8.Some? then AskedBy(v8.value, Int(8, false)) else AskedBy(vi, UINT)) +
      (if rb.Some? then AskedBy(rb.value, BytesM(32)) else AskedBy(ri, UINT)) +
      (if sb.Some? then AskedBy(sb.value, BytesM(32)) else AskedBy(si, UINT))
    case _ => {}
  }

  function AskedByPart(part: Part, t: VType, size: nat): set<VType>
    decreases part
  {
    if t.Bytes? && part.bm.Some? && size != 0 then AskedBy(part.bm.value, BytesM(if size <= 32 then size else 32))
    else AskedBy(part.e, if t.Str? then Str(size) else Bytes(size))
  }

  function AskedByParts(parts: seq<Part>, t: VType): set<VType>
    decreases parts
  {
    if parts == [] then {}
    else
      var last := parts[|parts| - 1];
      AskedByParts(parts[..|parts| - 1], t) + AskedByPart(last, t, last.size)
  }

  function AskedByConcat(e: Expr, t: VType): set<VType>
    requires e.ConcatOf? && HasCapacity(t)
    decreases e, 0
  {
    var (a, b) := ScaledSizes(e.a.size, e.b.size, t.m);
    AskedByPart(e.a, t, a) + AskedByPart(e.b, t, b) + AskedByParts(e.c, t)
  }

  function AskedByItems(es: seq<Expr>, t: VType): set<VType>
    decreases es, 0
  {
    if es == [] then {} else AskedByItems(es[..|es| - 1], t) + AskedBy(es[|es| - 1], t)
  }

  function AskedByList(e: Expr, t: VType): set<VType>
    requires IsList(t)
    decreases e, 2
  {
    if !e.ListOf? then {}
    else
      AskedBy(e.rexp, t.base) + AskedByItems(e.exps, t.base) +
      match e.other
      case ListVar => {t}
      case EcAddOf(x, y) => AskedBy(x, POINT) + AskedBy(y, POINT)
      case EcMulOf(point, scalar) => AskedBy(point, POINT) + AskedBy(scalar, UINT)
      case NoOther => {}
  }

  // ----- every name that is written was looked up at one of these types

  /** Every name in the expression is offered where one of these types is asked for. */
  ghost predicate Covered(out: OExpr, ts: set<VType>, env: Env) {
    forall n :: n in Refs(out) ==> OfferedAt(n, ts, env)
  }

  ghost predicate OfferedAt(n: Name, ts: set<VType>, env: Env) {
    exists t :: t in ts && NameOk(n, t, env)
  }

  ghost predicate ArgsCovered(args: seq<Arg>, ts: set<VType>, env: Env) {
    forall i :: 0 <= i < |args| ==> Covered(args[i].e, ts, env)
  }

  lemma CoveredMore(out: OExpr, ts: set<VType>, ts': set<VType>, env: Env)
    requires Covered(out, ts, env) && ts <= ts'
    ensures Covered(out, ts', env)
  {
    hide Refs, NameOk;
    forall n | n in Refs(out) ensures OfferedAt(n, ts', env) {
      assert OfferedAt(n, ts, env);
    }
  }

  lemma {:induction false} ArgsCoverCall(f: Builtin, args: seq<Arg>, ts: set<VType>, env: Env)
    requires ArgsCovered(args, ts, env)
    ensures Covered(OApp(f, args), ts, env)
    decreases |args|
  {
    hide NameOk;
    assert Refs(OApp(f, args)) == RefsOfArgs(args);
    if args != [] {
      var front := args[..|args| - 1];
      assert RefsOfArgs(args) == Refs(OApp(f, front)) + RefsOfArg(args[|args| - 1]);
      assert ArgsCovered(front, ts, env);
      ArgsCoverCall(f, front, ts, env);
      assert Covered(args[|args| - 1].e, ts, env);
      forall n | n in Refs(OApp(f, args)) ensures OfferedAt(n, ts, env) {
        assert n in Refs(OApp(f, front)) || n in Refs(args[|args| - 1].e);
      }
    }
  }

  lemma {:induction false} LiterallyCovered(out: OExpr, ts: set<VType>, env: Env)
    requires Literally(out)
    ensures Covered(out, ts, env)
  {
    if out.OApp? {
      forall i | 0 <= i < |out.args| ensures Covered(out.args[i].e, ts, env) {
        LiterallyCovered(out.args[i].e, ts, env);
      }
      ArgsCoverCall(out.f, out.args, ts, env);
    }
  }

  /** The checks of a binary operation bring no new names in. */
  lemma FoldedNames(py: Python, t: VType, l: OExpr, op: Op, r: OExpr)
    requires t.Int? && t.n > 0
    ensures Refs(Folded(py, t, l, op, r)) <= Refs(l) + Refs(r)
  {
    hide Eval, Value, Known, Generate;
    var (a, o, b) := CheckBinopBounds(py, t, l, op, r);
    assert Refs(OBin(o, a, b)) == Refs(a) + Refs(b);
  }

  lemma ConvertedNames(py: Python, e: Expr, from: VType, t: VType, inner: OExpr)
    ensures Refs(Converted(py, e, from, t, inner)) <= Refs(inner)
  {
    hide Eval, Value, Generate, Refs;
    var a := Converted(py, e, from, t, inner).args[0];
    NamesOfOne(Convert(t), a);
    NamesOfNumber(a.e);
  }

  lemma NamesOfNumber(e: OExpr)
    ensures e.OInt? ==> Refs(e) == {}
    ensures e.OMinus? ==> Refs(e) == Refs(e.e)
  {
  }

  lemma NamesOfOne(f: Builtin, a: Arg)
    ensures Refs(OApp(f, [a])) == Refs(a.e)
  {
    assert [a][..0] == [];
    assert RefsOfArgs([a]) == RefsOfArgs([]) + RefsOfArg(a);
  }

  /** For every message, every choice and every scope: a name that is written for e at type t was offered where
      one of the types asked for by e was looked up. */
  lemma {:induction false} NamesAreOffered(e: Expr, t: VType, sight: Sight, out: OExpr)
    requires Mirrors(e, t, sight, out)
    ensures Covered(out, AskedBy(e, t), sight.env)
    decreases e, 3
  {
    hide Covered, AskedByLeaf, AskedByBool, AskedByAddress, AskedByRawCall, AskedByConcat, AskedByList, LeafMirrors,
         IntMirrors, BoolMirrors, DecimalMirrors, AddressMirrors, RawCallMirrors, ConcatMirrors, ListMirrors,
         HashMirrors;
    match t {
      case Int(_, _) => IntCovered(e, t, sight, out);
      case Bool => BoolCovered(e, sight, out);
      case Decimal => DecimalCovered(e, sight, out);
      case Address => AddressCovered(e, sight, out);
      case BytesM(_) => BytesMCovered(e, t, sight, out);
      case Bytes(m) =>
        if e.RawCallExpr? && !sight.constant && m > 0 {
          RawCallCovered(e.rc, m, sight, out);
          CoveredMore(out, AskedByRawCall(e.rc), AskedBy(e, t), sight.env);
        } else if e.ConcatOf? {
          ConcatCovered(e, t, sight, out);
        } else {
          LeafCovered(e, t, sight, out);
          CoveredMore(out, AskedByLeaf(e, t), AskedBy(e, t), sight.env);
        }
      case Str(_) => if e.ConcatOf? { ConcatCovered(e, t, sight, out); } else { LeafCovered(e, t, sight, out); }
      case FixedList(_, _) => ListCovered(e, t, sight, out);
      case DynArray(_, _) => ListCovered(e, t, sight, out);
      case NoType =>
    }
  }

  lemma {:induction false} LeafCovered(e: Expr, t: VType, sight: Sight, out: OExpr)
    requires LeafMirrors(e, t, sight, out)
    ensures Covered(out, AskedByLeaf(e, t), sight.env)
    decreases e, 1
  {
    hide Mirrors, AskedBy, NameOk, Converted;
    if e.VarRef? {
      if out.ORef? { assert OfferedAt(out.name, AskedByLeaf(e, t), sight.env); }
    } else if ConversionSource(e, t).Some? {
      var from := ConversionSource(e, t).value;
      var inner :| Mirrors(e.e, from, sight, inner) && out == Converted(sight.py, e, from, t, inner);
      NamesAreOffered(e.e, from, sight, inner);
      ConvertedNames(sight.py, e, from, t, inner);
    }
  }

  lemma {:induction false} IntCovered(e: Expr, t: VType, sight: Sight, out: OExpr)
    requires IntMirrors(e, t, sight, out)
    ensures Covered(out, AskedBy(e, t), sight.env)
    decreases e, 2
  {
    hide Mirrors, LeafMirrors, Folded, CheckLiteralBounds, OfferedAt;
    if e.BinOp? && Arithmetic(e.op) {
      var l, r :| Mirrors(e.l, t, sight, l) && Mirrors(e.r, t, sight, r) && Enclosed(l) && Enclosed(r) &&
                  Bare(out) == Folded(sight.py, t, l, e.op, r);
      NamesAreOffered(e.l, t, sight, l);
      NamesAreOffered(e.r, t, sight, r);
      CoveredMore(l, AskedBy(e.l, t), AskedBy(e, t), sight.env);
      CoveredMore(r, AskedBy(e.r, t), AskedBy(e, t), sight.env);
      FoldedNames(sight.py, t, l, e.op, r);
      assert Refs(out) == Refs(Bare(out));
    } else if e.UnOp? {
      var x :| Mirrors(e.e, t, sight, x) && Enclosed(x) &&
               (if t.signed then Bare(out) == CheckLiteralBounds(sight.py, t, ONeg(x)) else out == x);
      NamesAreOffered(e.e, t, sight, x);
      assert Refs(out) == Refs(Bare(out)) && Refs(ONeg(x)) == Refs(x);
      assert Bare(out) == ONeg(x) || Bare(out).OInt? || out == x;
    } else {
      LeafCovered(e, t, sight, out);
    }
  }

  /** An operation, perhaps in parentheses, mentions what its operands mention. */
  lemma BinCovered(out: OExpr, ls: set<VType>, rs: set<VType>, env: Env)
    requires Bare(out).OBin? && Covered(Bare(out).l, ls, env) && Covered(Bare(out).r, rs, env)
    ensures Covered(out, ls + rs, env)
  {
    hide OfferedAt;
    CoveredMore(Bare(out).l, ls, ls + rs, env);
    CoveredMore(Bare(out).r, rs, ls + rs, env);
    assert Refs(out) == Refs(Bare(out));
  }

  lemma {:induction false} BoolCovered(e: Expr, sight: Sight, out: OExpr)
    requires BoolMirrors(e, sight, out)
    ensures Covered(out, AskedByBool(e), sight.env)
    decreases e, 2
  {
    hide Mirrors, LeafMirrors, RawCallMirrors, AskedBy, AskedByLeaf, OfferedAt;
    var bare := Bare(out);
    if e.BoolBinOp? && Logical(e.op) {
      NamesAreOffered(e.l, Bool, sight, bare.l);
      NamesAreOffered(e.r, Bool, sight, bare.r);
      BinCovered(out, AskedBy(e.l, Bool), AskedBy(e.r, Bool), sight.env);
    } else if e.BoolUnOp? {
      NamesAreOffered(e.e, Bool, sight, bare.e);
      assert Refs(out) == Refs(bare) == Refs(bare.e);
    } else if (e.IntBoolBinOp? || e.DecBoolBinOp?) && Comparison(e.op) {
      var t := if e.IntBoolBinOp? then UINT else Decimal;
      NamesAreOffered(e.l, t, sight, bare.l);
      NamesAreOffered(e.r, t, sight, bare.r);
      BinCovered(out, AskedBy(e.l, t), AskedBy(e.r, t), sight.env);
    } else if e.RawCallExpr? && !sight.constant {
      RawCallCovered(e.rc, 0, sight, out);
      CoveredMore(out, AskedByRawCall(e.rc), AskedByBool(e), sight.env);
    } else {
      LeafCovered(e, Bool, sight, out);
      CoveredMore(out, AskedByLeaf(e, Bool), AskedByBool(e), sight.env);
    }
  }

  lemma {:induction false} DecimalCovered(e: Expr, sight: Sight, out: OExpr)
    requires DecimalMirrors(e, sight, out)
    ensures Covered(out, AskedBy(e, Decimal), sight.env)
    decreases e, 2
  {
    hide Mirrors, LeafMirrors, OfferedAt, AskedByLeaf;
    var bare := Bare(out);
    if e.BinOp? && Arithmetic(e.op) {
      NamesAreOffered(e.l, Decimal, sight, bare.l);
      NamesAreOffered(e.r, Decimal, sight, bare.r);
      BinCovered(out, AskedBy(e.l, Decimal), AskedBy(e.r, Decimal), sight.env);
    } else if e.UnOp? {
      NamesAreOffered(e.e, Decimal, sight, bare.e);
      assert Refs(out) == Refs(bare) == Refs(bare.e);
    } else {
      LeafCovered(e, Decimal, sight, out);
    }
  }

  // ----- calls

  lemma {:induction false} ArgCovered(e: Expr, t: VType, sight: Sight, args: seq<Arg>, i: nat, ts: set<VType>)
    requires ArgMirrors(e, t, sight, args, i) && AskedBy(e, t) <= ts
    ensures Covered(args[i].e, ts, sight.env)
    decreases e, 4
  {
    hide Mirrors, Covered, AskedBy;
    NamesAreOffered(e, t, sight, args[i].e);
    CoveredMore(args[i].e, AskedBy(e, t), ts, sight.env);
  }

  lemma {:induction false} OptionCovered(e: Option<Expr>, t: VType, sight: Sight, args: seq<Arg>, i: nat,
                                         ts: set<VType>)
    requires OptionMirrors(e, t, sight, args, i) && AskedByOption(e, t) <= ts
    ensures e.Some? ==> i < |args| && Covered(args[i].e, ts, sight.env)
    decreases e
  {
    hide Mirrors, Covered, AskedBy;
    if e.Some? { ArgCovered(e.value, t, sight, args, i, ts); }
  }

  /** An argument from its first field if that is given, otherwise from its second. */
  lemma {:induction false} EitherCovered(whole: Expr, given: Option<Expr>, t: VType, e: Expr, sight: Sight,
                                         args: seq<Arg>, i: nat, ts: set<VType>)
    requires e < whole && (given.Some? ==> given.value < whole)
    requires if given.Some? then ArgMirrors(given.value, t, sight, args, i) else ArgMirrors(e, UINT, sight, args, i)
    requires if given.Some? then AskedBy(given.value, t) <= ts else AskedBy(e, UINT) <= ts
    ensures Covered(args[i].e, ts, sight.env)
    decreases whole, 1
  {
    hide Mirrors, Covered, AskedBy;
    if given.Some? {
      ArgCovered(given.value, t, sight, args, i, ts);
    } else {
      ArgCovered(e, UINT, sight, args, i, ts);
    }
  }

  lemma {:induction false} BytesMCovered(e: Expr, t: VType, sight: Sight, out: OExpr)
    requires t.BytesM? && Mirrors(e, t, sight, out)
    ensures Covered(out, AskedBy(e, t), sight.env)
    decreases e, 2
  {
    hide ArgMirrors, LeafMirrors, Covered, AskedByLeaf;
    if e.HashOf? {
      var ts := AskedBy(e, t);
      var hash := if t.m == 32 then out else out.args[0].e;
      ArgCovered(e.arg.e, HashedType(e.arg), sight, hash.args, 0, ts);
      assert ArgsCovered(hash.args, ts, sight.env);
      ArgsCoverCall(Hash, hash.args, ts, sight.env);
      if t.m != 32 {
        assert ArgsCovered(out.args, ts, sight.env);
        ArgsCoverCall(out.f, out.args, ts, sight.env);
      }
    } else {
      LeafCovered(e, t, sight, out);
    }
  }

  /** By the time gas and value are written more may be in scope. */
  lemma {:induction false} RawCallArgsCovered(rc: RawCallMessage, sight: Sight, later: Sight, args: seq<Arg>)
    requires RawCallArgs(rc, sight, later, args)
    ensures ArgsCovered(args[..2], AskedByRawCall(rc), sight.env)
    ensures ArgsCovered(args[2..], AskedByRest(rc), later.env)
    decreases rc, 0
  {
    hide ArgMirrors, OptionMirrors, Covered, AskedBy, AskedByOption;
    ArgCovered(rc.to, Address, sight, args, 0, AskedByRawCall(rc));
    ArgCovered(rc.data, Bytes(100), sight, args, 1, AskedByRawCall(rc));
    OptionCovered(rc.gas, UINT, later, args, 2, AskedByRest(rc));
    OptionCovered(rc.value, UINT, later, args, 2 + Given(rc.gas), AskedByRest(rc));
  }

  lemma {:induction false} RawCallCovered(rc: RawCallMessage, size: nat, sight: Sight, out: OExpr)
    requires RawCallMirrors(rc, size, sight, out)
    ensures Covered(out, AskedByRawCall(rc), sight.env)
    decreases rc, 1
  {
    hide RawCallArgs, Covered, AskedByRest, AskedBy;
    RawCallArgsCovered(rc, sight, sight, out.args);
    RawArgCount(rc, sight, sight, out.args);
    var ts := AskedByRawCall(rc);
    forall i | 0 <= i < |out.args| ensures Covered(out.args[i].e, ts, sight.env) {
      if i < 2 {
        assert out.args[i] == out.args[..2][i];
      } else {
        assert out.args[i] == out.args[2..][i - 2];
        CoveredMore(out.args[i].e, AskedByRest(rc), ts, sight.env);
      }
    }
    ArgsCoverCall(out.f, out.args, ts, sight.env);
  }

  lemma RawArgCount(rc: RawCallMessage, sight: Sight, later: Sight, args: seq<Arg>)
    requires RawCallArgs(rc, sight, later, args)
    ensures |args| == 2 + Given(rc.gas) + Given(rc.value)
  {
  }

  lemma {:induction false} AddressCovered(e: Expr, sight: Sight, out: OExpr)
    requires AddressMirrors(e, sight, out)
    ensures Covered(out, AskedByAddress(e), sight.env)
    decreases e, 2
  {
    hide ArgMirrors, OptionMirrors, LeafMirrors, Covered, AskedBy, AskedByLeaf;
    var ts := AskedByAddress(e);
    if e.CreateProxy? && !sight.constant {
      ArgCovered(e.target, Address, sight, out.args, 0, ts);
      OptionCovered(e.value, UINT, sight, out.args, 1, ts);
      OptionCovered(e.salt, BytesM(32), sight, out.args, 1 + Given(e.value), ts);
      ArgsCoverCall(out.f, out.args, ts, sight.env);
    } else if e.CreateFromBlueprint? && !sight.constant {
      BlueprintCovered(e, sight, out, ts);
    } else if e.EcRec? {
      ArgCovered(e.hash, BytesM(32), sight, out.args, 0, ts);
      EitherCovered(e, e.v8, Int(8, false), e.vi, sight, out.args, 1, ts);
      EitherCovered(e, e.rb, BytesM(32), e.ri, sight, out.args, 2, ts);
      EitherCovered(e, e.sb, BytesM(32), e.si, sight, out.args, 3, ts);
      ArgsCoverCall(out.f, out.args, ts, sight.env);
    } else {
      LeafCovered(e, Address, sight, out);
      CoveredMore(out, AskedByLeaf(e, Address), ts, sight.env);
    }
  }

  lemma {:induction false} BlueprintCovered(e: Expr, sight: Sight, out: OExpr, ts: set<VType>)
    requires e.CreateFromBlueprint? && BlueprintMirrors(e, sight, out) && ts == AskedByAddress(e)
    ensures Covered(out, ts, sight.env)
    decreases e, 1
  {
    hide ArgMirrors, OptionMirrors, LeafMirrors, Covered, AskedBy, AskedByLeaf;
    var raw := RawCount(e);
    ArgCovered(e.target, Address, sight, out.args, 0, ts);
    if raw == 1 { ArgCovered(e.rawArgs.value.arg, Bytes(100), sight, out.args, 1, ts); }
    OptionCovered(e.value, UINT, sight, out.args, 1 + raw, ts);
    OptionCovered(e.codeOffset, UINT, sight, out.args, 1 + raw + Given(e.value), ts);
    OptionCovered(e.salt, BytesM(32), sight, out.args, 1 + raw + Given(e.value) + Given(e.codeOffset), ts);
    ArgsCoverCall(out.f, out.args, ts, sight.env);
  }

  // ----- concatenations and lists

  lemma {:induction false} PartCovered(part: Part, t: VType, size: nat, sight: Sight, a: Arg, ts: set<VType>)
    requires PartMirrors(part, t, size, sight, a) && AskedByPart(part, t, size) <= ts
    ensures Covered(a.e, ts, sight.env)
    decreases part
  {
    hide Mirrors, Covered, AskedBy;
    if t.Bytes? && part.bm.Some? && size != 0 {
      NamesAreOffered(part.bm.value, a.at, sight, a.e);
      CoveredMore(a.e, AskedBy(part.bm.value, a.at), ts, sight.env);
    } else {
      NamesAreOffered(part.e, a.at, sight, a.e);
      CoveredMore(a.e, AskedBy(part.e, a.at), ts, sight.env);
    }
  }

  lemma {:induction false} PartsCovered(parts: seq<Part>, t: VType, sight: Sight, args: seq<Arg>, ts: set<VType>)
    requires MoreParts(parts, t, sight, args) && AskedByParts(parts, t) <= ts
    requires |args| >= 2 && Covered(args[0].e, ts, sight.env) && Covered(args[1].e, ts, sight.env)
    ensures ArgsCovered(args, ts, sight.env)
    decreases parts
  {
    hide Covered, PartMirrors, AskedByPart, TotalSize;
    if parts != [] {
      var front, last := parts[..|parts| - 1], parts[|parts| - 1];
      if MoreParts(front, t, sight, args) {
        PartsCovered(front, t, sight, args, ts);
      } else {
        PartsCovered(front, t, sight, args[..|args| - 1], ts);
        PartCovered(last, t, last.size, sight, args[|args| - 1], ts);
        forall i | 0 <= i < |args| ensures Covered(args[i].e, ts, sight.env) {
          if i < |args| - 1 { assert args[i] == args[..|args| - 1][i]; }
        }
      }
    }
  }

  lemma {:induction false} ConcatCovered(e: Expr, t: VType, sight: Sight, out: OExpr)
    requires e.ConcatOf? && HasCapacity(t) && ConcatMirrors(e, t, sight, out)
    ensures Covered(out, AskedByConcat(e, t), sight.env)
    decreases e, 0
  {
    hide Covered, PartMirrors, AskedByPart, AskedByParts, MoreParts, ScaledSizes;
    var ts := AskedByConcat(e, t);
    var (a, b) := ScaledSizes(e.a.size, e.b.size, t.m);
    PartCovered(e.a, t, a, sight, out.args[0], ts);
    PartCovered(e.b, t, b, sight, out.args[1], ts);
    PartsCovered(e.c, t, sight, out.args, ts);
    ArgsCoverCall(out.f, out.args, ts, sight.env);
  }

  lemma {:induction false} ItemAsked(es: seq<Expr>, t: VType, i: nat)
    requires i < |es|
    ensures AskedBy(es[i], t) <= AskedByItems(es, t)
    decreases |es|
  {
    hide AskedBy;
    if i < |es| - 1 { ItemAsked(es[..|es| - 1], t, i); }
  }

  lemma {:induction false} ItemsCovered(e: Expr, t: VType, sight: Sight, args: seq<Arg>, ts: set<VType>)
    requires e.ListOf? && IsList(t) && ItemsMirror(e, t, sight, args)
    requires AskedBy(e.rexp, t.base) <= ts && AskedByItems(e.exps, t.base) <= ts
    ensures ArgsCovered(args, ts, sight.env)
    decreases e, 0
  {
    hide Covered, ArgMirrors, AskedBy, AskedByItems, Literally;
    forall i | 0 <= i < |args| ensures Covered(args[i].e, ts, sight.env) {
      if i >= Taken(|e.exps|, t.size) {
        LiterallyCovered(args[i].e, ts, sight.env);
      } else if i == 0 {
        ArgCovered(e.rexp, t.base, sight, args, 0, ts);
      } else {
        ItemAsked(e.exps, t.base, i - 1);
        ArgCovered(e.exps[i - 1], t.base, sight, args, i, ts);
      }
    }
  }

  lemma {:induction false} ListCovered(e: Expr, t: VType, sight: Sight, out: OExpr)
    requires IsList(t) && ListMirrors(e, t, sight, out)
    ensures Covered(out, AskedByList(e, t), sight.env)
    decreases e, 2
  {
    hide NameOk, OfferedAt, ArgMirrors, AskedBy, ItemsMirror, AskedByItems, Literally;
    var ts := AskedByList(e, t);
    if e.ListOf? && e.other.ListVar? && out.ORef? {
      OneOffer(out.name, t, ts, sight.env);
    } else if e.ListOf? && e.other.EcAddOf? && PointType(t) {
      ArgCovered(e.other.x, POINT, sight, out.args, 0, ts);
      ArgCovered(e.other.y, POINT, sight, out.args, 1, ts);
      ArgsCoverCall(out.f, out.args, ts, sight.env);
    } else if e.ListOf? && e.other.EcMulOf? && PointType(t) {
      ArgCovered(e.other.point, POINT, sight, out.args, 0, ts);
      ArgCovered(e.other.scalar, UINT, sight, out.args, 1, ts);
      ArgsCoverCall(out.f, out.args, ts, sight.env);
    } else if e.ListOf? {
      ItemsCovered(e, t, sight, out.args, ts);
      ArgsCoverCall(out.f, out.args, ts, sight.env);
    } else {
      LiterallyCovered(out, ts, sight.env);
    }
  }

  lemma OneOffer(n: Name, t: VType, ts: set<VType>, env: Env)
    requires t in ts && NameOk(n, t, env)
    ensures Covered(ORef(n), ts, env)
  {
  }

  // ----- the declaration that may be offered to its own initialiser

  /** A new response variable is offered where a byte string of at least its size is asked for, and nowhere else. */
  lemma ResponseOfferedIff(n: Name, level: nat, size: nat, t: VType)
    ensures (exists m :: Offers(Decl(n, level, Bytes(size), true, 0), m, t, false)) <==> t.Bytes? && size <= t.m
  {
    var d := Decl(n, level, Bytes(size), true, 0);
    if t.Bytes? && size <= t.m { assert Offers(d, n, t, false); }
  }

  /** Gas or value asks for a variable that the new response variable could be. */
  ghost predicate AsksForResponse(rc: RawCallMessage) {
    exists t :: t in AskedByRest(rc) && t.Bytes? && ResponseSize(rc) <= t.m
  }

  /** An inline declaration of the response needs itself in scope only if gas or value asks for a byte string
      variable at least as large: otherwise, whatever is picked, its initialiser is typed without it. */
  lemma SelfReferenceGuard(py: Python, rc: RawCallMessage, env: Env, level: nat, inLoop: bool, c: Ctx, n: Name,
                           t: VType, call: OExpr)
    requires RawCallStmtMirrors(py, rc, env, level, [SDeclRawCall(n, t, call)]) && t.Bytes?
    requires BlockOk([SDeclRawCall(n, t, call)], c, env, level, inLoop)
    ensures !AsksForResponse(rc) ==> n !in Refs(call) && WellTyped(call, t, env)
  {
    hide RawCallArgs, Refs, WellTyped, AskedByRawCall, AskedByRest, Readable;
    var s := SDeclRawCall(n, t, call);
    var d := Decl(n, level, t, true, 0);
    assert [s][..0] == [] && EnvAfter([s][..0], env, level) == env;
    assert StmtOk(s, c, env, level, inLoop);
    assert t == Bytes(ResponseSize(rc)) by {
      assert (StatusTypes(rc) + ResponseTypes(ResponseSize(rc)))[0] == t;
    }
    OnlyDeclares(s, t, level);
    assert DeclaredAs(Bytes(ResponseSize(rc)), [s], level) == {d};
    FreshDenotesNothing(n, t, env);
    if !AsksForResponse(rc) {
      RawArgCount(rc, Sight(false, env, py), Sight(false, env + {d}, py), call.args);
      RawCallArgsCovered(rc, Sight(false, env, py), Sight(false, env + {d}, py), call.args);
      forall i | 0 <= i < |call.args| ensures n !in Refs(call.args[i].e) {
        NotAmongArgs(rc, env, d, call.args, i);
      }
      if n in Refs(call) {
        assert n in RefsOfArgs(call.args) by { NamesOfCall(call.f, call.args); }
        var i := MentionedIn(call.args, n);
      }
      SelfReference(n, t, call, env, level);
    }
  }

  lemma NamesOfCall(f: Builtin, args: seq<Arg>)
    ensures Refs(OApp(f, args)) == RefsOfArgs(args)
  {
  }

  lemma OnlyDeclares(s: OStmt, t: VType, level: nat)
    requires s.SDeclRawCall?
    ensures DeclaredAs(t, [s], level) == if s.t == t then DeclaredBy(s, level) else {}
  {
    assert [s][..0] == [];
  }

  lemma FreshDenotesNothing(n: Name, t: VType, env: Env)
    requires FreshLocal(n, Plain, t, env)
    ensures forall d :: d in env ==> TypeBy(d, n).None?
  {
  }

  lemma NotAmongArgs(rc: RawCallMessage, env: Env, d: Decl, args: seq<Arg>, i: nat)
    requires i < |args| && d.t == Bytes(ResponseSize(rc)) && !AsksForResponse(rc)
    requires forall e :: e in env ==> TypeBy(e, d.name).None?
    requires |args| >= 2 && ArgsCovered(args[..2], AskedByRawCall(rc), env)
    requires ArgsCovered(args[2..], AskedByRest(rc), env + {d})
    ensures d.name !in Refs(args[i].e)
  {
    hide Refs, AskedByRawCall, AskedByRest, OfferedAt, ResponseSize, TypeBy;
    NotOffered(d.name, AskedByRawCall(rc), env);
    ResponseNotOffered(rc, env, d);
    if i < 2 {
      assert Covered(args[..2][i].e, AskedByRawCall(rc), env);
    } else {
      assert Covered(args[2..][i - 2].e, AskedByRest(rc), env + {d});
    }
  }

  lemma NotOffered(n: Name, ts: set<VType>, env: Env)
    requires forall e :: e in env ==> TypeBy(e, n).None?
    ensures !OfferedAt(n, ts, env)
  {
    hide TypeBy;
  }

  lemma ResponseNotOffered(rc: RawCallMessage, env: Env, d: Decl)
    requires d.t == Bytes(ResponseSize(rc)) && !AsksForResponse(rc)
    requires forall e :: e in env ==> TypeBy(e, d.name).None?
    ensures !OfferedAt(d.name, AskedByRest(rc), env + {d})
  {
    hide ResponseSize, AskedByRest;
    forall t | t in AskedByRest(rc) ensures !NameOk(d.name, t, env + {d}) {
      assert !(t.Bytes? && ResponseSize(rc) <= t.m);
      assert !Offers(d, d.name, t, false);
    }
  }

  /** A reverting call with an output of ten bytes, whose gas is any byte string variable as a number. */
  const CALL_MESSAGE := RawCallMessage(Lit(NO_LITERAL), Lit(NO_LITERAL), NO_LITERAL.(intval := 10),
                                       Some(ConvertBytes(VarRef(NO_LITERAL), NO_LITERAL)), None, NO_LITERAL, NO_LITERAL,
                                       NO_LITERAL.(boolval := true))
  const RESPONSE := Var(Plain, "BYTES", 0)
  const OWN_GAS := Arg(OApp(Convert(UINT), [Arg(ORef(RESPONSE), Bytes(32))]), UINT)
  const CALL_WITH_OWN_GAS := OApp(RawCall(10, false), [Arg(OLit(Address, AddressText(0)), Address),
                                                       Arg(OLit(Bytes(100), BytesLiteral(100, 0)), Bytes(100)),
                                                       OWN_GAS])

  /** The condition is needed: with nothing in scope, the gas of this call may be the response of the call. */
  lemma SelfReferenceWitness(py: Python)
    ensures AskedByRest(CALL_MESSAGE) == {Bytes(32)} && AsksForResponse(CALL_MESSAGE)
    ensures RawCallStmtMirrors(py, CALL_MESSAGE, {}, 1, [SDeclRawCall(RESPONSE, Bytes(10), CALL_WITH_OWN_GAS)])
    ensures BlockOk([SDeclRawCall(RESPONSE, Bytes(10), CALL_WITH_OWN_GAS)], Ctx(map[], []), {}, 1, false)
    ensures RESPONSE in Refs(CALL_WITH_OWN_GAS) && !WellTyped(CALL_WITH_OWN_GAS, Bytes(10), {})
  {
    hide AddressText, BytesLiteral, LiteralOk, Generate, ResponseSize, WellTyped, Refs, RawCallArgs, AskedByRest,
         Readable, NothingFits;
    var s := SDeclRawCall(RESPONSE, Bytes(10), CALL_WITH_OWN_GAS);
    var d := Decl(RESPONSE, 1, Bytes(10), true, 0);
    TenIsTen();
    assert [s][..0] == [] && DeclaredBy(s, 1) == {d} && {} + {d} == {d};
    assert StatusTypes(CALL_MESSAGE) + ResponseTypes(10) == [Bytes(10)];
    OnlyDeclares(s, Bytes(10), 1);
    OnlyDeclares(s, Bool, 1);
    assert Offers(d, RESPONSE, Bytes(32), false);
    OwnGasMirrors(py, {d});
    OwnGasTyped(d);
    assert Bytes(32) in AskedByRest(CALL_MESSAGE) && ResponseSize(CALL_MESSAGE) <= Bytes(32).m;
    NothingInEmpty(Bytes(10));
    assert StmtOk(s, Ctx(map[], []), {}, 1, false);
  }

  lemma OwnGasMirrors(py: Python, env: Env)
    requires NameOk(RESPONSE, Bytes(32), env)
    ensures RawCallArgs(CALL_MESSAGE, Sight(false, {}, py), Sight(false, env, py), CALL_WITH_OWN_GAS.args)
    ensures AskedByRest(CALL_MESSAGE) == {Bytes(32)}
  {
    hide AddressText, BytesLiteral, LiteralOk, Generate, CheckLiteralBounds;
    var gas, later, args := CALL_MESSAGE.gas.value, Sight(false, env, py), CALL_WITH_OWN_GAS.args;
    assert Mirrors(Lit(NO_LITERAL), Address, Sight(false, {}, py), args[0].e);
    assert Mirrors(Lit(NO_LITERAL), Bytes(100), Sight(false, {}, py), args[1].e);
    assert LeafMirrors(VarRef(NO_LITERAL), Bytes(32), later, ORef(RESPONSE));
    assert Mirrors(gas.e, Bytes(32), later, ORef(RESPONSE));
    LeafConversion(gas, UINT, later, Bytes(32), ORef(RESPONSE));
    assert Converted(py, gas, Bytes(32), UINT, ORef(RESPONSE)) == OWN_GAS.e;
    assert Mirrors(gas, UINT, later, OWN_GAS.e);
    assert AskedBy(gas, UINT) == AskedByLeaf(gas, UINT) == AskedBy(gas.e, Bytes(32)) == AskedByLeaf(gas.e, Bytes(32));
  }

  lemma OwnGasTyped(d: Decl)
    requires d == Decl(RESPONSE, 1, Bytes(10), true, 0)
    ensures RESPONSE in Refs(CALL_WITH_OWN_GAS) && ExprOk(CALL_WITH_OWN_GAS, Bytes(10), {d})
    ensures !WellTyped(CALL_WITH_OWN_GAS, Bytes(10), {})
  {
    hide WellTyped, Readable, Refs;
    OwnGasFits(d);
    OwnGasIsRead();
    if WellTyped(CALL_WITH_OWN_GAS, Bytes(10), {}) {
      RefsAreDeclared(CALL_WITH_OWN_GAS, Bytes(10), {}, RESPONSE);
    }
  }

  lemma OwnGasIsRead()
    ensures RESPONSE in Refs(CALL_WITH_OWN_GAS)
  {
    hide AddressText, BytesLiteral;
    assert OWN_GAS.e.args[0].e == ORef(RESPONSE) && RESPONSE in Refs(ORef(RESPONSE));
    RefsOfEach(OWN_GAS.e.args, 0);
    RefsOfEach(CALL_WITH_OWN_GAS.args, 2);
  }

  lemma OwnGasFits(d: Decl)
    requires d == Decl(RESPONSE, 1, Bytes(10), true, 0)
    ensures ExprOk(CALL_WITH_OWN_GAS, Bytes(10), {d})
  {
    hide AddressText, BytesLiteral, AllHex, RangeOk, InBounds, OperandOk;
    var args := CALL_WITH_OWN_GAS.args;
    assert Offers(d, RESPONSE, Bytes(32), false);
    assert LiteralOk(Address, AddressText(0)) && LiteralOk(Bytes(100), BytesLiteral(100, 0));
    forall i | 0 <= i < |args| ensures WellTyped(args[i].e, args[i].at, {d}) && Readable(args[i].e) {
      if i == 2 { assert WellTyped(OWN_GAS.e.args[0].e, Bytes(32), {d}); }
    }
  }

  lemma SmallValue(n: nat, v: nat)
    requires n >= 9 && v < 512
    ensures Generate(n, false, v) == v
  {
    hide PyInt.Pow2;
    PowAtLeast(n);
    RangeSize(n, false);
    SmallRemainder(v, PyInt.Pow2(n));
  }

  lemma SmallRemainder(v: nat, m: nat)
    requires v < m
    ensures v % m == v
  {
  }

  lemma NothingInEmpty(t: VType)
    ensures NothingFits(t, {}, true)
  {
  }

  lemma TenIsTen()
    ensures ResponseSize(CALL_MESSAGE) == 10
  {
    hide Generate;
    SmallValue(256, 10);
  }
}
