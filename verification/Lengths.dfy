/** Static lengths: how long a byte string, string or dynamic array can be when it is evaluated, and whether what
    is assigned fits its target. */
module Lengths {
  import opened Types
  import opened Declarations
  import opened Emitted
  import opened Literals
  import opened Checker
  import opened LiveDeclarations
  import opened IntBounds

  /** A name stands for at most one variable or element. */
  ghost predicate UniqueNames(env: Env) {
    forall d, e, n {:trigger TypeBy(d, n), TypeBy(e, n)} ::
      d in env && e in env && TypeBy(d, n).Some? && TypeBy(e, n).Some? ==> d == e
  }

  ghost function SizeOfName(n: Name, env: Env): nat {
    if d :| d in env && TypeBy(d, n).Some? then LengthOf(TypeBy(d, n).value) else 0
  }

  /** How long a value of type t can be: its bytes or characters, or its items. */
  function LengthOf(t: VType): nat {
    if t.DynArray? then t.size else PartSize(t)
  }

  /** The greatest length that evaluating an expression can give. */
  ghost function MaxLength(e: OExpr, env: Env): nat {
    match e
    case OLit(t, text) => if t.BytesM? then t.m else |text|
    case ORef(n) => SizeOfName(n, env)
    case OParen(x) => MaxLength(x, env)
    case OApp(f, args) =>
      (match f
       case Convert(to) => LengthOf(to)
       case ListLiteral => |args|
       case Concat => LengthOfArgs(args, env)
       case Hash => 32
       case RawCall(out, _) => out
       case _ => 0)
    case _ => 0
  }

  ghost function LengthOfArgs(args: seq<Arg>, env: Env): nat {
    if args == [] then 0 else LengthOfArgs(args[..|args| - 1], env) + LengthOfArg(args[|args| - 1], env)
  }

  ghost function LengthOfArg(a: Arg, env: Env): nat {
    MaxLength(a.e, env)
  }

  /** Whatever was written for a byte string, string, fixed bytes or dynamic array type is at most as long as the
      type allows. */
  lemma {:induction false} LengthSoundness(e: OExpr, t: VType, env: Env)
    requires WellTyped(e, t, env) && UniqueNames(env) && (Sized(t) || t.BytesM?)
    ensures MaxLength(e, env) <= LengthOf(t)
    decreases e
  {
    hide SizeOfName, Offers, NameOk, DecimalOk, AllHex, AllowedChar, RangeOk, OperandOk, InBounds;
    match e {
      case OLit(_, _) =>
      case ORef(n) => NameLength(n, t, env);
      case OParen(x) => LengthSoundness(x, t, env);
      case OApp(f, args) =>
        if f.Concat? {
          ArgsLength(args, env);
        }
      case _ =>
    }
  }

  lemma NameLength(n: Name, t: VType, env: Env)
    requires NameOk(n, t, env) && UniqueNames(env) && (Sized(t) || t.BytesM?)
    ensures SizeOfName(n, env) <= LengthOf(t)
  {
    var d :| d in env && Offers(d, n, t, false);
    assert TypeBy(d, n).Some?;
  }

  lemma {:induction false} ArgsLength(args: seq<Arg>, env: Env)
    requires UniqueNames(env)
    requires forall i :: 0 <= i < |args| ==> WellTyped(args[i].e, args[i].at, env)
    requires forall i :: 0 <= i < |args| ==> args[i].at.Bytes? || args[i].at.Str? || args[i].at.BytesM?
    ensures LengthOfArgs(args, env) <= TotalSize(args)
    decreases args
  {
    if args != [] {
      ArgsLength(args[..|args| - 1], env);
      ArgLength(args[|args| - 1], env);
    }
  }

  lemma {:induction false} ArgLength(a: Arg, env: Env)
    requires UniqueNames(env) && WellTyped(a.e, a.at, env) && (a.at.Bytes? || a.at.Str? || a.at.BytesM?)
    ensures LengthOfArg(a, env) <= PartSize(a.at)
    decreases a
  {
    LengthSoundness(a.e, a.at, env);
  }

  // ----- targets of plain assignments

  /** A literal that is as long as the type allows. */
  ghost function LongestText(t: VType): string {
    match t
    case Bool => "True"
    case Decimal => DecimalText(0)
    case Address => AddressText(0)
    case BytesM(m) => Zeros(2 + 2 * m)
    case Bytes(m) => Zeros(m)
    case Str(m) => Zeros(m)
    case _ => ""
  }

  lemma LongestTextIsOk(t: VType)
    requires ValidType(t) && !IsList(t) && !t.Int?
    ensures LiteralOk(t, LongestText(t))
    ensures t.Bytes? || t.Str? ==> |LongestText(t)| == t.m
  {
    hide DecimalText, AddressText, DecimalOk, AllHex;
  }

  /** A value of type t that is as long as the type allows. */
  ghost function LongestValue(t: VType): (e: OExpr)
    decreases t
  {
    match t
    case Int(_, _) => OInt(0)
    case FixedList(size, base) => OApp(ListLiteral, seq(size, i => Arg(LongestValue(base), base)))
    case DynArray(size, base) => OApp(ListLiteral, seq(size, i => Arg(LongestValue(base), base)))
    case _ => OLit(t, LongestText(t))
  }

  lemma {:induction false} LongestIsTyped(t: VType, env: Env)
    requires ValidType(t)
    ensures WellTyped(LongestValue(t), t, env)
    ensures Sized(t) ==> MaxLength(LongestValue(t), env) == LengthOf(t)
    decreases t
  {
    hide LongestText, LiteralOk, Low, Up;
    if t.Int? {
      PowIsPositive(t.n, t.signed);
    } else if IsList(t) {
      LongestIsTyped(t.base, env);
      assert forall i :: 0 <= i < t.size ==> LongestValue(t).args[i] == Arg(LongestValue(t.base), t.base);
    } else {
      LongestTextIsOk(t);
    }
  }

  lemma PowIsPositive(n: nat, signed: bool)
    requires n > 0
    ensures Low(n, signed) <= 0 <= Up(n, signed)
  {
  }

  /** Plain assignment picks its target by "no larger than asked for", so the value need not fit. Every value
      fits if and only if the target was declared with exactly the type asked for. */
  lemma AssignmentFits(x: Target, env: Env)
    requires TargetOk(x, env, false) && UniqueNames(env) && ValidType(x.wanted) && Sized(x.wanted)
    ensures LengthOf(x.declared) <= LengthOf(x.wanted)
    ensures (forall e :: WellTyped(e, x.wanted, env) ==> MaxLength(e, env) <= LengthOf(x.declared)) <==>
            x.declared == x.wanted
  {
    hide WellTyped, MaxLength, LongestValue;
    if x.declared == x.wanted {
      forall e | WellTyped(e, x.wanted, env) ensures MaxLength(e, env) <= LengthOf(x.declared) {
        LengthSoundness(e, x.wanted, env);
      }
    } else {
      LongestIsTyped(x.wanted, env);
    }
  }

  /** A type of the same kind as t, for dynamic arrays with the same items, that holds less. */
  predicate SmallerThan(declared: VType, t: VType)
    requires Sized(t)
  {
    Sized(declared) && SameKind(declared, t) && Capacity(declared) < Capacity(t)
  }

  ghost predicate DeclaredAt(live: seq<Decl>, n: Name, t: VType) {
    exists d :: d in live && d.name == n && d.t == t
  }

  lemma OneDeclaration(live: seq<Decl>, d: Decl)
    requires UniqueNames(set e | e in live) && d in live
    ensures forall e :: e in live && e.name == d.name ==> e == d
  {
    forall e | e in live && e.name == d.name ensures e == d {
      assert TypeBy(d, d.name).Some? && TypeBy(e, d.name).Some?;
    }
  }

  /** What the lookup for an assignment returns has exactly the type asked for if and only if no writable variable
      in reach is of that kind and smaller. */
  lemma AssignmentLookupIff(live: seq<Decl>, level: nat, t: VType)
    requires ValidType(t) && Sized(t) && UniqueNames(set d | d in live)
    ensures (forall n :: n in Visible(live, level, t, true, false) ==> DeclaredAt(live, n, t)) <==>
            !exists d :: d in live && InReach(d, level, true) && SmallerThan(d.t, t)
  {
    hide Visible;
    forall n { VisibleExact(live, level, t, true, false, n); }
    if exists d :: d in live && InReach(d, level, true) && SmallerThan(d.t, t) {
      var d :| d in live && InReach(d, level, true) && SmallerThan(d.t, t);
      assert Offers(d, d.name, t, false) && d.name in Visible(live, level, t, true, false);
      OneDeclaration(live, d);
    } else {
      forall n | n in Visible(live, level, t, true, false) ensures DeclaredAt(live, n, t) {
        var d :| d in live && InReach(d, level, true) && Offers(d, n, t, false);
        assert !SmallerThan(d.t, t);
      }
    }
  }

  /** The condition is needed: a variable of ten bytes may be picked to receive twenty. */
  lemma SmallerTargetWitness()
    ensures var n := Var(Plain, "BYTES", 0); var d := Decl(n, 1, Bytes(10), true, 0);
            && n in Visible([d], 1, Bytes(20), true, false)
            && TargetOk(Target(n, Bytes(20), Bytes(10)), {d}, false)
            && WellTyped(OLit(Bytes(20), Zeros(20)), Bytes(20), {d})
            && MaxLength(OLit(Bytes(20), Zeros(20)), {d}) == 20
  {
    var n := Var(Plain, "BYTES", 0);
    var d := Decl(n, 1, Bytes(10), true, 0);
    VisibleExact([d], 1, Bytes(20), true, false, n);
    assert d in [d] && Offers(d, n, Bytes(20), false);
  }
}
