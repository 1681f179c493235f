/** What the converter guarantees for every block it writes, and how blocks are put together. */
module BlockSoundness {
  import opened Types
  import opened Declarations
  import opened Emitted
  import opened Checker
  import opened Soundness

  /** Block b, written where `before` was in scope, follows the rules, stays within mutability m except for
      oversized captures, and leaves exactly `after` in scope. */
  ghost predicate Wrote(b: seq<OStmt>, c: Ctx, before: Env, after: Env, level: nat, inLoop: bool, m: nat) {
    && BlockOk(b, c, before, level, inLoop)
    && BlockEffect(b, c.callable, false) <= m
    && EnvAfter(b, before, level) == after
  }

  lemma WroteNothing(c: Ctx, env: Env, level: nat, inLoop: bool, m: nat)
    ensures Wrote([], c, env, env, level, inLoop, m)
  {
  }

  lemma WroteEnv(b: seq<OStmt>, c: Ctx, before: Env, after: Env, level: nat, inLoop: bool, m: nat)
    requires Wrote(b, c, before, after, level, inLoop, m)
    ensures EnvAfter(b, before, level) == after
  {
  }

  lemma WroteOne(s: OStmt, c: Ctx, before: Env, after: Env, level: nat, inLoop: bool, m: nat)
    requires StmtOk(s, c, before, level, inLoop) && StmtEffect(s, c.callable, false) <= m
    requires after == before + DeclaredBy(s, level)
    ensures Wrote([s], c, before, after, level, inLoop, m)
  {
    assert [s][..0] == [];
  }

  lemma WroteSnoc(b: seq<OStmt>, s: OStmt, c: Ctx, before: Env, middle: Env, after: Env, level: nat, inLoop: bool,
                  m: nat, m': nat)
    requires Wrote(b, c, before, middle, level, inLoop, m) && m <= m'
    requires StmtOk(s, c, middle, level, inLoop) && StmtEffect(s, c.callable, false) <= m'
    requires after == middle + DeclaredBy(s, level)
    ensures Wrote(b + [s], c, before, after, level, inLoop, m')
  {
    hide StmtOk, StmtEffect, DeclaredBy;
    assert (b + [s])[..|b|] == b;
  }

  lemma {:induction false} WroteBoth(a: seq<OStmt>, b: seq<OStmt>, c: Ctx, before: Env, middle: Env, after: Env,
                                     level: nat, inLoop: bool, m: nat, m': nat)
    requires Wrote(a, c, before, middle, level, inLoop, m) && m <= m'
    requires Wrote(b, c, middle, after, level, inLoop, m')
    ensures Wrote(a + b, c, before, after, level, inLoop, m')
    decreases |b|
  {
    hide StmtOk, StmtEffect, DeclaredBy;
    if b == [] {
      assert a + b == a;
    } else {
      var front, last := b[..|b| - 1], b[|b| - 1];
      var env := EnvAfter(front, middle, level);
      WroteBoth(a, front, c, before, middle, env, level, inLoop, m, m');
      WroteSnoc(a + front, last, c, before, env, after, level, inLoop, m', m');
      assert a + b == a + front + [last];
    }
  }

  /** A block only adds variables of its own level. */
  lemma {:induction false} EnvAdds(b: seq<OStmt>, env: Env, level: nat)
    ensures env <= EnvAfter(b, env, level)
    ensures forall d :: d in EnvAfter(b, env, level) - env ==> d.level == level && d.mutable
  {
    if b != [] { EnvAdds(b[..|b| - 1], env, level); }
  }

  // ----- a larger environment accepts more

  lemma {:induction false} TypedInLarger(e: OExpr, t: VType, env: Env, env': Env)
    requires WellTyped(e, t, env) && env <= env'
    ensures WellTyped(e, t, env')
    decreases e, 1
  {
    match e {
      case OInt(_) =>
      case OLit(_, _) =>
      case ORef(n) =>
        var d :| d in env && Offers(d, n, t, false);
        assert d in env';
      case OParen(x) => TypedInLarger(x, t, env, env');
      case OMinus(x) => TypedInLarger(x, t, env, env');
      case OFraction(_) =>
      case ONot(x) => TypedInLarger(x, Bool, env, env');
      case ONeg(x) => TypedInLarger(x, t, env, env');
      case OBin(_, l, r) => BinInLarger(e, t, env, env');
      case OApp(f, args) =>
        forall i | 0 <= i < |args| ensures WellTyped(args[i].e, args[i].at, env') {
          TypedInLarger(args[i].e, args[i].at, env, env');
        }
    }
  }

  lemma {:induction false} BinInLarger(e: OExpr, t: VType, env: Env, env': Env)
    requires e.OBin? && WellTyped(e, t, env) && env <= env'
    ensures WellTyped(e, t, env')
    decreases e, 0
  {
    var l, r := e.l, e.r;
    if t.Int? {
      TypedInLarger(l, t, env, env');
      if WellTyped(r, t, env) { TypedInLarger(r, t, env, env'); } else { TypedInLarger(r.e, t, env, env'); }
    } else if t.Decimal? {
      TypedInLarger(l, t, env, env');
      TypedInLarger(r, t, env, env');
    } else if Logical(e.op) && WellTyped(l, Bool, env) && WellTyped(r, Bool, env) {
      TypedInLarger(l, Bool, env, env');
      TypedInLarger(r, Bool, env, env');
    } else if WellTyped(l, Decimal, env) && WellTyped(r, Decimal, env) {
      TypedInLarger(l, Decimal, env, env');
      TypedInLarger(r, Decimal, env, env');
    } else {
      TypedInLarger(l, Int(256, false), env, env');
      TypedInLarger(r, Int(256, false), env, env');
    }
  }

  lemma SoundInLarger(e: OExpr, t: VType, env: Env, env': Env, m: nat, c: bool)
    requires Sound(e, t, env, m, c) && env <= env'
    ensures Sound(e, t, env', m, c)
  {
    TypedInLarger(e, t, env, env');
  }

  lemma SoundArgsInLarger(args: seq<Arg>, env: Env, env': Env, m: nat, c: bool)
    requires SoundArgs(args, env, m, c) && env <= env'
    ensures SoundArgs(args, env', m, c)
  {
    hide Sound;
    forall i | 0 <= i < |args| ensures Sound(args[i].e, args[i].at, env', m, c) {
      SoundInLarger(args[i].e, args[i].at, env, env', m, c);
    }
  }

  lemma SoundArgsOk(args: seq<Arg>, env: Env, m: nat, c: bool)
    requires SoundArgs(args, env, m, c)
    ensures ArgsOk(args, env) && EffectOfArgs(args) <= m
  {
    ArgsEffect(args, env, m, c);
    forall i | 0 <= i < |args| ensures ExprOk(args[i].e, args[i].at, env) {
      assert Sound(args[i].e, args[i].at, env, m, c);
    }
  }

  // ----- the one declaration that may mention its own name

  /** Whatever is well typed mentions only declared names. */
  lemma {:induction false} RefsAreDeclared(e: OExpr, t: VType, env: Env, n: Name)
    requires WellTyped(e, t, env) && n in Refs(e)
    ensures exists d :: d in env && TypeBy(d, n).Some?
  {
    match e {
      case ORef(m) =>
        var d :| d in env && Offers(d, m, t, false);
        assert d in env && TypeBy(d, n).Some?;
      case OParen(x) => RefsAreDeclared(x, t, env, n);
      case OMinus(x) => RefsAreDeclared(x, t, env, n);
      case ONot(x) => RefsAreDeclared(x, Bool, env, n);
      case ONeg(x) => RefsAreDeclared(x, t, env, n);
      case OBin(_, l, r) =>
        var (x, at) := TypedOperand(e, t, env, n);
        RefsAreDeclared(x, at, env, n);
      case OApp(_, args) =>
        var i := MentionedIn(args, n);
        RefsAreDeclared(args[i].e, args[i].at, env, n);
      case _ =>
    }
  }

  /** The operand that mentions n, at the type it is checked at. */
  ghost function TypedOperand(e: OExpr, t: VType, env: Env, n: Name): (r: (OExpr, VType))
    requires e.OBin? && WellTyped(e, t, env) && n in Refs(e)
    ensures WellTyped(r.0, r.1, env) && n in Refs(r.0) && (r.0 < e)
  {
    if t.Int? then
      if n in Refs(e.l) then (e.l, t)
      else if WellTyped(e.r, t, env) then (e.r, t)
      else assert Refs(e.r) == Refs(e.r.e); (e.r.e, t)
    else
      var at := if t.Decimal? then Decimal
                else if Logical(e.op) && WellTyped(e.l, Bool, env) && WellTyped(e.r, Bool, env) then Bool
                else if WellTyped(e.l, Decimal, env) && WellTyped(e.r, Decimal, env) then Decimal
                else Int(256, false);
      (if n in Refs(e.l) then e.l else e.r, at)
  }

  lemma {:induction false} MentionedIn(args: seq<Arg>, n: Name) returns (i: nat)
    requires n in RefsOfArgs(args)
    ensures i < |args| && n in Refs(args[i].e)
  {
    if n in RefsOfArg(args[|args| - 1]) {
      i := |args| - 1;
    } else {
      i := MentionedIn(args[..|args| - 1], n);
    }
  }

  /** Without a mention of d's names, d is not needed. */
  lemma {:induction false} TypedWithout(e: OExpr, t: VType, env: Env, d: Decl)
    requires WellTyped(e, t, env + {d}) && forall n :: n in Refs(e) ==> TypeBy(d, n).None?
    ensures WellTyped(e, t, env)
    decreases e, 1
  {
    match e {
      case OInt(_) =>
      case OLit(_, _) =>
      case ORef(n) =>
        var d' :| d' in env + {d} && Offers(d', n, t, false);
        assert n in Refs(e);
        assert d' in env;
      case OParen(x) => TypedWithout(x, t, env, d);
      case OMinus(x) => TypedWithout(x, t, env, d);
      case OFraction(_) =>
      case ONot(x) => TypedWithout(x, Bool, env, d);
      case ONeg(x) => TypedWithout(x, t, env, d);
      case OBin(_, l, r) => BinWithout(e, t, env, d);
      case OApp(f, args) =>
        forall i | 0 <= i < |args| ensures WellTyped(args[i].e, args[i].at, env) {
          RefsOfEach(args, i);
          TypedWithout(args[i].e, args[i].at, env, d);
        }
    }
  }

  lemma {:induction false} RefsOfEach(args: seq<Arg>, i: nat)
    requires i < |args|
    ensures Refs(args[i].e) <= RefsOfArgs(args)
    decreases |args|
  {
    if i < |args| - 1 { RefsOfEach(args[..|args| - 1], i); }
  }

  lemma {:induction false} BinWithout(e: OExpr, t: VType, env: Env, d: Decl)
    requires e.OBin? && WellTyped(e, t, env + {d}) && forall n :: n in Refs(e) ==> TypeBy(d, n).None?
    ensures WellTyped(e, t, env)
    decreases e, 0
  {
    var l, r, big := e.l, e.r, env + {d};
    if t.Int? {
      TypedWithout(l, t, env, d);
      if WellTyped(r, t, big) {
        TypedWithout(r, t, env, d);
      } else {
        assert Refs(r) == Refs(r.e);
        TypedWithout(r.e, t, env, d);
      }
    } else if t.Decimal? {
      TypedWithout(l, t, env, d);
      TypedWithout(r, t, env, d);
    } else if Logical(e.op) && WellTyped(l, Bool, big) && WellTyped(r, Bool, big) {
      TypedWithout(l, Bool, env, d);
      TypedWithout(r, Bool, env, d);
    } else if WellTyped(l, Decimal, big) && WellTyped(r, Decimal, big) {
      TypedWithout(l, Decimal, env, d);
      TypedWithout(r, Decimal, env, d);
    } else {
      TypedWithout(l, Int(256, false), env, d);
      TypedWithout(r, Int(256, false), env, d);
    }
  }

  /** An inline declaration from a raw call is in scope exactly when its initialiser does not mention the
      variable it declares. (The new name stands for nothing else: no declaration in force gives it a type.) */
  lemma SelfReference(n: Name, t: VType, value: OExpr, env: Env, level: nat)
    requires WellTyped(value, t, env + {Decl(n, level, t, true, 0)}) && t.Bytes?
    requires forall d :: d in env ==> TypeBy(d, n).None?
    ensures WellTyped(value, t, env) <==> n !in Refs(value)
  {
    var d := Decl(n, level, t, true, 0);
    if n in Refs(value) {
      if WellTyped(value, t, env) {
        RefsAreDeclared(value, t, env, n);
      }
    } else {
      TypedWithout(value, t, env, d);
    }
  }
}
