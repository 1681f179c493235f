/** Every part of a well-typed expression is well typed where it stands, so every integer it evaluates to on
    the way is in range. */
module Ranges {
  import opened Types
  import opened Emitted
  import opened IntBounds
  import opened Checker

  /** x stands somewhere in e, at a place where type u is asked for. */
  ghost predicate AskedIn(e: OExpr, t: VType, env: Env, x: OExpr, u: VType)
    decreases e, 1
  {
    || (x == e && u == t)
    || match e
       case OParen(y) => AskedIn(y, t, env, x, u)
       case OMinus(y) => AskedIn(y, t, env, x, u)
       case ONot(y) => AskedIn(y, Bool, env, x, u)
       case ONeg(y) => AskedIn(y, t, env, x, u)
       case OBin(op, l, r) =>
         if t.Int? then
           AskedIn(l, t, env, x, u) || AskedIn(r, t, env, x, u)
         else if t.Decimal? then AskedIn(l, t, env, x, u) || AskedIn(r, t, env, x, u)
         else
           BothAt(e, Bool, env, x, u) || BothAt(e, Int(256, false), env, x, u) || BothAt(e, Decimal, env, x, u)
       case OApp(f, args) => exists i :: 0 <= i < |args| && AskedIn(args[i].e, args[i].at, env, x, u)
       case _ => false
  }

  ghost predicate BothAt(e: OExpr, at: VType, env: Env, x: OExpr, u: VType)
    requires e.OBin?
    decreases e, 0
  {
    && WellTyped(e.l, at, env) && WellTyped(e.r, at, env) && (if at.Bool? then Logical(e.op) else Comparison(e.op))
    && (AskedIn(e.l, at, env, x, u) || AskedIn(e.r, at, env, x, u))
  }

  /** Typed as asked, or the negation of an exponent that is typed as asked and known to be negative. */
  ghost predicate TypedPart(x: OExpr, u: VType, env: Env) {
    WellTyped(x, u, env) || (u.Int? && NegatedExponent(x, u) && WellTyped(x.e, u, env))
  }

  lemma {:induction false} PartsAreTyped(e: OExpr, t: VType, env: Env, x: OExpr, u: VType)
    requires TypedPart(e, t, env) && AskedIn(e, t, env, x, u)
    ensures TypedPart(x, u, env)
    decreases e, 1
  {
    if x != e || u != t {
      match e {
        case OParen(y) => PartsAreTyped(y, t, env, x, u);
        case OMinus(y) => PartsAreTyped(y, t, env, x, u);
        case ONot(y) => PartsAreTyped(y, Bool, env, x, u);
        case ONeg(y) => PartsAreTyped(y, t, env, x, u);
        case OBin(op, l, r) =>
          if t.Bool? {
            ConditionParts(e, env, x, u);
          } else if AskedIn(l, t, env, x, u) {
            PartsAreTyped(l, t, env, x, u);
          } else {
            PartsAreTyped(r, t, env, x, u);
          }
        case OApp(f, args) =>
          var i :| 0 <= i < |args| && AskedIn(args[i].e, args[i].at, env, x, u);
          PartsAreTyped(args[i].e, args[i].at, env, x, u);
        case _ =>
      }
    }
  }

  lemma {:induction false} ConditionParts(e: OExpr, env: Env, x: OExpr, u: VType)
    requires e.OBin? && AskedIn(e, Bool, env, x, u) && (x != e || u != Bool)
    ensures TypedPart(x, u, env)
    decreases e, 0
  {
    var at := if BothAt(e, Bool, env, x, u) then Bool
              else if BothAt(e, Decimal, env, x, u) then Decimal else Int(256, false);
    assert BothAt(e, at, env, x, u);
    if AskedIn(e.l, at, env, x, u) {
      PartsAreTyped(e.l, at, env, x, u);
    } else {
      PartsAreTyped(e.r, at, env, x, u);
    }
  }

  lemma {:induction false} TypedInRange(e: OExpr, t: VType, env: Env)
    requires t.Int? && WellTyped(e, t, env)
    ensures RangeOk(t, e)
  {
    if e.OParen? { TypedInRange(e.e, t, env); }
    if e.OMinus? { MinusIsNoInteger(e.e); }
  }

  /** Wherever an integer type is asked for inside a written expression, what stands there evaluates to an
      integer of that type, if it evaluates at all, unless it is the negation of the type's lower bound. */
  lemma EveryPartInRange(e: OExpr, t: VType, env: Env, x: OExpr, u: VType)
    requires WellTyped(e, t, env) && AskedIn(e, t, env, x, u) && u.Int? && u.n > 0
    ensures RangeOk(u, x) <==> !(u.signed && x.ONeg? && Eval(x.e) == Some(Low(u.n, u.signed)))
    ensures x.OBin? ==> OperandOk(u, x.op, x.r)
  {
    PartsAreTyped(e, t, env, x, u);
    if WellTyped(x, u, env) {
      TypedInRange(x, u, env);
    } else {
      TypedInRange(x.e, u, env);
      NegatedExponentRange(u, x.e);
    }
  }
}
