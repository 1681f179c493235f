/** The written text of an expression, as tokens, and when it can be read back in one way only.

    The grammar below is maximally ambiguous: it knows neither precedence nor associativity, and minus is
    one token whether it negates, subtracts or is the sign of a literal. A reading that is unique under it is
    the reading of every parser that resolves ambiguity somehow. The text does not show at which type an
    argument was visited, nor the capacity of a literal: `Plain` forgets both. */
module Printing {
  import opened Types
  import opened Declarations
  import opened Emitted
  import opened Checker

  /** A name with its opening parenthesis is one token; so is a list's opening bracket. */
  datatype Token = Atom(e: OExpr) | Operator(op: Op) | NotWord | LPar | Opening(f: Builtin) | Comma | RPar

  predicate IsAtom(e: OExpr) {
    e.OInt? || e.OLit? || e.ORef? || e.OFraction?
  }

  /** A literal that is written with a minus sign. */
  predicate Signed(e: OExpr) {
    (e.OInt? && e.v < 0) || (e.OLit? && e.t.Decimal? && |e.text| > 0 && e.text[0] == '-')
  }

  function Unsigned(e: OExpr): OExpr
    requires Signed(e)
  {
    if e.OInt? then OInt(-e.v) else OLit(NoType, e.text[1..])
  }

  /** Byte strings and strings have quotes of their own; all other literals are words. */
  function Quotes(t: VType): VType {
    if t.Bytes? then Bytes(0) else if t.Str? then Str(0) else NoType
  }

  /** What a reader can recover of a tree: the sign of a literal is a minus in front of it. */
  function Plain(e: OExpr): OExpr {
    match e
    case OInt(v) => if v < 0 then ONeg(OInt(-v)) else e
    case OLit(t, text) => if Signed(e) then ONeg(Unsigned(e)) else OLit(Quotes(t), text)
    case ORef(_) => e
    case OFraction(_) => e
    case OMinus(x) => ONeg(Plain(x))
    case OBin(op, l, r) => OBin(op, Plain(l), Plain(r))
    case ONeg(x) => ONeg(Plain(x))
    case ONot(x) => ONot(Plain(x))
    case OParen(x) => OParen(Plain(x))
    case OApp(f, args) => OApp(f, PlainArgs(args))
  }

  function PlainArgs(args: seq<Arg>): (r: seq<Arg>)
    ensures |r| == |args|
  {
    if args == [] then [] else PlainArgs(args[..|args| - 1]) + [PlainArg(args[|args| - 1])]
  }

  function PlainArg(a: Arg): Arg {
    Arg(Plain(a.e), NoType)
  }

  function Tokens(e: OExpr): (ts: seq<Token>)
    ensures |ts| > 0
  {
    match e
    case OBin(op, l, r) => Tokens(l) + [Operator(op)] + Tokens(r)
    case ONeg(x) => [Operator(Sub)] + Tokens(x)
    case OMinus(x) => [Operator(Sub)] + Tokens(x)
    case ONot(x) => [NotWord] + Tokens(x)
    case OParen(x) => [LPar] + Tokens(x) + [RPar]
    case OApp(f, args) => [Opening(f)] + ArgTokens(args) + [RPar]
    case OInt(v) => if v < 0 then [Operator(Sub), Atom(OInt(-v))] else [Atom(e)]
    case OLit(t, text) => if Signed(e) then [Operator(Sub), Atom(Unsigned(e))] else [Atom(OLit(Quotes(t), text))]
    case ORef(_) => [Atom(e)]
    case OFraction(_) => [Atom(e)]
  }

  function ArgTokens(args: seq<Arg>): seq<Token> {
    if args == [] then []
    else if |args| == 1 then OneArg(args[0])
    else ArgTokens(args[..|args| - 1]) + [Comma] + OneArg(args[|args| - 1])
  }

  function OneArg(a: Arg): (ts: seq<Token>)
    ensures |ts| > 0
  {
    Tokens(a.e)
  }

  /** ts may be read as e. */
  ghost predicate ReadsAs(ts: seq<Token>, e: OExpr) {
    match e
    case OBin(op, l, r) => exists k :: SplitsAt(ts, k, Operator(op)) && ReadsAs(ts[..k], l) && ReadsAs(ts[k + 1..], r)
    case ONeg(x) => |ts| > 0 && ts[0] == Operator(Sub) && ReadsAs(ts[1..], x)
    case ONot(x) => |ts| > 0 && ts[0] == NotWord && ReadsAs(ts[1..], x)
    case OParen(x) => |ts| > 1 && ts[0] == LPar && ts[|ts| - 1] == RPar && ReadsAs(ts[1..|ts| - 1], x)
    case OApp(f, args) => |ts| > 1 && ts[0] == Opening(f) && ts[|ts| - 1] == RPar && ReadsAsArgs(ts[1..|ts| - 1], args)
    case _ => ts == [Atom(e)] && Plain(e) == e
  }

  ghost predicate ReadsAsArgs(ts: seq<Token>, args: seq<Arg>) {
    if args == [] then ts == []
    else if |args| == 1 then ReadsAsArg(ts, args[0])
    else exists k :: SplitsAt(ts, k, Comma) && ReadsAsArgs(ts[..k], args[..|args| - 1]) &&
                     ReadsAsArg(ts[k + 1..], args[|args| - 1])
  }

  ghost predicate ReadsAsArg(ts: seq<Token>, a: Arg) {
    a.at == NoType && ReadsAs(ts, a.e)
  }

  ghost predicate SplitsAt(ts: seq<Token>, k: int, t: Token) {
    0 <= k < |ts| && ts[k] == t
  }

  // ----- parenthesis depth

  function Weight(t: Token): int {
    match t
    case LPar => 1
    case Opening(_) => 1
    case RPar => -1
    case _ => 0
  }

  function Depth(ts: seq<Token>): int {
    if ts == [] then 0 else Depth(ts[..|ts| - 1]) + Weight(ts[|ts| - 1])
  }

  lemma {:induction false} DepthAppend(a: seq<Token>, b: seq<Token>)
    ensures Depth(a + b) == Depth(a) + Depth(b)
    decreases |b|
  {
    if b == [] {
      assert a + b == a;
    } else {
      DepthAppend(a, b[..|b| - 1]);
      assert (a + b)[..|a + b| - 1] == a + b[..|b| - 1];
    }
  }

  lemma DepthOne(t: Token)
    ensures Depth([t]) == Weight(t)
  {
    assert [t][..0] == [];
  }

  /** Every closing parenthesis has an opening one before it, and all are closed. */
  ghost predicate Balanced(ts: seq<Token>) {
    Depth(ts) == 0 && forall k :: 0 <= k <= |ts| ==> Depth(ts[..k]) >= 0
  }

  /** Commas occur in parentheses only. */
  ghost predicate NoBareComma(ts: seq<Token>) {
    forall k :: 0 <= k < |ts| && ts[k] == Comma ==> Depth(ts[..k]) >= 1
  }

  /** Inside, the depth never comes back to zero. */
  ghost predicate Closed(ts: seq<Token>) {
    |ts| > 0 && !ts[0].Operator? && ts[0] != NotWord && ts[0] != Comma && Balanced(ts) &&
    forall k :: 0 < k < |ts| ==> Depth(ts[..k]) >= 1
  }

  predicate EndsWell(ts: seq<Token>) {
    |ts| > 0 && (ts[|ts| - 1].Atom? || ts[|ts| - 1] == RPar)
  }

  /** What every readable text is like. */
  ghost predicate WellNested(ts: seq<Token>) {
    Balanced(ts) && NoBareComma(ts) && EndsWell(ts)
  }

  lemma DepthInAppend(a: seq<Token>, b: seq<Token>, k: nat)
    requires k <= |a| + |b|
    ensures Depth((a + b)[..k]) == if k <= |a| then Depth(a[..k]) else Depth(a) + Depth(b[..k - |a|])
  {
    if k <= |a| {
      assert (a + b)[..k] == a[..k];
    } else {
      assert (a + b)[..k] == a + b[..k - |a|];
      DepthAppend(a, b[..k - |a|]);
    }
  }

  lemma BalancedAppend(a: seq<Token>, b: seq<Token>)
    requires Balanced(a) && Balanced(b)
    ensures Balanced(a + b)
    ensures NoBareComma(a) && NoBareComma(b) ==> NoBareComma(a + b)
  {
    DepthAppend(a, b);
    forall k | 0 <= k <= |a + b|
      ensures Depth((a + b)[..k]) >= 0
      ensures NoBareComma(a) && NoBareComma(b) && k < |a + b| && (a + b)[k] == Comma ==> Depth((a + b)[..k]) >= 1
    {
      DepthInAppend(a, b, k);
      assert a[..|a|] == a && b[..0] == [];
    }
  }

  lemma BalancedOne(t: Token)
    requires Weight(t) == 0
    ensures Balanced([t]) && (t != Comma ==> NoBareComma([t]))
  {
    assert [t][..0] == [] && [t][..1] == [t];
    DepthOne(t);
  }

  /** Parentheses close whatever is balanced, commas included. */
  lemma ParensClose(open: Token, ts: seq<Token>)
    requires Balanced(ts) && (open == LPar || open.Opening?)
    ensures Closed([open] + ts + [RPar]) && WellNested([open] + ts + [RPar])
  {
    var all := [open] + ts + [RPar];
    DepthOne(open);
    DepthOne(RPar);
    DepthAppend([open], ts);
    DepthAppend([open] + ts, [RPar]);
    forall k | 0 < k < |all| ensures Depth(all[..k]) >= 1 {
      assert all[..k] == [open] + ts[..k - 1];
      DepthAppend([open], ts[..k - 1]);
    }
    forall k | 0 <= k <= |all| ensures Depth(all[..k]) >= 0 {
      if k == |all| { assert all[..k] == all; } else if k == 0 { assert all[..0] == []; }
    }
  }

  /** Whatever can be read is balanced, without bare commas, and ends in an operand. */
  lemma {:induction false} ReadableIsNested(ts: seq<Token>, e: OExpr)
    requires ReadsAs(ts, e)
    ensures WellNested(ts)
    decreases e, 0
  {
    hide WellNested, Balanced, Closed, NoBareComma;
    match e {
      case OBin(op, l, r) =>
        var k :| SplitsAt(ts, k, Operator(op)) && ReadsAs(ts[..k], l) && ReadsAs(ts[k + 1..], r);
        ReadableIsNested(ts[..k], l);
        ReadableIsNested(ts[k + 1..], r);
        InfixNested(ts, k);
      case ONeg(x) =>
        ReadableIsNested(ts[1..], x);
        PrefixNested(ts);
      case ONot(x) =>
        ReadableIsNested(ts[1..], x);
        PrefixNested(ts);
      case OParen(x) =>
        ReadableIsNested(ts[1..|ts| - 1], x);
        InsideNested(ts);
      case OApp(f, args) =>
        ArgsAreBalanced(ts[1..|ts| - 1], args);
        BalancedInside(ts);
      case _ => AtomNested(ts);
    }
  }

  lemma {:induction false} ArgsAreBalanced(ts: seq<Token>, args: seq<Arg>)
    requires ReadsAsArgs(ts, args)
    ensures Balanced(ts)
    decreases args
  {
    if args == [] {
    } else if |args| == 1 {
      ArgIsNested(ts, args[0]);
    } else {
      var k :| SplitsAt(ts, k, Comma) && ReadsAsArgs(ts[..k], args[..|args| - 1]) &&
               ReadsAsArg(ts[k + 1..], args[|args| - 1]);
      ArgsAreBalanced(ts[..k], args[..|args| - 1]);
      ArgIsNested(ts[k + 1..], args[|args| - 1]);
      BalancedAround(ts, k);
    }
  }

  lemma BalancedAround(ts: seq<Token>, k: int)
    requires SplitsAt(ts, k, Comma) && Balanced(ts[..k]) && Balanced(ts[k + 1..])
    ensures Balanced(ts)
  {
    hide Balanced;
    BalancedOne(Comma);
    BalancedAppend(ts[..k], [Comma]);
    BalancedAppend(ts[..k] + [Comma], ts[k + 1..]);
    assert ts == ts[..k] + [Comma] + ts[k + 1..];
  }

  lemma {:induction false} ArgIsNested(ts: seq<Token>, a: Arg)
    requires ReadsAsArg(ts, a)
    ensures WellNested(ts)
    decreases a
  {
    ReadableIsNested(ts, a.e);
  }

  lemma AtomNested(ts: seq<Token>)
    requires |ts| == 1 && ts[0].Atom?
    ensures WellNested(ts)
  {
    BalancedOne(ts[0]);
  }

  lemma InfixNested(ts: seq<Token>, k: int)
    requires 0 <= k < |ts| && ts[k].Operator? && WellNested(ts[..k]) && WellNested(ts[k + 1..])
    ensures WellNested(ts)
  {
    hide Balanced, NoBareComma;
    BalancedOne(ts[k]);
    BalancedAppend(ts[..k], [ts[k]]);
    BalancedAppend(ts[..k] + [ts[k]], ts[k + 1..]);
    assert ts == ts[..k] + [ts[k]] + ts[k + 1..];
  }

  lemma PrefixNested(ts: seq<Token>)
    requires |ts| > 0 && (ts[0].Operator? || ts[0] == NotWord) && WellNested(ts[1..])
    ensures WellNested(ts)
  {
    hide Balanced, NoBareComma;
    BalancedOne(ts[0]);
    BalancedAppend([ts[0]], ts[1..]);
    assert ts == [ts[0]] + ts[1..];
  }

  lemma BalancedInside(ts: seq<Token>)
    requires |ts| > 1 && (ts[0] == LPar || ts[0].Opening?) && ts[|ts| - 1] == RPar && Balanced(ts[1..|ts| - 1])
    ensures WellNested(ts)
  {
    ParensClose(ts[0], ts[1..|ts| - 1]);
    assert ts == [ts[0]] + ts[1..|ts| - 1] + [RPar];
  }

  lemma InsideNested(ts: seq<Token>)
    requires |ts| > 1 && ts[0] == LPar && ts[|ts| - 1] == RPar && WellNested(ts[1..|ts| - 1])
    ensures WellNested(ts)
  {
    BalancedInside(ts);
  }

  // ----- what is written can be read

  lemma {:induction false} WrittenReads(e: OExpr)
    ensures ReadsAs(Tokens(e), Plain(e))
    decreases e, 1
  {
    match e {
      case OBin(op, l, r) =>
        WrittenReads(l);
        WrittenReads(r);
        var ts, k := Tokens(e), |Tokens(l)|;
        assert ts[..k] == Tokens(l) && ts[k + 1..] == Tokens(r) && SplitsAt(ts, k, Operator(op));
      case ONeg(x) =>
        WrittenReads(x);
        assert Tokens(e)[1..] == Tokens(x);
      case OMinus(x) =>
        WrittenReads(x);
        assert Tokens(e)[1..] == Tokens(x);
      case ONot(x) =>
        WrittenReads(x);
        assert Tokens(e)[1..] == Tokens(x);
      case OParen(x) =>
        WrittenReads(x);
        assert Tokens(e)[1..|Tokens(e)| - 1] == Tokens(x);
      case OApp(f, args) =>
        ArgsWritten(args);
        assert Tokens(e)[1..|Tokens(e)| - 1] == ArgTokens(args);
      case OInt(v) =>
        if v < 0 { assert Tokens(e)[1..] == [Atom(OInt(-v))]; }
      case OLit(t, text) =>
        if Signed(e) { assert Tokens(e)[1..] == [Atom(Unsigned(e))]; }
      case ORef(_) =>
      case OFraction(_) =>
    }
  }

  lemma {:induction false} ArgsWritten(args: seq<Arg>)
    ensures ReadsAsArgs(ArgTokens(args), PlainArgs(args))
    decreases args
  {
    if args == [] {
    } else if |args| == 1 {
      ArgWritten(args[0]);
      assert PlainArgs(args) == [PlainArg(args[0])] by { assert args[..0] == []; }
    } else {
      var front, last := args[..|args| - 1], args[|args| - 1];
      ArgsWritten(front);
      ArgWritten(last);
      var ts, k := ArgTokens(args), |ArgTokens(front)|;
      assert ts[..k] == ArgTokens(front) && ts[k + 1..] == OneArg(last) && SplitsAt(ts, k, Comma);
      assert PlainArgs(args)[..|args| - 1] == PlainArgs(front) && PlainArgs(args)[|args| - 1] == PlainArg(last);
    }
  }

  lemma {:induction false} ArgWritten(a: Arg)
    ensures ReadsAsArg(OneArg(a), PlainArg(a))
    decreases a
  {
    WrittenReads(a.e);
  }

  /** Closed, or minus signs in front of something closed. */
  ghost predicate SignedClosed(ts: seq<Token>) {
    |ts| > 0 && (Closed(ts) || (ts[0] == Operator(Sub) && SignedClosed(ts[1..])))
  }

  predicate StartsWithOperand(ts: seq<Token>) {
    |ts| > 0 && (ts[0].Atom? || ts[0] == LPar || ts[0].Opening?)
  }

  lemma EnclosedIsClosed(e: OExpr)
    requires Enclosed(e) && !Signed(e)
    ensures Closed(Tokens(e)) && StartsWithOperand(Tokens(e))
  {
    match e {
      case OParen(x) =>
        WrittenReads(x);
        ReadableIsNested(Tokens(x), Plain(x));
        ParensClose(LPar, Tokens(x));
      case OApp(f, args) =>
        ArgsWritten(args);
        ArgsAreBalanced(ArgTokens(args), PlainArgs(args));
        ParensClose(Opening(f), ArgTokens(args));
      case OInt(_) => BalancedOne(Tokens(e)[0]);
      case OLit(_, _) => BalancedOne(Tokens(e)[0]);
      case ORef(_) => BalancedOne(Tokens(e)[0]);
      case OFraction(_) => BalancedOne(Tokens(e)[0]);
    }
  }

  /** An operand that is enclosed but for minus signs of its own. */
  predicate SignedOperand(e: OExpr) {
    Enclosed(e) || ((e.ONeg? || e.OMinus?) && SignedOperand(e.e))
  }

  lemma {:induction false} OperandIsSignedClosed(e: OExpr)
    requires SignedOperand(e)
    ensures SignedClosed(Tokens(e))
  {
    if e.ONeg? || e.OMinus? {
      OperandIsSignedClosed(e.e);
      assert Tokens(e)[1..] == Tokens(e.e);
    } else if Signed(e) {
      var literal := Tokens(e)[1];
      BalancedOne(literal);
      assert Tokens(e)[1..] == [literal];
      assert [literal][..1] == [literal];
      assert Closed([literal]);
    } else {
      EnclosedIsClosed(e);
    }
  }

  // ----- and in one way only

  /** No sign stands left of an operator, anywhere, neither that of a literal nor one in front of an operation. */
  predicate UnsignedLefts(e: OExpr) {
    match e
    case OBin(_, l, r) => !Signed(l) && UnsignedLefts(l) && UnsignedLefts(r)
    case ONeg(x) => UnsignedLefts(x)
    case OMinus(x) => !x.OBin? && UnsignedLefts(x)
    case ONot(x) => UnsignedLefts(x)
    case OParen(x) => UnsignedLefts(x)
    case OApp(_, args) => forall i :: 0 <= i < |args| ==> UnsignedLefts(args[i].e)
    case _ => true
  }

  /** What stands before an operator, if it is to be read on its own. */
  ghost predicate LeftOperand(ts: seq<Token>, k: int)
    requires 0 <= k <= |ts|
  {
    Depth(ts[..k]) == 0 && EndsWell(ts[..k])
  }

  lemma NestedIsLeftOperand(ts: seq<Token>, k: int)
    requires 0 <= k <= |ts| && WellNested(ts[..k])
    ensures LeftOperand(ts, k)
  {
  }

  lemma UnsplitByPrefix(t: Token, ts: seq<Token>, k: int)
    requires Weight(t) == 0 && !t.Atom? && 0 <= k <= |ts| && (k > 0 ==> !LeftOperand(ts, k - 1))
    ensures !LeftOperand([t] + ts, k)
  {
    var all := [t] + ts;
    if k > 0 {
      assert all[..k] == [t] + ts[..k - 1];
      DepthOne(t);
      DepthAppend([t], ts[..k - 1]);
    }
  }

  /** A closed operand with its signs is split by no operator. */
  lemma {:induction false} Unsplit(ts: seq<Token>, k: int)
    requires SignedClosed(ts) && 0 <= k < |ts| && ts[k].Operator?
    ensures !LeftOperand(ts, k)
    decreases |ts|
  {
    if !Closed(ts) {
      if k > 0 { Unsplit(ts[1..], k - 1); }
      UnsplitByPrefix(ts[0], ts[1..], k);
      assert ts == [ts[0]] + ts[1..];
    }
  }

  /** After a closed left operand and its operator, the only place to split is that operator. */
  lemma OnlySplit(a: seq<Token>, op: Op, b: seq<Token>, k: int)
    requires Closed(a) && SignedClosed(b)
    requires 0 <= k <= |a| + |b| && (a + [Operator(op)] + b)[k].Operator? && k != |a|
    ensures !LeftOperand(a + [Operator(op)] + b, k)
  {
    hide Depth;
    var ts := a + [Operator(op)] + b;
    if k < |a| {
      assert ts[..k] == a[..k];
    } else {
      LaterSplit(a, op, b, k - |a| - 1);
    }
  }

  lemma LaterSplit(a: seq<Token>, op: Op, b: seq<Token>, j: int)
    requires Closed(a) && SignedClosed(b) && 0 <= j < |b| && b[j].Operator?
    ensures !LeftOperand(a + [Operator(op)] + b, |a| + 1 + j)
  {
    hide Depth, Closed, SignedClosed;
    var before := a + [Operator(op)] + b[..j];
    assert (a + [Operator(op)] + b)[..|a| + 1 + j] == before;
    DepthAppend(a + [Operator(op)], b[..j]);
    DepthAppend(a, [Operator(op)]);
    DepthOne(Operator(op));
    ClosedIsBalanced(a);
    Unsplit(b, j);
    if j == 0 { assert before[|a|] == Operator(op); }
  }

  lemma ClosedIsBalanced(a: seq<Token>)
    requires Closed(a)
    ensures Depth(a) == 0
  {
  }

  lemma {:induction false} UniqueReading(e: OExpr, e': OExpr)
    requires Readable(e) && UnsignedLefts(e) && ReadsAs(Tokens(e), e')
    ensures e' == Plain(e)
    decreases e, 1
  {
    match e {
      case OBin(_, _, _) => UniqueBin(e, e');
      case ONeg(x) =>
        assert Tokens(e)[1..] == Tokens(x);
        OperandIsSignedClosed(x);
        NoBinReading(e, e');
        if e'.ONeg? { UniqueReading(x, e'.e); }
      case OMinus(x) =>
        assert Tokens(e)[1..] == Tokens(x);
        NoBinReading(e, e');
        if e'.ONeg? { UniqueReading(x, e'.e); }
      case ONot(x) =>
        assert Tokens(e)[1..] == Tokens(x);
        OperandIsSignedClosed(x);
        NoBinReading(e, e');
        if e'.ONot? { UniqueReading(x, e'.e); }
      case OParen(x) =>
        assert Tokens(e)[1..|Tokens(e)| - 1] == Tokens(x);
        NoBinReading(e, e');
        if e'.OParen? { UniqueReading(x, e'.e); }
      case OApp(f, args) =>
        assert Tokens(e)[1..|Tokens(e)| - 1] == ArgTokens(args);
        NoBinReading(e, e');
        if e'.OApp? { UniqueArgs(args, e'.args); }
      case _ => UniqueLeaf(e, e');
    }
  }

  /** Nothing but an operation is read as one. */
  lemma NoBinReading(e: OExpr, e': OExpr)
    requires !e.OBin? && Readable(e) && UnsignedLefts(e) && ReadsAs(Tokens(e), e')
    ensures !e'.OBin?
  {
    if e'.OBin? {
      var ts := Tokens(e);
      var k :| SplitsAt(ts, k, Operator(e'.op)) && ReadsAs(ts[..k], e'.l) && ReadsAs(ts[k + 1..], e'.r);
      ReadableIsNested(ts[..k], e'.l);
      NestedIsLeftOperand(ts, k);
      if e.ONot? {
        assert ts == [NotWord] + Tokens(e.e) && ts[1..] == Tokens(e.e);
        OperandIsSignedClosed(e.e);
        if k > 0 { Unsplit(Tokens(e.e), k - 1); }
        UnsplitByPrefix(NotWord, Tokens(e.e), k);
      } else {
        ReadableIsSigned(e);
        OperandIsSignedClosed(e);
        Unsplit(ts, k);
      }
      assert false;
    }
  }

  lemma {:induction false} ReadableIsSigned(e: OExpr)
    requires !e.OBin? && !e.ONot? && Readable(e) && UnsignedLefts(e)
    ensures SignedOperand(e)
  {
    if e.OMinus? { ReadableIsSigned(e.e); }
  }

  lemma UniqueLeaf(e: OExpr, e': OExpr)
    requires IsAtom(e) && ReadsAs(Tokens(e), e')
    ensures e' == Plain(e)
  {
    NoBinReading(e, e');
    if Signed(e) {
      assert Tokens(e)[1..] == [Atom(Unsigned(e))];
      if e'.ONeg? { NoMoreThanAtom(Unsigned(e), e'.e); }
    }
  }

  lemma NoMoreThanAtom(x: OExpr, e': OExpr)
    requires ReadsAs([Atom(x)], e')
    ensures e' == x
  {
  }

  lemma {:induction false} UniqueBin(e: OExpr, e': OExpr)
    requires e.OBin? && Readable(e) && UnsignedLefts(e) && ReadsAs(Tokens(e), e')
    ensures e' == Plain(e)
    decreases e, 0
  {
    hide Balanced, Closed, Depth;
    var ts, a, b := Tokens(e), Tokens(e.l), Tokens(e.r);
    EnclosedIsClosed(e.l);
    match e' {
      case OBin(op, l, r) =>
        var k :| SplitsAt(ts, k, Operator(op)) && ReadsAs(ts[..k], l) && ReadsAs(ts[k + 1..], r);
        WhereItSplits(e, k, l);
        assert ts[..k] == a && ts[k + 1..] == b;
        UniqueReading(e.l, l);
        UniqueReading(e.r, r);
      case OParen(x) =>
        assert ts == a + ([Operator(e.op)] + b);
        NotOneParenthesis(a, [Operator(e.op)] + b, e');
      case OApp(_, _) =>
        assert ts == a + ([Operator(e.op)] + b);
        NotOneParenthesis(a, [Operator(e.op)] + b, e');
      case _ =>
    }
  }

  lemma WhereItSplits(e: OExpr, k: int, l: OExpr)
    requires e.OBin? && Readable(e) && !Signed(e.l) && 0 <= k < |Tokens(e)| && Tokens(e)[k].Operator?
    requires ReadsAs(Tokens(e)[..k], l)
    ensures k == |Tokens(e.l)|
  {
    var ts, a, b := Tokens(e), Tokens(e.l), Tokens(e.r);
    EnclosedIsClosed(e.l);
    OperandIsSignedClosed(e.r);
    ReadableIsNested(ts[..k], l);
    NestedIsLeftOperand(ts, k);
    if k != |a| {
      OnlySplit(a, e.op, b, k);
      assert false;
    }
  }

  /** Without its first and last tokens, a closed operand followed by more closes too much. */
  lemma InnerDips(a: seq<Token>, rest: seq<Token>)
    requires Closed(a) && |a| > 1 && |rest| > 0 && Weight(a[0]) == 1
    ensures !Balanced((a + rest)[1..|a + rest| - 1])
  {
    var inner := (a + rest)[1..|a + rest| - 1];
    assert inner[..|a| - 1] == a[1..];
    assert a == [a[0]] + a[1..];
    DepthOne(a[0]);
    DepthAppend([a[0]], a[1..]);
    assert Depth(inner[..|a| - 1]) == -1;
  }

  lemma ClosedIsLong(a: seq<Token>)
    requires Closed(a) && Weight(a[0]) == 1
    ensures |a| > 1
  {
    assert a == [a[0]] || |a| > 1;
    DepthOne(a[0]);
  }

  /** A closed operand followed by more is not one parenthesis and not one call. */
  lemma NotOneParenthesis(a: seq<Token>, rest: seq<Token>, e': OExpr)
    requires Closed(a) && |rest| > 0 && (e'.OParen? || e'.OApp?)
    ensures !ReadsAs(a + rest, e')
  {
    hide Balanced, Closed, Depth;
    var ts := a + rest;
    if |a| > 0 && Weight(a[0]) == 1 {
      ClosedIsLong(a);
      InnerDips(a, rest);
      var inner := ts[1..|ts| - 1];
      if e'.OParen? && ReadsAs(inner, e'.e) {
        ReadableIsNested(inner, e'.e);
      } else if e'.OApp? && ReadsAsArgs(inner, e'.args) {
        ArgsAreBalanced(inner, e'.args);
      }
    } else {
      NonEmpty(a);
      assert ts[0] == a[0];
    }
  }

  lemma NonEmpty(a: seq<Token>)
    requires Closed(a)
    ensures |a| > 0
  {
  }

  lemma {:induction false} UniqueArgs(args: seq<Arg>, args': seq<Arg>)
    requires forall i :: 0 <= i < |args| ==> Readable(args[i].e) && UnsignedLefts(args[i].e)
    requires ReadsAsArgs(ArgTokens(args), args')
    ensures args' == PlainArgs(args)
    decreases args
  {
    hide Closed, Balanced, NoBareComma, Depth, Readable, UnsignedLefts, ReadsAs, Tokens, Plain;
    var ts := ArgTokens(args);
    if args == [] {
      if |args'| == 1 { ArgIsNested(ts, args'[0]); }
    } else if |args| == 1 {
      OneIsOne(args[0], args');
      UniqueArg(args[0], args'[0]);
      assert PlainArgs(args) == [PlainArg(args[0])] by { assert args[..0] == []; }
    } else {
      var front, last := args[..|args| - 1], args[|args| - 1];
      var k := LastComma(args, args');
      assert ts[..k] == ArgTokens(front) && ts[k + 1..] == OneArg(last);
      UniqueArgs(front, args'[..|args'| - 1]);
      UniqueArg(last, args'[|args'| - 1]);
      assert args' == args'[..|args'| - 1] + [args'[|args'| - 1]];
    }
  }

  lemma {:induction false} UniqueArg(a: Arg, a': Arg)
    requires Readable(a.e) && UnsignedLefts(a.e) && ReadsAsArg(OneArg(a), a')
    ensures a' == PlainArg(a)
    decreases a
  {
    UniqueReading(a.e, a'.e);
  }

  lemma OneIsOne(a: Arg, args': seq<Arg>)
    requires ReadsAsArgs(OneArg(a), args')
    ensures |args'| == 1
  {
    var ts := OneArg(a);
    ArgWritten(a);
    ArgIsNested(ts, PlainArg(a));
    if |args'| > 1 {
      var k :| SplitsAt(ts, k, Comma) && ReadsAsArgs(ts[..k], args'[..|args'| - 1]) &&
               ReadsAsArg(ts[k + 1..], args'[|args'| - 1]);
      ArgsAreBalanced(ts[..k], args'[..|args'| - 1]);
      assert false;
    }
  }

  /** Two or more arguments are read as two or more, the last of them after the last comma. */
  lemma LastComma(args: seq<Arg>, args': seq<Arg>) returns (k: int)
    requires |args| > 1 && ReadsAsArgs(ArgTokens(args), args')
    ensures |args'| > 1 && k == |ArgTokens(args[..|args| - 1])| && SplitsAt(ArgTokens(args), k, Comma)
    ensures ReadsAsArgs(ArgTokens(args)[..k], args'[..|args'| - 1])
    ensures ReadsAsArg(ArgTokens(args)[k + 1..], args'[|args'| - 1])
  {
    hide Closed, Tokens, EndsWell;
    var ts := ArgTokens(args);
    var front, last := ArgTokens(args[..|args| - 1]), OneArg(args[|args| - 1]);
    assert ts == front + ([Comma] + last) && ts[|front|] == Comma && ts[..|front|] == front;
    ArgsWritten(args[..|args| - 1]);
    ArgsAreBalanced(front, PlainArgs(args[..|args| - 1]));
    ArgWritten(args[|args| - 1]);
    ArgIsNested(last, PlainArg(args[|args| - 1]));
    if |args'| == 1 {
      ArgIsNested(ts, args'[0]);
      assert false;
    }
    k :| SplitsAt(ts, k, Comma) && ReadsAsArgs(ts[..k], args'[..|args'| - 1]) &&
         ReadsAsArg(ts[k + 1..], args'[|args'| - 1]);
    ArgsAreBalanced(ts[..k], args'[..|args'| - 1]);
    ArgIsNested(ts[k + 1..], args'[|args'| - 1]);
    CommasAgree(ts, front, last, k);
  }

  lemma CommasAgree(ts: seq<Token>, front: seq<Token>, last: seq<Token>, k: int)
    requires ts == front + ([Comma] + last) && Depth(front) == 0 && NoBareComma(last)
    requires SplitsAt(ts, k, Comma) && Depth(ts[..k]) == 0 && NoBareComma(ts[k + 1..])
    ensures k == |front|
  {
    hide Depth, NoBareComma;
    var j := k - |front| - 1;
    if k < |front| {
      assert ts[..k] == front[..k] && ts[k + 1..] == front[k + 1..] + [Comma] + last;
      AnotherFollows(front, last, k);
    } else if k > |front| {
      assert ts[..k] == front + [Comma] + last[..j] && last[j] == Comma;
      AfterComma(front, last[..j]);
      BareComma(last, j);
    }
  }

  lemma AnotherFollows(front: seq<Token>, last: seq<Token>, k: int)
    requires SplitsAt(front, k, Comma) && Depth(front[..k]) == 0 == Depth(front)
    ensures !NoBareComma(front[k + 1..] + [Comma] + last)
  {
    hide Depth, NoBareComma;
    var between := front[k + 1..];
    var rest := between + [Comma] + last;
    assert front == front[..k] + [Comma] + between && rest[..|between|] == between;
    AfterComma(front[..k], between);
    if NoBareComma(rest) { BareComma(rest, |between|); }
  }

  /** A comma changes no depth. */
  lemma AfterComma(before: seq<Token>, after: seq<Token>)
    ensures Depth(before + [Comma] + after) == Depth(before) + Depth(after)
  {
    hide Depth;
    DepthOne(Comma);
    DepthAppend(before, [Comma]);
    DepthAppend(before + [Comma], after);
  }

  lemma BareComma(ts: seq<Token>, j: int)
    requires NoBareComma(ts) && 0 <= j < |ts| && ts[j] == Comma
    ensures Depth(ts[..j]) > 0
  {
    hide Depth;
  }

  // ----- where a sign makes two readings

  /** A second reading, where a sign stands left of an operator: that of a literal negates the whole operation,
      that in front of an operation only its left operand. */
  function Other(e: OExpr): OExpr
    requires !UnsignedLefts(e)
    decreases e, 1
  {
    match e
    case OBin(op, l, r) =>
      if Signed(l) then ONeg(OBin(op, Unsigned(l), Plain(r)))
      else if !UnsignedLefts(l) then OBin(op, Other(l), Plain(r)) else OBin(op, Plain(l), Other(r))
    case ONeg(x) => ONeg(Other(x))
    case OMinus(x) => if x.OBin? then OBin(x.op, ONeg(Plain(x.l)), Plain(x.r)) else ONeg(Other(x))
    case ONot(x) => ONot(Other(x))
    case OParen(x) => OParen(Other(x))
    case OApp(f, args) => OApp(f, OtherArgs(args))
  }

  function OtherArgs(args: seq<Arg>): seq<Arg>
    requires exists i :: 0 <= i < |args| && !UnsignedLefts(args[i].e)
    decreases args
  {
    var front, last := args[..|args| - 1], args[|args| - 1];
    if UnsignedLefts(last.e) then OtherArgs(front) + [PlainArg(last)] else PlainArgs(front) + [OtherArg(last)]
  }

  function OtherArg(a: Arg): Arg
    requires !UnsignedLefts(a.e)
    decreases a
  {
    Arg(Other(a.e), NoType)
  }

  lemma {:induction false} OtherReads(e: OExpr)
    requires !UnsignedLefts(e)
    ensures ReadsAs(Tokens(e), Other(e)) && Other(e) != Plain(e)
    decreases e, 1
  {
    match e {
      case OBin(op, l, r) => OtherBinReads(e);
      case ONeg(x) =>
        OtherReads(x);
        assert Tokens(e)[1..] == Tokens(x);
      case OMinus(x) => OtherMinusReads(e);
      case ONot(x) =>
        OtherReads(x);
        assert Tokens(e)[1..] == Tokens(x);
      case OParen(x) =>
        OtherReads(x);
        assert Tokens(e)[1..|Tokens(e)| - 1] == Tokens(x);
      case OApp(f, args) =>
        OtherArgsRead(args);
        assert Tokens(e)[1..|Tokens(e)| - 1] == ArgTokens(args);
    }
  }

  lemma {:induction false} OtherMinusReads(e: OExpr)
    requires e.OMinus? && !UnsignedLefts(e)
    ensures ReadsAs(Tokens(e), Other(e)) && Other(e) != Plain(e)
    decreases e, 0
  {
    hide Readable, OtherArgs, OtherArg, ArgTokens, ReadsAsArgs, PlainArgs;
    var x, ts := e.e, Tokens(e);
    assert ts[1..] == Tokens(x);
    if x.OBin? {
      MinusOnTheLeft(x);
    } else {
      OtherReads(x);
    }
  }

  /** A sign in front of an operation is read as one of the left operand alone. */
  lemma {:induction false} MinusOnTheLeft(x: OExpr)
    requires x.OBin?
    ensures ReadsAs(Tokens(OMinus(x)), OBin(x.op, ONeg(Plain(x.l)), Plain(x.r)))
  {
    hide *;
    var left := [Operator(Sub)] + Tokens(x.l);
    WrittenReads(x.l);
    WrittenReads(x.r);
    SignReads(Tokens(x.l), Plain(x.l));
    JoinReads(left, x.op, Tokens(x.r), ONeg(Plain(x.l)), Plain(x.r));
    MinusTokens(x);
  }

  lemma SignReads(ts: seq<Token>, e: OExpr)
    requires ReadsAs(ts, e)
    ensures ReadsAs([Operator(Sub)] + ts, ONeg(e))
  {
    assert ([Operator(Sub)] + ts)[1..] == ts;
  }

  lemma JoinReads(a: seq<Token>, op: Op, b: seq<Token>, l: OExpr, r: OExpr)
    requires ReadsAs(a, l) && ReadsAs(b, r)
    ensures ReadsAs(a + [Operator(op)] + b, OBin(op, l, r))
  {
    var ts := a + [Operator(op)] + b;
    assert SplitsAt(ts, |a|, Operator(op)) && ts[..|a|] == a && ts[|a| + 1..] == b;
  }

  lemma MinusTokens(x: OExpr)
    requires x.OBin?
    ensures Tokens(OMinus(x)) == [Operator(Sub)] + Tokens(x.l) + [Operator(x.op)] + Tokens(x.r)
  {
    assert Tokens(x) == Tokens(x.l) + [Operator(x.op)] + Tokens(x.r);
  }

  lemma {:induction false} OtherBinReads(e: OExpr)
    requires e.OBin? && !UnsignedLefts(e)
    ensures ReadsAs(Tokens(e), Other(e)) && Other(e) != Plain(e)
    decreases e, 0
  {
    var ts, k := Tokens(e), |Tokens(e.l)|;
    assert ts[..k] == Tokens(e.l) && ts[k + 1..] == Tokens(e.r) && SplitsAt(ts, k, Operator(e.op));
    if Signed(e.l) {
      WrittenReads(e.r);
      var rest := ts[1..];
      assert SplitsAt(rest, 1, Operator(e.op)) && rest[..1] == [Atom(Unsigned(e.l))] && rest[2..] == Tokens(e.r);
      assert ReadsAs(rest, OBin(e.op, Unsigned(e.l), Plain(e.r)));
    } else if !UnsignedLefts(e.l) {
      OtherReads(e.l);
      WrittenReads(e.r);
    } else {
      WrittenReads(e.l);
      OtherReads(e.r);
    }
  }

  lemma {:induction false} OtherArgsRead(args: seq<Arg>)
    requires exists i :: 0 <= i < |args| && !UnsignedLefts(args[i].e)
    ensures ReadsAsArgs(ArgTokens(args), OtherArgs(args)) && OtherArgs(args) != PlainArgs(args)
    ensures |OtherArgs(args)| == |args|
    decreases args
  {
    var front, last := args[..|args| - 1], args[|args| - 1];
    if UnsignedLefts(last.e) {
      OtherArgsRead(front);
      ArgWritten(last);
    } else {
      if front != [] { ArgsWritten(front); }
      OtherArgRead(last);
    }
    var ts, other, k := ArgTokens(args), OtherArgs(args), |ArgTokens(front)|;
    assert other[|args| - 1] == if UnsignedLefts(last.e) then PlainArg(last) else OtherArg(last);
    assert other[..|args| - 1] == if UnsignedLefts(last.e) then OtherArgs(front) else PlainArgs(front);
    assert PlainArgs(args)[..|args| - 1] == PlainArgs(front) && PlainArgs(args)[|args| - 1] == PlainArg(last);
    if |args| > 1 {
      assert ts[..k] == ArgTokens(front) && ts[k + 1..] == OneArg(last) && SplitsAt(ts, k, Comma);
    }
  }

  lemma {:induction false} OtherArgRead(a: Arg)
    requires !UnsignedLefts(a.e)
    ensures ReadsAsArg(OneArg(a), OtherArg(a)) && OtherArg(a) != PlainArg(a)
    decreases a
  {
    OtherReads(a.e);
  }

  ghost predicate OnlyReading(e: OExpr) {
    forall e' :: ReadsAs(Tokens(e), e') <==> e' == Plain(e)
  }

  /** A readable expression is read back as itself and as nothing else, whatever the reader thinks of
      precedence, if and only if no sign stands left of an operator. */
  lemma UniquelyReadable(e: OExpr)
    requires Readable(e)
    ensures OnlyReading(e) <==> UnsignedLefts(e)
  {
    WrittenReads(e);
    if UnsignedLefts(e) {
      forall e' | ReadsAs(Tokens(e), e') ensures e' == Plain(e) {
        UniqueReading(e, e');
      }
    } else {
      OtherReads(e);
      assert !(ReadsAs(Tokens(e), Other(e)) <==> Other(e) == Plain(e));
    }
  }
}
