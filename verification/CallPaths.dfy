/** Which calls a message contains, by where they stand: the collected numbers are exactly those of the calls at all
    places of a block, however deeply nested, in the order of the text. */
module CallPaths {
  import opened Types
  import opened Messages
  import opened CallGraph
  import opened FuncTracker
  import FunctionConverter

  /** The place of a statement: its index in the block, then, for each statement it is nested in, the branch of a
      conditional (the else block comes last) and the index there. */
  type Path = seq<nat>

  /** The number called at a place in a block, if a call stands there. */
  function NumberIn(ss: seq<Stmt>, p: Path): Option<nat>
    decreases |p|, 0
  {
    if p == [] || p[0] >= |ss| then None else NumberAt(ss[p[0]], p[1..])
  }

  function NumberAt(s: Stmt, p: Path): Option<nat>
    decreases |p|, 1
  {
    match s.kind
    case CallStmt(num, _) => if p == [] then Some(num) else None
    case ForStmt(_, body) => NumberIn(body.statements, p)
    case IfStmt(cases, els) => NumberInBranch(cases, els, p)
    case _ => None
  }

  function NumberInBranch(cases: seq<IfCase>, els: Option<Block>, p: Path): Option<nat>
    decreases |p|, 0
  {
    if p == [] then None
    else if p[0] < |cases| then NumberIn(cases[p[0]].ifBody.statements, p[1..])
    else if p[0] == |cases| && els.Some? then NumberIn(els.value.statements, p[1..])
    else None
  }

  /** Further up in the text. */
  predicate Earlier(p: Path, q: Path) {
    q != [] && (p == [] || p[0] < q[0] || (p[0] == q[0] && Earlier(p[1..], q[1..])))
  }

  /** The places where `at` finds something, from top to bottom, and what it finds there. */
  ghost predicate Lists(ps: seq<Path>, nums: seq<nat>, at: Path -> Option<nat>) {
    && |ps| == |nums| && (forall i :: 0 <= i < |ps| ==> at(ps[i]) == Some(nums[i]))
    && (forall i, j :: 0 <= i < j < |ps| ==> Earlier(ps[i], ps[j]))
    && forall p :: at(p).Some? ==> p in ps
  }

  // ----- putting lists of places together

  lemma SameLists(ps: seq<Path>, nums: seq<nat>, at: Path -> Option<nat>, other: Path -> Option<nat>)
    requires Lists(ps, nums, at) && forall p :: at(p) == other(p)
    ensures Lists(ps, nums, other)
  {
  }

  /** The places of a part, seen from the whole. */
  function Within(k: nat, ps: seq<Path>): (r: seq<Path>)
    ensures |r| == |ps| && forall i :: 0 <= i < |ps| ==> r[i] == [k] + ps[i]
  {
    seq(|ps|, i requires 0 <= i < |ps| => [k] + ps[i])
  }

  lemma ListsBelow(k: nat, ps: seq<Path>, nums: seq<nat>, at: Path -> Option<nat>, whole: Path -> Option<nat>)
    requires Lists(ps, nums, at)
    requires forall p :: whole(p) == if p != [] && p[0] == k then at(p[1..]) else None
    ensures Lists(Within(k, ps), nums, whole)
  {
    var all := Within(k, ps);
    forall i | 0 <= i < |all| ensures whole(all[i]) == Some(nums[i]) {
      assert all[i][1..] == ps[i];
    }
    forall i, j | 0 <= i < j < |all| ensures Earlier(all[i], all[j]) {
      assert all[i][1..] == ps[i] && all[j][1..] == ps[j];
    }
    forall p | whole(p).Some? ensures p in all {
      var i :| 0 <= i < |ps| && ps[i] == p[1..];
      assert all[i] == p;
    }
  }

  lemma ListsBoth(ps: seq<Path>, qs: seq<Path>, a: seq<nat>, b: seq<nat>, first: Path -> Option<nat>,
                  second: Path -> Option<nat>, whole: Path -> Option<nat>)
    requires Lists(ps, a, first) && Lists(qs, b, second)
    requires forall p, q :: first(p).Some? && second(q).Some? ==> Earlier(p, q)
    requires forall p :: whole(p) == if first(p).Some? then first(p) else second(p)
    ensures Lists(ps + qs, a + b, whole)
  {
    var all, nums := ps + qs, a + b;
    forall i | 0 <= i < |all| ensures whole(all[i]) == Some(nums[i]) {
      if i >= |ps| && first(all[i]).Some? {
        NotEarlier(all[i]);
        assert false;
      }
    }
    forall i, j | 0 <= i < j < |all| ensures Earlier(all[i], all[j]) {
      if i < |ps| <= j {
        assert first(ps[i]).Some? && second(qs[j - |ps|]).Some?;
      } else if j < |ps| {
        assert Earlier(ps[i], ps[j]);
      } else {
        assert Earlier(qs[i - |ps|], qs[j - |ps|]);
      }
    }
  }

  lemma {:induction false} NotEarlier(p: Path)
    ensures !Earlier(p, p)
  {
    if p != [] { NotEarlier(p[1..]); }
  }

  // ----- the collected numbers

  /** The calls of the statements from number k on. */
  function NumberFrom(ss: seq<Stmt>, k: nat, p: Path): Option<nat> {
    if p == [] || p[0] < k || p[0] - k >= |ss| then None else NumberAt(ss[p[0] - k], p[1..])
  }

  function NumberInCases(cs: seq<IfCase>, k: nat, p: Path): Option<nat> {
    if p == [] || p[0] < k || p[0] - k >= |cs| then None else NumberIn(cs[p[0] - k].ifBody.statements, p[1..])
  }

  lemma {:induction false} CallsAreListed(s: Stmt) returns (ps: seq<Path>)
    ensures Lists(ps, CallsIn(s), p => NumberAt(s, p))
    decreases s
  {
    var whole := p => NumberAt(s, p);
    match s.kind {
      case ForStmt(_, body) =>
        ps := AllAreListed(body.statements, 0);
        forall p ensures NumberFrom(body.statements, 0, p) == NumberAt(s, p) {
          assert NumberAt(s, p) == NumberIn(body.statements, p);
        }
        SameLists(ps, CallsIn(s), p => NumberFrom(body.statements, 0, p), whole);
      case IfStmt(cases, els) =>
        ps := BranchesAreListed(s);
      case CallStmt(num, _) =>
        ps := [[]];
        assert forall p :: whole(p).Some? ==> p in ps;
      case _ =>
        ps := [];
    }
  }

  lemma BranchesAre(s: Stmt)
    requires s.kind.IfStmt?
    ensures forall p :: var first := NumberInCases(s.kind.cases, 0, p);
              NumberAt(s, p) ==
              if first.Some? then first
              else if s.kind.elseCase.Some? && p != [] && p[0] == |s.kind.cases|
                   then NumberIn(s.kind.elseCase.value.statements, p[1..])
              else None
  {
    hide NumberIn;
    forall p
      ensures NumberAt(s, p) == NumberInBranch(s.kind.cases, s.kind.elseCase, p)
    {
    }
  }

  lemma {:induction false} BranchesAreListed(s: Stmt) returns (ps: seq<Path>)
    requires s.kind.IfStmt?
    ensures Lists(ps, CallsIn(s), p => NumberAt(s, p))
    decreases s.kind
  {
    var cases, els := s.kind.cases, s.kind.elseCase;
    var whole, first := p => NumberAt(s, p), p => NumberInCases(cases, 0, p);
    ps := CasesAreListed(cases, 0);
    BranchesAre(s);
    if els.Some? {
      var body, k := els.value.statements, |cases|;
      var inner := AllAreListed(body, 0);
      var second := (p: Path) => if p != [] && p[0] == k then NumberIn(body, p[1..]) else None;
      SameLists(inner, CallsInAll(body), p => NumberFrom(body, 0, p), p => NumberIn(body, p));
      ListsBelow(k, inner, CallsInAll(body), p => NumberIn(body, p), second);
      ListsBoth(ps, Within(k, inner), CallsInCases(cases), CallsInAll(body), first, second, whole);
      ps := ps + Within(k, inner);
    } else {
      SameLists(ps, CallsInCases(cases), first, whole);
      assert CallsInCases(cases) + [] == CallsInCases(cases);
    }
  }

  lemma {:induction false} AllAreListed(ss: seq<Stmt>, k: nat) returns (ps: seq<Path>)
    ensures Lists(ps, CallsInAll(ss), p => NumberFrom(ss, k, p))
    decreases ss
  {
    if ss == [] {
      ps := [];
    } else {
      var inner := CallsAreListed(ss[0]);
      var rest := AllAreListed(ss[1..], k + 1);
      var first := (p: Path) => if p != [] && p[0] == k then NumberAt(ss[0], p[1..]) else None;
      ListsBelow(k, inner, CallsIn(ss[0]), p => NumberAt(ss[0], p), first);
      ListsBoth(Within(k, inner), rest, CallsIn(ss[0]), CallsInAll(ss[1..]), first, p => NumberFrom(ss[1..], k + 1, p),
                p => NumberFrom(ss, k, p));
      ps := Within(k, inner) + rest;
    }
  }

  lemma {:induction false} CasesAreListed(cs: seq<IfCase>, k: nat) returns (ps: seq<Path>)
    ensures Lists(ps, CallsInCases(cs), p => NumberInCases(cs, k, p))
    decreases cs
  {
    if cs == [] {
      ps := [];
    } else {
      var body := cs[0].ifBody.statements;
      var inner := CaseIsListed(cs[0]);
      var rest := CasesAreListed(cs[1..], k + 1);
      var first := (p: Path) => if p != [] && p[0] == k then NumberIn(body, p[1..]) else None;
      ListsBelow(k, inner, CallsInAll(body), p => NumberIn(body, p), first);
      ListsBoth(Within(k, inner), rest, CallsInCase(cs[0]), CallsInCases(cs[1..]), first,
                p => NumberInCases(cs[1..], k + 1, p), p => NumberInCases(cs, k, p));
      ps := Within(k, inner) + rest;
    }
  }

  lemma {:induction false} CaseIsListed(c: IfCase) returns (ps: seq<Path>)
    ensures Lists(ps, CallsInAll(c.ifBody.statements), p => NumberIn(c.ifBody.statements, p))
    decreases c
  {
    var body := c.ifBody.statements;
    ps := AllAreListed(body, 0);
    SameLists(ps, CallsInAll(body), p => NumberFrom(body, 0, p), p => NumberIn(body, p));
  }

  /** The numbers collected for a block are those of its calls, at any depth, from top to bottom. */
  lemma CallsInBlock(ss: seq<Stmt>) returns (ps: seq<Path>)
    ensures Lists(ps, CallsInAll(ss), p => NumberIn(ss, p))
  {
    ps := AllAreListed(ss, 0);
    SameLists(ps, CallsInAll(ss), p => NumberFrom(ss, 0, p), p => NumberIn(ss, p));
  }

  // ----- the call graph of the message

  /** A call at place p asks for function c, which is internal. */
  predicate AsksFor(ss: seq<Stmt>, fs: seq<Function>, p: Path, c: nat)
    requires |fs| > 0
  {
    var num := NumberIn(ss, p);
    num.Some? && num.value % |fs| == c && !fs[c].external
  }

  /** A function calls another in the graph if and only if some call of its block, at any depth, asks for it and it
      is internal. */
  lemma CalleesExact(ms: seq<FuncMessage>, fs: seq<Function>, i: nat, c: nat)
    requires i < |fs| <= |ms|
    ensures c in Callees(FunctionConverter.CallsOf(ms, fs), i) <==>
            exists p :: AsksFor(ms[i].block.statements, fs, p, c)
  {
    hide CallsInAll, AsksFor, FunctionConverter.AddCalls;
    CollectedExact(ms[i].block.statements, fs, c);
    assert Callees(FunctionConverter.CallsOf(ms, fs), i) == FunctionConverter.Collected(ms[i], fs);
  }

  lemma CollectedExact(ss: seq<Stmt>, fs: seq<Function>, c: nat)
    requires |fs| > 0
    ensures c in FunctionConverter.AddCalls([], CallsInAll(ss), fs) <==> exists p :: AsksFor(ss, fs, p, c)
  {
    hide CallsInAll, NumberIn, FunctionConverter.AddCalls, Earlier;
    var nums := CallsInAll(ss);
    var ps := CallsInBlock(ss);
    FunctionConverter.AddCallsExact([], nums, fs);
    if c in FunctionConverter.AddCalls([], nums, fs) {
      var k :| 0 <= k < |nums| && c == nums[k] % |fs| && !fs[c].external;
      assert AsksFor(ss, fs, ps[k], c);
    }
    if p :| AsksFor(ss, fs, p, c) {
      assert p in ps;
      var k :| 0 <= k < |ps| && ps[k] == p;
      assert nums[k] == NumberIn(ss, p).value;
    }
  }
}
