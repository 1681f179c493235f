/** Collecting the call graph of a message, breaking its cycles and ordering the functions callees first. */
module FunctionConverter {
  import opened Types
  import opened CallGraph
  import opened Messages
  import opened FuncTracker

  // ----- collecting calls

  /** Adds the called functions that may be called (not external ones), each once, in order. */
  function AddCalls(calls: seq<nat>, nums: seq<nat>, fs: seq<Function>): seq<nat>
    requires |fs| > 0
    decreases nums
  {
    if nums == [] then calls else AddCalls(AddCall(calls, nums[0], fs), nums[1..], fs)
  }

  function AddCall(calls: seq<nat>, num: nat, fs: seq<Function>): seq<nat>
    requires |fs| > 0
  {
    var id := num % |fs|;
    if id !in calls && !fs[id].external then calls + [id] else calls
  }

  lemma {:induction false} AddCallsAppend(calls: seq<nat>, a: seq<nat>, b: seq<nat>, fs: seq<Function>)
    requires |fs| > 0
    ensures AddCalls(calls, a + b, fs) == AddCalls(AddCalls(calls, a, fs), b, fs)
    decreases |a|
  {
    if a == [] {
      assert a + b == b;
    } else {
      assert (a + b)[1..] == a[1..] + b;
      AddCallsAppend(AddCall(calls, a[0], fs), a[1..], b, fs);
    }
  }

  /** What is collected: every called number modulo the number of functions that names an internal function,
      once each, and nothing else. */
  lemma {:induction false} AddCallsExact(calls: seq<nat>, nums: seq<nat>, fs: seq<Function>)
    requires |fs| > 0 && NoDup(calls) && Below(calls, |fs|)
    ensures NoDup(AddCalls(calls, nums, fs)) && Below(AddCalls(calls, nums, fs), |fs|)
    ensures forall id :: id in AddCalls(calls, nums, fs) <==>
              id in calls || (exists k :: 0 <= k < |nums| && id == nums[k] % |fs| && !fs[id].external)
    decreases |nums|
  {
    if nums != [] {
      var calls' := AddCall(calls, nums[0], fs);
      AddCallsExact(calls', nums[1..], fs);
      forall id
        ensures id in AddCalls(calls, nums, fs) <==>
                id in calls || (exists k :: 0 <= k < |nums| && id == nums[k] % |fs| && !fs[id].external)
      {
        if exists k :: 0 <= k < |nums[1..]| && id == nums[1..][k] % |fs| && !fs[id].external {
          var k :| 0 <= k < |nums[1..]| && id == nums[1..][k] % |fs| && !fs[id].external;
          assert id == nums[k + 1] % |fs|;
        }
        if exists k :: 0 <= k < |nums| && id == nums[k] % |fs| && !fs[id].external {
          var k :| 0 <= k < |nums| && id == nums[k] % |fs| && !fs[id].external;
          if k > 0 { assert id == nums[1..][k - 1] % |fs|; }
        }
      }
    }
  }

  /** Each callee stands where it is called first: what the first calls collect comes first. */
  lemma {:induction false} CollectedInOrder(calls: seq<nat>, nums: seq<nat>, k: nat, fs: seq<Function>)
    requires |fs| > 0 && k <= |nums|
    ensures AddCalls(calls, nums[..k], fs) <= AddCalls(calls, nums, fs)
    decreases |nums|
  {
    if k < |nums| {
      var front := nums[..|nums| - 1];
      CollectedInOrder(calls, front, k, fs);
      assert front[..k] == nums[..k] && nums == front + [nums[|nums| - 1]];
      AddCallsAppend(calls, front, [nums[|nums| - 1]], fs);
      assert [nums[|nums| - 1]][1..] == [];
    } else {
      assert nums[..k] == nums;
    }
  }

  // ----- removing refused calls one by one

  function Remove(cs: seq<nat>, v: nat): seq<nat> {
    var i := IndexOf(cs, v);
    if i < |cs| then cs[..i] + cs[i + 1..] else cs
  }

  /** Removes one occurrence of each call in turn; None when one is not there any more, which raises. */
  function RemoveAll(g: Graph, es: seq<Edge>): Option<Graph> {
    if es == [] then Some(g)
    else if es[0].callee !in Callees(g, es[0].caller) then None
    else RemoveAll(g[es[0].caller := Remove(Callees(g, es[0].caller), es[0].callee)], es[1..])
  }

  lemma {:induction false} RemoveAllAppend(g: Graph, a: seq<Edge>, b: seq<Edge>)
    ensures RemoveAll(g, a + b) ==
            if RemoveAll(g, a).None? then None else RemoveAll(RemoveAll(g, a).value, b)
    decreases |a|
  {
    if a == [] {
      assert a + b == b;
    } else {
      assert (a + b)[0] == a[0] && (a + b)[1..] == a[1..] + b;
      if a[0].callee in Callees(g, a[0].caller) {
        RemoveAllAppend(g[a[0].caller := Remove(Callees(g, a[0].caller), a[0].callee)], a[1..], b);
      }
    }
  }

  lemma NoDupTail(cs: seq<nat>)
    requires NoDup(cs) && cs != []
    ensures NoDup(cs[1..]) && cs[0] !in cs[1..]
  {
  }

  lemma RemoveTail(cs: seq<nat>, v: nat)
    requires v in cs && cs[0] != v
    ensures Remove(cs, v) == [cs[0]] + Remove(cs[1..], v)
  {
    var rest := cs[1..];
    var i := IndexOf(rest, v);
    assert IndexOf(cs, v) == i + 1;
    assert cs == [cs[0]] + rest;
    DropBehind(cs[0], rest, i);
  }

  lemma DropBehind(x: nat, rest: seq<nat>, i: nat)
    requires i < |rest|
    ensures var cs := [x] + rest; cs[..i + 1] + cs[i + 2..] == [x] + (rest[..i] + rest[i + 1..])
  {
    var cs := [x] + rest;
    assert cs[..i + 1] == [x] + rest[..i];
    assert cs[i + 2..] == rest[i + 1..];
  }

  lemma {:induction false} RemoveIsWithout(cs: seq<nat>, u: nat, v: nat)
    requires NoDup(cs) && v in cs
    ensures Remove(cs, v) == Without(cs, u, {Edge(u, v)})
  {
    var rest := cs[1..];
    NoDupTail(cs);
    if cs[0] == v {
      WithoutNothing(rest, u, {Edge(u, v)});
      assert cs[..0] + rest == [] + rest;
    } else {
      RemoveIsWithout(rest, u, v);
      RemoveTail(cs, v);
    }
  }

  lemma {:induction false} WithoutTwice(cs: seq<nat>, u: nat, a: set<Edge>, b: set<Edge>)
    ensures Without(Without(cs, u, a), u, b) == Without(cs, u, a + b)
  {
    if cs != [] {
      var rest := Without(cs[1..], u, a);
      WithoutTwice(cs[1..], u, a, b);
      if Edge(u, cs[0]) in a {
        assert Without(cs, u, a) == rest;
      } else {
        assert Without(cs, u, a) == [cs[0]] + rest;
        assert ([cs[0]] + rest)[1..] == rest;
      }
    }
  }

  lemma RemoveOneIsPrune(g: Graph, n: nat, e: Edge)
    requires WellFormed(g, n) && e.callee in Callees(g, e.caller)
    ensures g[e.caller := Remove(Callees(g, e.caller), e.callee)] == Prune(g, {e})
  {
    var h, p := g[e.caller := Remove(Callees(g, e.caller), e.callee)], Prune(g, {e});
    forall u | u in g ensures h[u] == p[u] {
      if u == e.caller {
        assert NoDup(Callees(g, u));
        RemoveIsWithout(g[u], u, e.callee);
      } else {
        WithoutNothing(g[u], u, {e});
      }
    }
    assert h.Keys == p.Keys;
  }

  lemma PruneTwice(g: Graph, a: set<Edge>, b: set<Edge>)
    ensures Prune(Prune(g, a), b) == Prune(g, a + b)
  {
    forall u | u in g ensures Without(Without(g[u], u, a), u, b) == Without(g[u], u, a + b) {
      WithoutTwice(g[u], u, a, b);
    }
  }

  lemma CalleesOfPrune(g: Graph, es: set<Edge>, u: nat)
    ensures Callees(Prune(g, es), u) == Without(Callees(g, u), u, es)
  {
  }

  /** Asking to remove a call that is not there raises, sooner or later. */
  lemma {:induction false} MissingRaises(g: Graph, n: nat, es: seq<Edge>, e: Edge)
    requires WellFormed(g, n) && e in es && e.callee !in Callees(g, e.caller)
    ensures RemoveAll(g, es).None?
    decreases |es|
  {
    if es[0].callee in Callees(g, es[0].caller) {
      RemoveOneIsPrune(g, n, es[0]);
      PruneWellFormed(g, n, {es[0]});
      CalleesOfPrune(g, {es[0]}, e.caller);
      MissingRaises(Prune(g, {es[0]}), n, es[1..], e);
    }
  }

  ghost function AsSet(es: seq<Edge>): set<Edge> {
    set e | e in es
  }

  /** Removing calls that are all there succeeds exactly when no call is removed twice. */
  lemma {:induction false} RemoveAllExact(g: Graph, n: nat, es: seq<Edge>)
    requires WellFormed(g, n) && forall i :: 0 <= i < |es| ==> es[i].callee in Callees(g, es[i].caller)
    ensures RemoveAll(g, es) == if NoDup(es) then Some(Prune(g, AsSet(es))) else None
    decreases |es|
  {
    hide Without, Prune, WellFormed, NoDup, Remove;
    if es == [] {
      PruneNothing(g);
      assert AsSet(es) == {};
      assert NoDup(es) by { NothingTwice(); }
    } else {
      var e, rest := es[0], es[1..];
      RemoveOneIsPrune(g, n, e);
      PruneWellFormed(g, n, {e});
      NoDupCons(e, rest);
      assert es == [e] + rest;
      if e in rest {
        CalleesOfPrune(g, {e}, e.caller);
        MissingAfter(Callees(g, e.caller), e);
        MissingRaises(Prune(g, {e}), n, rest, e);
      } else {
        forall i | 0 <= i < |rest| ensures rest[i].callee in Callees(Prune(g, {e}), rest[i].caller) {
          CalleesOfPrune(g, {e}, rest[i].caller);
          StillThere(Callees(g, rest[i].caller), rest[i], e);
        }
        RemoveAllExact(Prune(g, {e}), n, rest);
        PruneTwice(g, {e}, AsSet(rest));
        assert AsSet(es) == {e} + AsSet(rest);
      }
    }
  }

  lemma NothingTwice()
    ensures NoDup<Edge>([])
  {
  }

  lemma MissingAfter(cs: seq<nat>, e: Edge)
    ensures e.callee !in Without(cs, e.caller, {e})
  {
  }

  lemma StillThere(cs: seq<nat>, x: Edge, e: Edge)
    requires x.callee in cs && x != e
    ensures x.callee in Without(cs, x.caller, {e})
  {
  }

  lemma NoDupCons(e: Edge, rest: seq<Edge>)
    ensures NoDup([e] + rest) <==> e !in rest && NoDup(rest)
  {
    var es := [e] + rest;
    if NoDup(es) {
      forall i, j | 0 <= i < j < |rest| ensures rest[i] != rest[j] {
        assert es[i + 1] != es[j + 1];
      }
      forall i | 0 <= i < |rest| ensures rest[i] != e {
        assert es[0] != es[i + 1];
      }
    }
  }

  /** The pass from f raises: two different walks from f arrive at the same function, and both are refused
      the same call there. */
  ghost predicate Clash(g: Graph, f: nat) {
    exists v, w :: v != w && TwiceRefused(g, f, v, w)
  }

  ghost predicate TwiceRefused(g: Graph, f: nat, v: Walk, w: Walk) {
    BlockedBy(g, v) && BlockedBy(g, w) && v[0] == f && w[0] == f && LastCall(v) == LastCall(w)
  }

  /** The pass from f raises, after the passes before it. */
  ghost predicate PassClashes(g: Graph, n: nat, f: nat)
    requires WellFormed(g, n)
  {
    Clash(Sanitized(g, n, f), f)
  }

  /** The witness: a diamond whose bottom calls its top. Its first pass raises. */
  lemma ClashWitness()
    ensures WellFormed(DiamondCycleGraph(), 4) && Clash(Sanitized(DiamondCycleGraph(), 4, 0), 0)
  {
    hide BlockedBy;
    DiamondCycleBlocks(1);
    DiamondCycleBlocks(2);
    assert [0, 1, 3, 0][1] != [0, 2, 3, 0][1];
    assert TwiceRefused(DiamondCycleGraph(), 0, [0, 1, 3, 0], [0, 2, 3, 0]);
  }

  lemma ClashExact(g: Graph, n: nat, f: nat)
    requires WellFormed(g, n)
    ensures NoDup(Calls(Refused(g, n, f))) <==> !Clash(g, f)
  {
    hide WellFormed, BlockedBy, Refused, Calls;
    var ws := Refused(g, n, f);
    RefusedDistinct(g, n, f);
    if !NoDup(Calls(ws)) {
      var i, j :| 0 <= i < j < |ws| && Calls(ws)[i] == Calls(ws)[j];
      RefusedExact(g, n, f, ws[i]);
      RefusedExact(g, n, f, ws[j]);
      assert TwiceRefused(g, f, ws[i], ws[j]);
    }
    if Clash(g, f) {
      var v, w :| v != w && TwiceRefused(g, f, v, w);
      RefusedExact(g, n, f, v);
      RefusedExact(g, n, f, w);
      var i :| 0 <= i < |ws| && ws[i] == v;
      var j :| 0 <= j < |ws| && ws[j] == w;
      assert Calls(ws)[i] == Calls(ws)[j];
    }
  }

  /** One pass, removal by removal. */
  lemma PassByRemoval(g: Graph, n: nat, f: nat)
    requires WellFormed(g, n)
    ensures RemoveAll(g, Calls(Refused(g, n, f))) == if Clash(g, f) then None else Some(Pass(g, n, f))
  {
    var ws := Refused(g, n, f);
    forall i | 0 <= i < |ws| ensures Calls(ws)[i].callee in Callees(g, Calls(ws)[i].caller) {
      RefusedExact(g, n, f, ws[i]);
    }
    RemoveAllExact(g, n, Calls(ws));
    ClashExact(g, n, f);
    assert AsSet(Calls(ws)) == RefusedCalls(g, n, f);
  }

  lemma CallsAppend(a: seq<Walk>, b: seq<Walk>)
    requires (forall w :: w in a ==> |w| > 1) && (forall w :: w in b ==> |w| > 1)
    ensures Calls(a + b) == Calls(a) + Calls(b)
  {
  }

  // ----- ordering

  /** Every callee stands before its callers. */
  ghost predicate CalleesFirst(g: Graph, order: seq<nat>) {
    forall i :: 0 <= i < |order| ==> Listed(Callees(g, order[i]), order[..i])
  }

  ghost predicate Listed(cs: seq<nat>, order: seq<nat>) {
    forall k :: 0 <= k < |cs| ==> cs[k] in order
  }

  /** Each of 0 .. n - 1 exactly once. */
  ghost predicate IsPermutation(order: seq<nat>, n: nat) {
    |order| == n && NoDup(order) && forall i :: 0 <= i < n ==> i in order
  }

  ghost function Ids(n: nat): (r: set<nat>)
    ensures |r| == n && forall i: nat :: i in r <==> i < n
  {
    if n == 0 then {} else Ids(n - 1) + {n - 1}
  }

  lemma {:induction false} DistinctCount(s: seq<nat>)
    requires NoDup(s)
    ensures |Elements(s)| == |s|
  {
    if s != [] {
      var front, last := s[..|s| - 1], s[|s| - 1];
      DistinctCount(front);
      assert last !in front;
      assert s == front + [last];
      assert Elements(s) == Elements(front) + {last};
    } else {
      assert Elements(s) == {};
    }
  }

  lemma CompleteOrder(order: seq<nat>, n: nat)
    requires NoDup(order) && Below(order, n) && forall i :: 0 <= i < n ==> i in order
    ensures IsPermutation(order, n)
  {
    DistinctCount(order);
    assert Elements(order) == Ids(n);
  }

  /** The functions a path has not visited. */
  ghost function Unvisited(n: nat, path: Walk): set<nat> {
    set i | i in Ids(n) && i !in path
  }

  /** On an acyclic graph a walk never comes back to a function it has visited. */
  lemma AcyclicStep(g: Graph, path: Walk, c: nat)
    requires Acyclic(g) && IsWalk(g, path) && c in Callees(g, Last(path))
    ensures c !in path && IsWalk(g, path + [c])
  {
    var longer := path + [c];
    forall i | 0 <= i < |longer| - 1 ensures longer[i + 1] in Callees(g, longer[i]) {
      if i < |path| - 1 { assert path[i + 1] in Callees(g, path[i]); }
    }
    forall j | 0 <= j < |path| ensures path[j] != c {
      var part := longer[j..];
      forall i | 0 <= i < |part| - 1 ensures part[i + 1] in Callees(g, part[i]) {
        assert longer[j + i + 1] in Callees(g, longer[j + i]);
      }
      assert IsWalk(g, part);
    }
  }

  lemma EmptyOrder(g: Graph, n: nat)
    ensures CalleesFirst(g, []) && NoDup<nat>([]) && Below([], n)
  {
  }

  lemma OneStep(g: Graph, f: nat)
    ensures IsWalk(g, [f]) && Last([f]) == f
  {
  }

  // ----- the order, as a function

  /** The order after the function at the end of the walk has been asked for: its callees first, then itself,
      each unless it is there already. */
  ghost function Visited(g: Graph, n: nat, path: Walk, order: seq<nat>): seq<nat>
    requires WellFormed(g, n) && Acyclic(g) && IsWalk(g, path) && Last(path) < n
    decreases Unvisited(n, path), |Callees(g, Last(path))| + 1
  {
    var r := VisitedAll(g, n, path, Callees(g, Last(path)), order);
    if Last(path) in r then r else r + [Last(path)]
  }

  ghost function VisitedAll(g: Graph, n: nat, path: Walk, cs: seq<nat>, order: seq<nat>): seq<nat>
    requires WellFormed(g, n) && Acyclic(g) && IsWalk(g, path) && Last(path) < n
    requires cs <= Callees(g, Last(path))
    decreases Unvisited(n, path), |cs|
  {
    if cs == [] then order
    else
      var c := cs[|cs| - 1];
      StepDeeper(g, n, path, c, |cs| - 1);
      Visited(g, n, path + [c], VisitedAll(g, n, path, cs[..|cs| - 1], order))
  }

  lemma StepDeeper(g: Graph, n: nat, path: Walk, c: nat, k: nat)
    requires WellFormed(g, n) && Acyclic(g) && IsWalk(g, path) && Last(path) < n
    requires k < |Callees(g, Last(path))| && Callees(g, Last(path))[k] == c
    ensures IsWalk(g, path + [c]) && c < n && Unvisited(n, path + [c]) < Unvisited(n, path)
  {
    hide Acyclic, NoDup;
    CalleesBelow(g, n, Last(path));
    AcyclicStep(g, path, c);
    assert c in Unvisited(n, path) && c !in Unvisited(n, path + [c]);
  }

  /** The order after functions 0 .. k - 1 have been asked for. */
  ghost function OrderUpTo(g: Graph, n: nat, k: nat): seq<nat>
    requires WellFormed(g, n) && Acyclic(g) && k <= n
  {
    if k == 0 then []
    else
      assert IsWalk(g, [k - 1]);
      Visited(g, n, [k - 1], OrderUpTo(g, n, k - 1))
  }

  /** Callees are asked for one after the other: what the first ones bring comes first, and each is in the order
      when the next is asked for. */
  lemma {:induction false} CalleesInTurn(g: Graph, n: nat, path: Walk, cs: seq<nat>, k: nat, order: seq<nat>)
    requires WellFormed(g, n) && Acyclic(g) && IsWalk(g, path) && Last(path) < n
    requires cs <= Callees(g, Last(path)) && k <= |cs|
    ensures order <= VisitedAll(g, n, path, cs[..k], order) <= VisitedAll(g, n, path, cs, order)
    ensures forall i :: 0 <= i < k ==> cs[i] in VisitedAll(g, n, path, cs[..k], order)
    decreases Unvisited(n, path), |cs|
  {
    hide WellFormed, Acyclic, Unvisited, Callees;
    if k < |cs| {
      var front, c := cs[..|cs| - 1], cs[|cs| - 1];
      CalleesInTurn(g, n, path, front, k, order);
      assert front[..k] == cs[..k];
      StepDeeper(g, n, path, c, |cs| - 1);
      AskedAtTheEnd(g, n, path + [c], VisitedAll(g, n, path, front, order));
    } else if cs != [] {
      var front, c := cs[..|cs| - 1], cs[|cs| - 1];
      assert cs[..k] == cs;
      CalleesInTurn(g, n, path, front, |front|, order);
      assert front[..|front|] == front;
      StepDeeper(g, n, path, c, |cs| - 1);
      var before := VisitedAll(g, n, path, front, order);
      AskedAtTheEnd(g, n, path + [c], before);
      PrefixElements(before, VisitedAll(g, n, path, cs, order));
    } else {
      assert cs[..k] == cs;
    }
  }

  /** A function asked for is in the order afterwards, and last if it was not there. */
  lemma {:induction false} AskedAtTheEnd(g: Graph, n: nat, path: Walk, order: seq<nat>)
    requires WellFormed(g, n) && Acyclic(g) && IsWalk(g, path) && Last(path) < n
    ensures order <= Visited(g, n, path, order) && Last(path) in Visited(g, n, path, order)
    decreases Unvisited(n, path), |Callees(g, Last(path))| + 1
  {
    hide WellFormed, Acyclic, Unvisited, Callees;
    var cs := Callees(g, Last(path));
    CalleesInTurn(g, n, path, cs, |cs|, order);
    assert cs[..|cs|] == cs;
  }

  lemma {:induction false} SameVisited(g: Graph, h: Graph, n: nat, path: Walk, order: seq<nat>)
    requires WellFormed(g, n) && WellFormed(h, n) && Acyclic(g) && Acyclic(h) && SameCalls(g, h)
    requires IsWalk(g, path) && IsWalk(h, path) && Last(path) < n
    ensures Visited(g, n, path, order) == Visited(h, n, path, order)
    decreases Unvisited(n, path), |Callees(g, Last(path))| + 1
  {
    hide WellFormed, Acyclic, Unvisited, Callees;
    SameVisitedAll(g, h, n, path, Callees(g, Last(path)), order);
  }

  lemma {:induction false} SameVisitedAll(g: Graph, h: Graph, n: nat, path: Walk, cs: seq<nat>, order: seq<nat>)
    requires WellFormed(g, n) && WellFormed(h, n) && Acyclic(g) && Acyclic(h) && SameCalls(g, h)
    requires IsWalk(g, path) && IsWalk(h, path) && Last(path) < n
    requires cs <= Callees(g, Last(path)) && cs <= Callees(h, Last(path))
    ensures VisitedAll(g, n, path, cs, order) == VisitedAll(h, n, path, cs, order)
    decreases Unvisited(n, path), |cs|
  {
    hide WellFormed, Acyclic, Unvisited, Callees;
    if cs != [] {
      var c, k := cs[|cs| - 1], |cs| - 1;
      StepDeeper(g, n, path, c, k);
      StepDeeper(h, n, path, c, k);
      SameVisitedAll(g, h, n, path, cs[..k], order);
      SameVisited(g, h, n, path + [c], VisitedAll(g, n, path, cs[..k], order));
    }
  }

  /** The order depends on the calls only. */
  lemma {:induction false} SameOrder(g: Graph, h: Graph, n: nat, k: nat)
    requires WellFormed(g, n) && WellFormed(h, n) && Acyclic(g) && Acyclic(h) && SameCalls(g, h) && k <= n
    ensures OrderUpTo(g, n, k) == OrderUpTo(h, n, k)
    decreases k
  {
    hide WellFormed, Acyclic, SameCalls, Visited;
    if k > 0 {
      SameOrder(g, h, n, k - 1);
      OneStep(g, k - 1);
      OneStep(h, k - 1);
      SameVisited(g, h, n, [k - 1], OrderUpTo(g, n, k - 1));
    }
  }

  lemma PrefixElements(a: seq<nat>, b: seq<nat>)
    requires a <= b
    ensures forall x :: x in a ==> x in b
  {
    forall x | x in a ensures x in b {
      var i :| 0 <= i < |a| && a[i] == x;
      assert b[i] == x;
    }
  }

  lemma OrderAppend(g: Graph, order: seq<nat>, id: nat)
    requires CalleesFirst(g, order) && NoDup(order) && id !in order && Listed(Callees(g, id), order)
    ensures CalleesFirst(g, order + [id]) && NoDup(order + [id])
  {
    var all := order + [id];
    forall i | 0 <= i < |all| ensures Listed(Callees(g, all[i]), all[..i]) {
      if i < |order| {
        assert all[..i] == order[..i];
      } else {
        assert all[..i] == order;
      }
    }
  }

  class Converter {
    var callTree: Graph
    var sanitizedTree: Graph
    const tracker: FunctionTracker

    constructor (tracker: FunctionTracker)
      ensures this.tracker == tracker && callTree == map[]
    {
      this.tracker := tracker;
      callTree, sanitizedTree := map[], map[];
    }

    /** Adds the calls of one statement, and of the blocks nested in it, to function i. */
    method FindFuncCall(i: nat, s: Stmt)
      requires |tracker.functions| > 0
      modifies this`callTree
      ensures Updated(old(callTree), callTree, i,
                      AddCalls(old(Callees(callTree, i)), CallsIn(s), tracker.functions))
      decreases s
    {
      match s.kind {
        case ForStmt(_, body) =>
          FindAll(i, body.statements);
        case IfStmt(cases, els) =>
          FindCases(i, cases);
          AddCallsAppend(old(Callees(callTree, i)), CallsInCases(cases),
                         if els.Some? then CallsInAll(els.value.statements) else [], tracker.functions);
          if els.Some? {
            FindAll(i, els.value.statements);
          }
        case CallStmt(num, _) =>
          var id := num % |tracker.functions|;
          if id !in Callees(callTree, i) && !tracker.functions[id].external {
            callTree := callTree[i := Callees(callTree, i) + [id]];
          }
        case _ =>
      }
    }

    method FindAll(i: nat, ss: seq<Stmt>)
      requires |tracker.functions| > 0
      modifies this`callTree
      ensures Updated(old(callTree), callTree, i,
                      AddCalls(old(Callees(callTree, i)), CallsInAll(ss), tracker.functions))
      decreases ss
    {
      if ss != [] {
        AddCallsAppend(Callees(callTree, i), CallsIn(ss[0]), CallsInAll(ss[1..]), tracker.functions);
        FindFuncCall(i, ss[0]);
        FindAll(i, ss[1..]);
      }
    }

    method FindCases(i: nat, cs: seq<IfCase>)
      requires |tracker.functions| > 0
      modifies this`callTree
      ensures Updated(old(callTree), callTree, i,
                      AddCalls(old(Callees(callTree, i)), CallsInCases(cs), tracker.functions))
      decreases cs
    {
      if cs != [] {
        AddCallsAppend(Callees(callTree, i), CallsInCase(cs[0]), CallsInCases(cs[1..]), tracker.functions);
        FindCase(i, cs[0]);
        FindCases(i, cs[1..]);
      }
    }

    method FindCase(i: nat, c: IfCase)
      requires |tracker.functions| > 0
      modifies this`callTree
      ensures Updated(old(callTree), callTree, i,
                      AddCalls(old(Callees(callTree, i)), CallsInCase(c), tracker.functions))
      decreases c
    {
      FindAll(i, c.ifBody.statements);
    }

    /** The recursive search of one pass. It raises exactly when the removals it asks for do. */
    method FindCyclicCalls(id: nat, callStack: seq<nat>, ghost walk: Walk, ghost n: nat) returns (raised: bool)
      requires WellFormed(callTree, n) && |walk| > 0 && Last(walk) == id
      modifies this`sanitizedTree
      ensures RemoveAll(old(sanitizedTree), Calls(BlockedWalks(callTree, n, walk, Callees(callTree, id), callStack))) ==
              if raised then None else Some(sanitizedTree)
      decreases Unseen(n, callStack)
    {
      hide Without, NoDup, WellFormed;
      var stack, cs := callStack, Callees(callTree, id);
      CalleesBelow(callTree, n, id);
      ghost var goal := RemoveAll(sanitizedTree, Calls(BlockedWalks(callTree, n, walk, cs, stack)));
      assert cs[0..] == cs;
      for k := 0 to |cs|
        invariant Below(cs, n) && Unseen(n, stack) <= Unseen(n, callStack)
        invariant goal == RemoveAll(sanitizedTree, Calls(BlockedWalks(callTree, n, walk, cs[k..], stack)))
      {
        var c := cs[k];
        ghost var now := sanitizedTree;
        ghost var first, rest := First(callTree, n, walk, c, stack),
                                 BlockedWalks(callTree, n, walk, cs[k + 1..], Push(stack, c));
        assert cs[k..][1..] == cs[k + 1..] && cs[k..][0] == c;
        SearchUnfolds(callTree, n, walk, cs[k..], stack);
        CallsAppend(first, rest);
        RemoveAllAppend(now, Calls(first), Calls(rest));
        if c in stack {
          assert Calls(first) == [Edge(id, c)];
          if c !in Callees(sanitizedTree, id) {
            return true;
          }
          sanitizedTree := sanitizedTree[id := Remove(Callees(sanitizedTree, id), c)];
        } else {
          UnseenShrinks(n, stack, c);
          stack := stack + [c];
          var failed := FindCyclicCalls(c, stack, walk + [c], n);
          if failed {
            return true;
          }
        }
      }
      raised := false;
    }

    /** All passes, one per function in order of registration. They raise exactly when some pass clashes;
        otherwise what is left of the call graph has no cycle. */
    method ResolveCyclicDependencies() returns (raised: bool)
      requires WellFormed(callTree, |tracker.functions|) && forall u :: u in callTree ==> u < |tracker.functions|
      modifies this`sanitizedTree, this`callTree
      ensures raised <==> exists f :: 0 <= f < |tracker.functions| && PassClashes(old(callTree), |tracker.functions|, f)
      ensures !raised ==> callTree == Sanitized(old(callTree), |tracker.functions|, |tracker.functions|)
      ensures !raised ==> Acyclic(callTree)
    {
      hide Clash, Pass, WellFormed, Acyclic, BlockedWalks, Calls, SubGraph;
      var n := |tracker.functions|;
      ghost var g := callTree;
      sanitizedTree := callTree;
      for f := 0 to n
        invariant sanitizedTree == callTree == Sanitized(g, n, f)
        invariant forall k :: 0 <= k < f ==> !PassClashes(g, n, k)
      {
        PassByRemoval(callTree, n, f);
        var failed := FindCyclicCalls(f, [f], [f], n);
        assert failed <==> PassClashes(g, n, f);
        if failed {
          return true;
        }
        callTree := sanitizedTree;
      }
      SanitizedIsAcyclic(g, n);
      raised := false;
    }

    /** Puts a function after its callees. Termination is the acyclicity of the graph. */
    method FindNextId(id: nat, order: seq<nat>, ghost path: Walk, ghost n: nat) returns (r: seq<nat>)
      requires WellFormed(callTree, n) && Acyclic(callTree)
      requires IsWalk(callTree, path) && Last(path) == id && id < n
      requires CalleesFirst(callTree, order) && NoDup(order) && Below(order, n)
      ensures order <= r && id in r
      ensures CalleesFirst(callTree, r) && NoDup(r) && Below(r, n)
      ensures r == Visited(callTree, n, path, order)
      decreases Unvisited(n, path)
    {
      hide Acyclic, WellFormed, NoDup, CalleesFirst, IsWalk, Unvisited;
      r := order;
      var cs := Callees(callTree, id);
      CalleesBelow(callTree, n, id);
      assert cs[..0] == [];
      for k := 0 to |cs|
        invariant cs[..k] <= cs && r == VisitedAll(callTree, n, path, cs[..k], order)
        invariant order <= r && CalleesFirst(callTree, r) && NoDup(r) && Below(r, n)
        invariant forall j :: 0 <= j < k ==> cs[j] in r
      {
        StepDeeper(callTree, n, path, cs[k], k);
        assert cs[..k + 1][..k] == cs[..k];
        r := FindNextId(cs[k], r, path + [cs[k]], n);
      }
      assert cs[..|cs|] == cs;
      if id !in r {
        OrderAppend(callTree, r, id);
        r := r + [id];
      }
    }

    method DefineOrder() returns (order: seq<nat>)
      requires WellFormed(callTree, |tracker.functions|) && Acyclic(callTree)
      ensures IsPermutation(order, |tracker.functions|) && CalleesFirst(callTree, order)
      ensures order == OrderUpTo(callTree, |tracker.functions|, |tracker.functions|)
    {
      hide Acyclic, WellFormed, NoDup, CalleesFirst, IsWalk, IsPermutation, Visited;
      var n := |tracker.functions|;
      order := [];
      EmptyOrder(callTree, n);
      for f := 0 to n
        invariant CalleesFirst(callTree, order) && NoDup(order) && Below(order, n)
        invariant order == OrderUpTo(callTree, n, f)
        invariant forall i :: 0 <= i < f ==> i in order
      {
        OneStep(callTree, f);
        ghost var before := order;
        order := FindNextId(f, order, [f], n);
        PrefixElements(before, order);
      }
      CompleteOrder(order, n);
    }

    /** Collects the calls of every function, breaks all cycles and orders the functions callees first. */
    method SetupOrder(fs: seq<FuncMessage>) returns (raised: bool, order: seq<nat>)
      requires callTree == map[] && |tracker.functions| <= |fs|
      modifies this`callTree, this`sanitizedTree
      ensures raised <==> SomePassClashes(fs, tracker.functions)
      ensures !raised ==>
                var n := |tracker.functions|;
                && SameCalls(callTree, Sanitized(CallsOf(fs, tracker.functions), n, n))
                && WellFormed(callTree, n) && Acyclic(callTree)
                && IsPermutation(order, n) && CalleesFirst(callTree, order) && order == OrderUpTo(callTree, n, n)
                && forall i :: 0 <= i < n ==> OnlyInternal(Callees(callTree, i), tracker.functions)
    {
      hide Acyclic, Clash, Sanitized, WellFormed, SameCalls, CallsOf;
      order := [];
      var n := |tracker.functions|;
      for i := 0 to n
        invariant forall u :: u in callTree ==> u < i
        invariant forall j :: 0 <= j < i ==> Callees(callTree, j) == Collected(fs[j], tracker.functions)
      {
        FindAll(i, fs[i].block.statements);
      }
      ghost var g, h := callTree, CallsOf(fs, tracker.functions);
      CollectedIs(g, fs, tracker.functions);
      raised := ResolveCyclicDependencies();
      SomeClashIs(g, fs, tracker.functions);
      if !raised {
        SameSanitized(g, h, n, n);
        SanitizedIsInternal(callTree, fs, tracker.functions);
        order := DefineOrder();
      }
    }
  }

  ghost predicate Updated(before: Graph, after: Graph, i: nat, calls: seq<nat>) {
    && Callees(after, i) == calls
    && (forall u :: u != i ==> Callees(after, u) == Callees(before, u))
    && after.Keys <= before.Keys + {i}
  }

  lemma CalleesBelow(g: Graph, n: nat, id: nat)
    requires WellFormed(g, n)
    ensures Below(Callees(g, id), n)
  {
  }

  /** The calls found in the message of one function. */
  function Collected(f: FuncMessage, fs: seq<Function>): seq<nat>
    requires |fs| > 0
  {
    AddCalls([], CallsInAll(f.block.statements), fs)
  }

  /** The call graph of a message, before anything is deleted. */
  function CallsOf(ms: seq<FuncMessage>, fs: seq<Function>): (g: Graph)
    requires |fs| <= |ms|
    ensures WellFormed(g, |fs|) && forall u :: u in g ==> u < |fs|
  {
    CollectedBelow(ms, fs);
    map i | 0 <= i < |fs| :: Collected(ms[i], fs)
  }

  lemma CollectedBelow(ms: seq<FuncMessage>, fs: seq<Function>)
    requires |fs| <= |ms|
    ensures forall i :: 0 <= i < |fs| ==> NoDup(Collected(ms[i], fs)) && Below(Collected(ms[i], fs), |fs|)
    ensures forall i :: 0 <= i < |fs| ==> OnlyInternal(Collected(ms[i], fs), fs)
  {
    forall i | 0 <= i < |fs|
      ensures NoDup(Collected(ms[i], fs)) && Below(Collected(ms[i], fs), |fs|) && OnlyInternal(Collected(ms[i], fs), fs)
    {
      AddCallsExact([], CallsInAll(ms[i].block.statements), fs);
    }
  }

  ghost predicate OnlyInternal(cs: seq<nat>, fs: seq<Function>) {
    forall v :: v in cs ==> v < |fs| && !fs[v].external
  }

  lemma CollectedIs(g: Graph, ms: seq<FuncMessage>, fs: seq<Function>)
    requires |fs| <= |ms| && (forall u :: u in g ==> u < |fs|)
    requires forall i :: 0 <= i < |fs| ==> Callees(g, i) == Collected(ms[i], fs)
    ensures WellFormed(g, |fs|) && SameCalls(g, CallsOf(ms, fs))
  {
    hide NoDup, Below, Collected;
    var h := CallsOf(ms, fs);
    forall u: nat ensures Callees(g, u) == Callees(h, u) {
      if u < |fs| { assert h[u] == Collected(ms[u], fs); }
    }
    forall u: nat ensures NoDup(Callees(g, u)) && Below(Callees(g, u), |fs|) {
      assert Callees(g, u) == Callees(h, u);
    }
  }

  lemma SanitizedIsInternal(h: Graph, ms: seq<FuncMessage>, fs: seq<Function>)
    requires |fs| <= |ms| && SameCalls(h, Sanitized(CallsOf(ms, fs), |fs|, |fs|))
    ensures forall i :: 0 <= i < |fs| ==> OnlyInternal(Callees(h, i), fs)
  {
    hide Pass, WellFormed, Collected;
    var g := CallsOf(ms, fs);
    SanitizedShrinks(g, |fs|, 0, |fs|);
    CollectedBelow(ms, fs);
    forall i | 0 <= i < |fs| ensures OnlyInternal(Callees(h, i), fs) {
      assert Callees(h, i) == Callees(Sanitized(g, |fs|, |fs|), i);
      assert Callees(g, i) == Collected(ms[i], fs);
    }
  }

  /** Some pass over the call graph of the message is refused the same call on two walks. */
  ghost predicate SomePassClashes(ms: seq<FuncMessage>, fs: seq<Function>)
    requires |fs| <= |ms|
  {
    exists f :: 0 <= f < |fs| && PassClashes(CallsOf(ms, fs), |fs|, f)
  }

  lemma SomeClashIs(g: Graph, ms: seq<FuncMessage>, fs: seq<Function>)
    requires |fs| <= |ms| && WellFormed(g, |fs|) && SameCalls(g, CallsOf(ms, fs))
    ensures SomePassClashes(ms, fs) <==> exists f :: 0 <= f < |fs| && PassClashes(g, |fs|, f)
  {
    hide Clash, Sanitized, WellFormed, SameCalls, CallsOf;
    var h, n := CallsOf(ms, fs), |fs|;
    forall f | 0 <= f < n ensures PassClashes(g, n, f) <==> PassClashes(h, n, f) {
      SameSanitized(g, h, n, f);
      SameClash(Sanitized(g, n, f), Sanitized(h, n, f), f);
    }
  }

  lemma SameClash(g: Graph, h: Graph, f: nat)
    requires SameCalls(g, h)
    ensures Clash(g, f) <==> Clash(h, f)
  {
    ClashIn(g, h, f);
    ClashIn(h, g, f);
  }

  lemma ClashIn(g: Graph, h: Graph, f: nat)
    requires SameCalls(g, h)
    ensures Clash(g, f) ==> Clash(h, f)
  {
    hide BlockedBy, SameCalls;
    if Clash(g, f) {
      var v, w :| v != w && TwiceRefused(g, f, v, w);
      SameBlocked(g, h, v);
      SameBlocked(g, h, w);
      assert TwiceRefused(h, f, v, w);
    }
  }
}
