/** The call graph of a generated contract, and what the cycle search does to it.

    A graph maps a function id to the ids it calls, in order of first call. The cycle search is a
    depth-first walk whose call stack is never popped between siblings: a callee stays on the stack
    while its later siblings are explored. So a call is blocked not only when it closes a cycle, and
    the definitions below describe what is blocked by walks instead of by back edges. */
module CallGraph {

  type Graph = map<nat, seq<nat>>
  type Walk = seq<nat>
  datatype Edge = Edge(caller: nat, callee: nat)

  /** An id without an entry calls nothing (the source's dictionaries default to an empty list). */
  function Callees(g: Graph, id: nat): seq<nat> {
    if id in g then g[id] else []
  }

  ghost predicate NoDup<T(!new)>(s: seq<T>) {
    forall i, j :: 0 <= i < j < |s| ==> s[i] != s[j]
  }

  ghost predicate Below(cs: seq<nat>, n: nat) {
    forall i :: 0 <= i < |cs| ==> cs[i] < n
  }

  /** Every callee is one of the n functions, and no function lists a callee twice. */
  ghost predicate WellFormed(g: Graph, n: nat) {
    forall u: nat :: NoDup(Callees(g, u)) && Below(Callees(g, u), n)
  }

  /** Every edge of h is an edge of g. */
  ghost predicate SubGraph(h: Graph, g: Graph) {
    forall u: nat, v: nat :: v in Callees(h, u) ==> v in Callees(g, u)
  }

  ghost predicate IsWalk(g: Graph, w: Walk) {
    |w| > 0 && forall i :: 0 <= i < |w| - 1 ==> w[i + 1] in Callees(g, w[i])
  }

  /** No walk of at least one call returns to where it started: no recursion, direct or mutual. */
  ghost predicate Acyclic(g: Graph) {
    forall w: Walk :: IsWalk(g, w) && |w| > 1 ==> w[0] != w[|w| - 1]
  }

  function Front(w: Walk): Walk
    requires |w| > 0
  {
    w[..|w| - 1]
  }

  function Last(w: Walk): nat
    requires |w| > 0
  {
    w[|w| - 1]
  }

  /** The last call of a walk. */
  function LastCall(w: Walk): Edge
    requires |w| > 1
  {
    Edge(w[|w| - 2], w[|w| - 1])
  }

  function IndexOf(s: seq<nat>, x: nat): (i: nat)
    ensures i <= |s|
    ensures i < |s| ==> s[i] == x
    ensures i == |s| <==> x !in s
  {
    if s == [] then 0 else if s[0] == x then 0 else 1 + IndexOf(s[1..], x)
  }

  /** The callees of u up to and including v: the siblings on the stack when v is entered. */
  function Siblings(g: Graph, u: nat, v: nat): seq<nat> {
    var cs := Callees(g, u);
    var i := IndexOf(cs, v);
    if i < |cs| then cs[..i + 1] else cs
  }

  ghost function Elements(s: seq<nat>): set<nat> {
    set v | v in s
  }

  /** What the walk has put on the call stack: its start, and at every step the elder siblings of the
      callee it enters together with that callee. */
  ghost function Seen(g: Graph, w: Walk): set<nat>
    requires |w| > 0
  {
    if |w| == 1 then {w[0]}
    else Seen(g, Front(w)) + Elements(Siblings(g, w[|w| - 2], w[|w| - 1]))
  }

  /** The search started at w[0] follows w: it never enters an id that is already on the stack. */
  ghost predicate Explored(g: Graph, w: Walk) {
    |w| > 0 &&
    (|w| > 1 ==> Explored(g, Front(w)) && Last(w) in Callees(g, w[|w| - 2]) && Last(w) !in Seen(g, Front(w)))
  }

  /** The search started at w[0] follows w up to its last call, and refuses that call. */
  ghost predicate BlockedBy(g: Graph, w: Walk) {
    |w| > 1 && Explored(g, Front(w)) && Last(w) in Callees(g, w[|w| - 2]) && Last(w) in Seen(g, Front(w))
  }

  // ----- the search itself, as a function

  ghost function Unseen(n: nat, stack: seq<nat>): set<nat> {
    set i: nat | i < n && i !in stack
  }

  /** The refused calls in the order the search meets them, each as the walk that leads to it. `walk` is
      the path to the function under search, `cs` its callees still to do, `stack` the call stack. */
  ghost function BlockedWalks(g: Graph, n: nat, walk: Walk, cs: seq<nat>, stack: seq<nat>): (r: seq<Walk>)
    requires WellFormed(g, n) && |walk| > 0 && Below(cs, n)
    ensures forall w :: w in r ==> |w| > 1
    decreases Unseen(n, stack), |cs|
  {
    if cs == [] then []
    else if cs[0] in stack then [walk + [cs[0]]] + BlockedWalks(g, n, walk, cs[1..], stack)
    else
      assert Unseen(n, stack + [cs[0]]) < Unseen(n, stack) by {
        assert cs[0] in Unseen(n, stack) && cs[0] !in Unseen(n, stack + [cs[0]]);
      }
      BlockedWalks(g, n, walk + [cs[0]], Callees(g, cs[0]), stack + [cs[0]])
      + BlockedWalks(g, n, walk, cs[1..], stack + [cs[0]])
  }

  /** All calls refused in the pass that starts at function f. */
  ghost function Refused(g: Graph, n: nat, f: nat): (r: seq<Walk>)
    requires WellFormed(g, n)
    ensures forall w :: w in r ==> |w| > 1
  {
    BlockedWalks(g, n, [f], Callees(g, f), [f])
  }

  ghost function Calls(ws: seq<Walk>): (es: seq<Edge>)
    requires forall w :: w in ws ==> |w| > 1
    ensures |es| == |ws| && forall i :: 0 <= i < |ws| ==> es[i] == LastCall(ws[i])
  {
    seq(|ws|, i requires 0 <= i < |ws| => LastCall(ws[i]))
  }

  ghost predicate Extends(w: Walk, walk: Walk) {
    |w| > |walk| && w[..|walk|] == walk
  }

  lemma {:induction false} ExploredPrefix(g: Graph, w: Walk, k: nat)
    requires Explored(g, w) && 0 < k <= |w|
    ensures Explored(g, w[..k])
    decreases |w|
  {
    if k < |w| {
      assert Front(w)[..k] == w[..k];
      ExploredPrefix(g, Front(w), k);
    } else {
      assert w[..k] == w;
    }
  }

  lemma {:induction false} WalkIsSeen(g: Graph, w: Walk)
    requires Explored(g, w)
    ensures forall v :: v in w ==> v in Seen(g, w)
  {
    hide Callees, Siblings;
    if |w| > 1 {
      WalkIsSeen(g, Front(w));
      assert w == Front(w) + [Last(w)];
      OwnSibling(g, w[|w| - 2], Last(w));
    }
  }

  lemma OwnSibling(g: Graph, u: nat, v: nat)
    requires v in Callees(g, u)
    ensures v in Siblings(g, u, v)
  {
    var cs := Callees(g, u);
    assert Siblings(g, u, v)[IndexOf(cs, v)] == v;
  }

  /** State of the search at one function: the callees in `done` are dealt with, those in `cs` are not. */
  ghost predicate Searching(g: Graph, walk: Walk, done: seq<nat>, cs: seq<nat>, stack: seq<nat>) {
    |walk| > 0 && Explored(g, walk) && done + cs == Callees(g, Last(walk)) &&
    forall v :: v in stack <==> v in Seen(g, walk) || v in done
  }

  lemma SiblingsAre(g: Graph, n: nat, u: nat, done: seq<nat>, cs: seq<nat>)
    requires WellFormed(g, n) && done + cs == Callees(g, u) && cs != []
    ensures Siblings(g, u, cs[0]) == done + [cs[0]]
  {
    var all := Callees(g, u);
    assert all[|done|] == cs[0];
    assert IndexOf(all, cs[0]) == |done|;
    assert all[..|done| + 1] == done + [cs[0]];
  }

  lemma SearchSteps(g: Graph, n: nat, walk: Walk, done: seq<nat>, cs: seq<nat>, stack: seq<nat>)
    requires WellFormed(g, n) && cs != [] && Searching(g, walk, done, cs, stack)
    ensures cs[0] in stack ==> Searching(g, walk, done + [cs[0]], cs[1..], stack)
    ensures cs[0] !in stack ==> Searching(g, walk, done + [cs[0]], cs[1..], stack + [cs[0]])
    ensures cs[0] !in stack ==>
              Searching(g, walk + [cs[0]], [], Callees(g, cs[0]), stack + [cs[0]])
    ensures cs[0] in stack <==> cs[0] in Seen(g, walk)
  {
    hide WellFormed, Callees, Siblings;
    var c, u := cs[0], Last(walk);
    SiblingsAre(g, n, u, done, cs);
    NotDoneYet(g, n, u, done, cs);
    assert (done + [c]) + cs[1..] == done + cs;
    var deeper := walk + [c];
    assert Front(deeper) == walk && deeper[|deeper| - 2] == u && Last(deeper) == c;
    if c !in stack { EntersCallee(g, walk, done, cs); }
    assert [] + Callees(g, c) == Callees(g, c);
  }

  lemma NotDoneYet(g: Graph, n: nat, u: nat, done: seq<nat>, cs: seq<nat>)
    requires WellFormed(g, n) && done + cs == Callees(g, u) && cs != []
    ensures cs[0] !in done && cs[0] in Callees(g, u)
  {
    hide Below;
    assert Callees(g, u)[|done|] == cs[0];
    forall i | 0 <= i < |done| ensures done[i] != cs[0] {
      assert Callees(g, u)[i] == done[i];
    }
  }

  /** Entering a callee puts it and its elder siblings on the stack. */
  lemma EntersCallee(g: Graph, walk: Walk, done: seq<nat>, cs: seq<nat>)
    requires |walk| > 0 && Explored(g, walk) && cs != [] && cs[0] in Callees(g, Last(walk)) && cs[0] !in Seen(g, walk)
    requires Siblings(g, Last(walk), cs[0]) == done + [cs[0]]
    ensures Explored(g, walk + [cs[0]])
    ensures Seen(g, walk + [cs[0]]) == Seen(g, walk) + Elements(done + [cs[0]])
  {
    hide Callees, Siblings;
    var deeper := walk + [cs[0]];
    assert Front(deeper) == walk && deeper[|deeper| - 2] == Last(walk) && Last(deeper) == cs[0];
  }

  lemma ExtendsStep(w: Walk, walk: Walk, c: nat)
    ensures Extends(w, walk) && w[|walk|] == c && |w| > |walk| + 1 <==> Extends(w, walk + [c])
    ensures Extends(w, walk) && w[|walk|] == c && |w| == |walk| + 1 <==> w == walk + [c]
  {
    if Extends(w, walk) && w[|walk|] == c {
      assert w[..|walk| + 1] == walk + [c];
      if |w| == |walk| + 1 { assert w == w[..|walk| + 1]; }
    }
    if Extends(w, walk + [c]) {
      assert w[..|walk|] == (walk + [c])[..|walk|] == walk;
      assert w[|walk|] == w[..|walk| + 1][|walk|];
    }
  }

  /** The stack with c pushed, unless it is there already. */
  function Push(stack: seq<nat>, c: nat): seq<nat> {
    if c in stack then stack else stack + [c]
  }

  lemma UnseenShrinks(n: nat, stack: seq<nat>, c: nat)
    requires c < n && c !in stack
    ensures Unseen(n, stack + [c]) < Unseen(n, stack)
  {
    assert c in Unseen(n, stack) && c !in Unseen(n, stack + [c]);
  }

  /** What the search meets at the first callee. */
  ghost function First(g: Graph, n: nat, walk: Walk, c: nat, stack: seq<nat>): seq<Walk>
    requires WellFormed(g, n) && |walk| > 0
  {
    if c in stack then [walk + [c]] else BlockedWalks(g, n, walk + [c], Callees(g, c), stack + [c])
  }

  lemma SearchUnfolds(g: Graph, n: nat, walk: Walk, cs: seq<nat>, stack: seq<nat>)
    requires WellFormed(g, n) && |walk| > 0 && cs != [] && Below(cs, n)
    ensures BlockedWalks(g, n, walk, cs, stack) ==
            First(g, n, walk, cs[0], stack) + BlockedWalks(g, n, walk, cs[1..], Push(stack, cs[0]))
  {
  }

  /** The search meets exactly the refused calls that the walk-based definition describes. */
  lemma {:induction false} BlockedWalksExact(g: Graph, n: nat, walk: Walk, done: seq<nat>, cs: seq<nat>,
                                             stack: seq<nat>, w: Walk)
    requires WellFormed(g, n) && Searching(g, walk, done, cs, stack) && Below(cs, n)
    ensures w in BlockedWalks(g, n, walk, cs, stack) <==>
            Extends(w, walk) && w[|walk|] in cs && BlockedBy(g, w)
    decreases Unseen(n, stack), |cs|, 1
  {
    hide NoDup, Searching, Seen, Explored, BlockedWalks, BlockedBy, Unseen, First, WellFormed, Callees;
    if cs == [] {
      NothingToSearch(g, n, walk, done, stack);
    } else {
      var c := cs[0];
      SearchSteps(g, n, walk, done, cs, stack);
      FirstIsCallee(g, walk, done, cs, stack);
      SearchUnfolds(g, n, walk, cs, stack);
      if c !in stack { UnseenShrinks(n, stack, c); }
      FirstExact(g, n, walk, done, cs, stack, w);
      BlockedWalksExact(g, n, walk, done + [c], cs[1..], Push(stack, c), w);
      if Extends(w, walk) { FirstOrRest(w[|walk|], cs); }
    }
  }

  lemma NothingToSearch(g: Graph, n: nat, walk: Walk, done: seq<nat>, stack: seq<nat>)
    requires WellFormed(g, n) && Searching(g, walk, done, [], stack)
    ensures |walk| > 0 && BlockedWalks(g, n, walk, [], stack) == []
  {
  }

  lemma FirstOrRest(x: nat, cs: seq<nat>)
    requires cs != []
    ensures x in cs <==> x == cs[0] || x in cs[1..]
  {
  }

  lemma {:induction false} FirstExact(g: Graph, n: nat, walk: Walk, done: seq<nat>, cs: seq<nat>,
                                      stack: seq<nat>, w: Walk)
    requires WellFormed(g, n) && Searching(g, walk, done, cs, stack) && cs != [] && Below(cs, n)
    ensures w in First(g, n, walk, cs[0], stack) <==>
            Extends(w, walk) && w[|walk|] == cs[0] && BlockedBy(g, w)
    decreases Unseen(n, stack), |cs|, 0
  {
    hide NoDup, Searching, Seen, Explored, BlockedWalks, BlockedBy;
    var c := cs[0];
    FirstIsCallee(g, walk, done, cs, stack);
    SearchSteps(g, n, walk, done, cs, stack);
    ExtendsStep(w, walk, c);
    assert Front(walk + [c]) == walk && Last(walk + [c]) == c;
    if c in stack {
      BlockedHere(g, n, walk, done, cs, stack, w);
    } else {
      UnseenShrinks(n, stack, c);
      NotBlocked(g, walk, c);
      BlockedWalksExact(g, n, walk + [c], [], Callees(g, c), stack + [c], w);
      if Extends(w, walk + [c]) && BlockedBy(g, w) {
        NextIsCallee(g, w, |walk|);
      }
    }
  }

  lemma NotBlocked(g: Graph, walk: Walk, c: nat)
    requires |walk| > 0 && c !in Seen(g, walk)
    ensures !BlockedBy(g, walk + [c])
  {
    assert Front(walk + [c]) == walk;
  }

  lemma FirstIsCallee(g: Graph, walk: Walk, done: seq<nat>, cs: seq<nat>, stack: seq<nat>)
    requires Searching(g, walk, done, cs, stack) && cs != []
    ensures |walk| > 0 && Explored(g, walk) && cs[0] in Callees(g, Last(walk)) && done + cs == Callees(g, Last(walk))
  {
    assert Callees(g, Last(walk))[|done|] == cs[0];
  }

  lemma BlockedHere(g: Graph, n: nat, walk: Walk, done: seq<nat>, cs: seq<nat>, stack: seq<nat>, w: Walk)
    requires WellFormed(g, n) && Searching(g, walk, done, cs, stack) && cs != [] && cs[0] in stack
    ensures w == walk + [cs[0]] <==> Extends(w, walk) && w[|walk|] == cs[0] && BlockedBy(g, w)
  {
    hide WellFormed, Searching, Seen, Callees;
    var c := cs[0];
    var bad := walk + [c];
    FirstIsCallee(g, walk, done, cs, stack);
    SearchSteps(g, n, walk, done, cs, stack);
    ExtendsStep(w, walk, c);
    assert Front(bad) == walk && bad[|bad| - 2] == Last(walk) && Last(bad) == c;
    assert BlockedBy(g, bad);
    if Extends(w, bad) && BlockedBy(g, w) {
      assert Front(w)[..|bad|] == bad;
      ExploredPrefix(g, Front(w), |bad|);
      assert false;
    }
  }

  lemma NextIsCallee(g: Graph, w: Walk, k: nat)
    requires BlockedBy(g, w) && k + 1 < |w|
    ensures w[k + 1] in Callees(g, w[k])
  {
    hide Callees, Seen;
    if k + 2 < |w| {
      ExploredPrefix(g, Front(w), k + 2);
      assert Front(w)[..k + 2][k + 1] == w[k + 1];
    }
  }

  /** The search meets no walk twice. */
  lemma {:induction false} BlockedWalksDistinct(g: Graph, n: nat, walk: Walk, done: seq<nat>, cs: seq<nat>,
                                                stack: seq<nat>)
    requires WellFormed(g, n) && Searching(g, walk, done, cs, stack) && Below(cs, n)
    ensures NoDup(BlockedWalks(g, n, walk, cs, stack))
    decreases Unseen(n, stack), |cs|
  {
    hide NoDup, Searching, Seen, Explored, BlockedWalks, BlockedBy;
    if cs == [] {
      NothingToSearch(g, n, walk, done, stack);
      EmptyNoDup<Walk>();
    } else {
      var c := cs[0];
      FirstIsCallee(g, walk, done, cs, stack);
      SearchSteps(g, n, walk, done, cs, stack);
      SearchUnfolds(g, n, walk, cs, stack);
      if c !in stack {
        UnseenShrinks(n, stack, c);
        BlockedWalksDistinct(g, n, walk + [c], [], Callees(g, c), stack + [c]);
      }
      BlockedWalksDistinct(g, n, walk, done + [c], cs[1..], Push(stack, c));
      CalleeOnce(g, n, Last(walk), done, cs);
      var first, rest := First(g, n, walk, c, stack), BlockedWalks(g, n, walk, cs[1..], Push(stack, c));
      forall i, j | 0 <= i < |first| && 0 <= j < |rest|
        ensures first[i] != rest[j]
      {
        FirstExact(g, n, walk, done, cs, stack, first[i]);
        BlockedWalksExact(g, n, walk, done + [c], cs[1..], Push(stack, c), rest[j]);
      }
      NoDupAppend(first, rest);
    }
  }

  lemma EmptyNoDup<T(!new)>()
    ensures NoDup<T>([])
  {
  }

  lemma NoDupAppend<T(!new)>(a: seq<T>, b: seq<T>)
    requires NoDup(a) && NoDup(b) && forall i, j :: 0 <= i < |a| && 0 <= j < |b| ==> a[i] != b[j]
    ensures NoDup(a + b)
  {
  }

  lemma CalleeOnce(g: Graph, n: nat, u: nat, done: seq<nat>, cs: seq<nat>)
    requires WellFormed(g, n) && done + cs == Callees(g, u) && cs != []
    ensures cs[0] !in cs[1..]
  {
    assert Callees(g, u)[|done|] == cs[0];
    forall i | 0 <= i < |cs| - 1 ensures cs[1..][i] != cs[0] {
      assert Callees(g, u)[|done| + 1 + i] == cs[1..][i];
    }
  }

  /** The calls refused in the pass from f are exactly the last calls of the walks from f that are
      blocked. */
  lemma RefusedExact(g: Graph, n: nat, f: nat, w: Walk)
    requires WellFormed(g, n)
    ensures w in Refused(g, n, f) <==> BlockedBy(g, w) && w[0] == f
  {
    hide BlockedWalks, Searching, Explored, Seen, Callees, Below, NoDup;
    SearchStarts(g, f);
    BlockedWalksExact(g, n, [f], [], Callees(g, f), [f], w);
    if BlockedBy(g, w) {
      assert w[..1] == [w[0]];
      NextIsCallee(g, w, 0);
    }
    if Extends(w, [f]) {
      assert w[0] == w[..1][0];
    }
  }

  /** No blocked walk is met twice in one pass. */
  lemma RefusedDistinct(g: Graph, n: nat, f: nat)
    requires WellFormed(g, n)
    ensures NoDup(Refused(g, n, f))
  {
    SearchStarts(g, f);
    BlockedWalksDistinct(g, n, [f], [], Callees(g, f), [f]);
  }

  lemma SearchStarts(g: Graph, f: nat)
    ensures Searching(g, [f], [], Callees(g, f), [f])
  {
    assert [] + Callees(g, f) == Callees(g, f);
  }

  // ----- removing the refused calls

  /** The call graph without the given calls. */
  function Without(vs: seq<nat>, u: nat, es: set<Edge>): (r: seq<nat>)
    ensures forall v :: v in r <==> v in vs && Edge(u, v) !in es
    ensures |r| <= |vs|
  {
    if vs == [] then []
    else (if Edge(u, vs[0]) in es then [] else [vs[0]]) + Without(vs[1..], u, es)
  }

  function Prune(g: Graph, es: set<Edge>): (h: Graph) {
    map u | u in g :: Without(g[u], u, es)
  }

  lemma {:induction false} WithoutKeepsNoDup(vs: seq<nat>, u: nat, es: set<Edge>)
    requires NoDup(vs)
    ensures NoDup(Without(vs, u, es))
  {
    if vs != [] {
      assert NoDup(vs[1..]);
      WithoutKeepsNoDup(vs[1..], u, es);
      assert vs[0] !in vs[1..];
    }
  }

  lemma WithoutStaysBelow(vs: seq<nat>, u: nat, es: set<Edge>, n: nat)
    requires Below(vs, n)
    ensures Below(Without(vs, u, es), n)
  {
    var r := Without(vs, u, es);
    forall i | 0 <= i < |r| ensures r[i] < n {
      assert r[i] in r;
    }
  }

  lemma {:induction false} WithoutNothing(vs: seq<nat>, u: nat, es: set<Edge>)
    requires forall v :: v in vs ==> Edge(u, v) !in es
    ensures Without(vs, u, es) == vs
  {
    if vs != [] { WithoutNothing(vs[1..], u, es); }
  }

  lemma PruneWellFormed(g: Graph, n: nat, es: set<Edge>)
    requires WellFormed(g, n)
    ensures WellFormed(Prune(g, es), n) && SubGraph(Prune(g, es), g)
  {
    forall u: nat ensures NoDup(Callees(Prune(g, es), u)) && Below(Callees(Prune(g, es), u), n) {
      WithoutKeepsNoDup(Callees(g, u), u, es);
      WithoutStaysBelow(Callees(g, u), u, es, n);
    }
  }

  /** The calls refused in the pass from f, as a set. */
  ghost function RefusedCalls(g: Graph, n: nat, f: nat): set<Edge>
    requires WellFormed(g, n)
  {
    set e | e in Calls(Refused(g, n, f))
  }

  /** The graph after the pass from f. */
  ghost function Pass(g: Graph, n: nat, f: nat): (h: Graph)
    requires WellFormed(g, n)
    ensures WellFormed(h, n)
  {
    var es := RefusedCalls(g, n, f);
    PruneWellFormed(g, n, es);
    Prune(g, es)
  }

  /** The graph after the passes from functions 0 .. k - 1. */
  ghost function Sanitized(g: Graph, n: nat, k: nat): (h: Graph)
    requires WellFormed(g, n)
    ensures WellFormed(h, n)
  {
    if k == 0 then g else Pass(Sanitized(g, n, k - 1), n, k - 1)
  }

  lemma SubGraphTransitive(a: Graph, b: Graph, c: Graph)
    requires SubGraph(a, b) && SubGraph(b, c)
    ensures SubGraph(a, c)
  {
  }

  lemma {:induction false} SanitizedShrinks(g: Graph, n: nat, j: nat, k: nat)
    requires WellFormed(g, n) && j <= k
    ensures SubGraph(Sanitized(g, n, k), Sanitized(g, n, j))
    decreases k
  {
    hide Prune, Callees, Below, NoDup;
    if j < k {
      SanitizedShrinks(g, n, j, k - 1);
      var before := Sanitized(g, n, k - 1);
      PruneWellFormed(before, n, RefusedCalls(before, n, k - 1));
      SubGraphTransitive(Sanitized(g, n, k), before, Sanitized(g, n, j));
    }
  }

  lemma RefusedIsGone(g: Graph, n: nat, w: Walk)
    requires WellFormed(g, n) && BlockedBy(g, w)
    ensures LastCall(w) in RefusedCalls(g, n, w[0])
    ensures Last(w) !in Callees(Pass(g, n, w[0]), w[|w| - 2])
  {
    RefusedExact(g, n, w[0], w);
    var ws := Refused(g, n, w[0]);
    var i :| 0 <= i < |ws| && ws[i] == w;
    assert Calls(ws)[i] == LastCall(w);
  }

  /** A walk whose calls all survive the pass from its start was followed to its end. */
  lemma {:induction false} SurvivorExplored(g: Graph, n: nat, w: Walk)
    requires WellFormed(g, n) && |w| > 0 && IsWalk(Pass(g, n, w[0]), w)
    ensures Explored(g, w)
    decreases |w|
  {
    if |w| > 1 {
      assert IsWalk(Pass(g, n, w[0]), Front(w)) by {
        forall i | 0 <= i < |w| - 2 ensures Front(w)[i + 1] in Callees(Pass(g, n, w[0]), Front(w)[i]) {
          assert w[i + 1] in Callees(Pass(g, n, w[0]), w[i]);
        }
      }
      SurvivorExplored(g, n, Front(w));
      var i := |w| - 2;
      assert w[i + 1] in Callees(Pass(g, n, w[0]), w[i]);
      if Last(w) in Seen(g, Front(w)) {
        RefusedIsGone(g, n, w);
      }
    }
  }

  lemma ExploredComesBackNowhere(g: Graph, w: Walk)
    requires Explored(g, w) && |w| > 1
    ensures w[0] != Last(w)
  {
    WalkIsSeen(g, Front(w));
    assert Front(w)[0] == w[0];
  }

  lemma WalkInLarger(h: Graph, g: Graph, w: Walk)
    requires IsWalk(h, w) && SubGraph(h, g)
    ensures IsWalk(g, w)
  {
  }

  /** Whatever the call graph, with self-calls, mutual cycles and diamonds, the passes leave no cycle. */
  lemma SanitizedIsAcyclic(g: Graph, n: nat)
    requires WellFormed(g, n) && forall u :: u in g ==> u < n
    ensures Acyclic(Sanitized(g, n, n))
  {
    hide Below, NoDup, WellFormed, Pass, Explored, SubGraph, IsWalk;
    var h := Sanitized(g, n, n);
    forall w: Walk | IsWalk(h, w) && |w| > 1
      ensures w[0] != w[|w| - 1]
    {
      var f := w[0];
      SanitizedShrinks(g, n, 0, n);
      WalkInLarger(h, g, w);
      StartsInside(g, w);
      SanitizedShrinks(g, n, f + 1, n);
      var before := Sanitized(g, n, f);
      WalkInLarger(h, Pass(before, n, f), w);
      SurvivorExplored(before, n, w);
      ExploredComesBackNowhere(before, w);
    }
  }

  lemma StartsInside(g: Graph, w: Walk)
    requires IsWalk(g, w) && |w| > 1
    ensures w[0] in g
  {
    assert w[0 + 1] in Callees(g, w[0]);
  }

  // ----- only the callees matter

  /** The same calls: an entry without callees is no entry. */
  ghost predicate SameCalls(g: Graph, h: Graph) {
    forall u: nat :: Callees(g, u) == Callees(h, u)
  }

  lemma {:induction false} SameSearch(g: Graph, h: Graph, w: Walk)
    requires SameCalls(g, h) && |w| > 0
    ensures Seen(g, w) == Seen(h, w) && (Explored(g, w) <==> Explored(h, w))
    decreases |w|
  {
    if |w| > 1 { SameSearch(g, h, Front(w)); }
  }

  lemma SameBlocked(g: Graph, h: Graph, w: Walk)
    requires SameCalls(g, h)
    ensures BlockedBy(g, w) <==> BlockedBy(h, w)
  {
    hide Seen, Explored;
    if |w| > 1 { SameSearch(g, h, Front(w)); }
  }

  lemma SameRefused(g: Graph, h: Graph, n: nat, f: nat)
    requires WellFormed(g, n) && WellFormed(h, n) && SameCalls(g, h)
    ensures RefusedCalls(g, n, f) == RefusedCalls(h, n, f)
  {
    RefusedIn(g, h, n, f);
    RefusedIn(h, g, n, f);
  }

  lemma RefusedIn(g: Graph, h: Graph, n: nat, f: nat)
    requires WellFormed(g, n) && WellFormed(h, n) && SameCalls(g, h)
    ensures RefusedCalls(g, n, f) <= RefusedCalls(h, n, f)
  {
    hide WellFormed, BlockedBy, Refused, SameCalls;
    forall e | e in RefusedCalls(g, n, f) ensures e in RefusedCalls(h, n, f) {
      var ws := Refused(g, n, f);
      var i :| 0 <= i < |ws| && Calls(ws)[i] == e;
      RefusedExact(g, n, f, ws[i]);
      SameBlocked(g, h, ws[i]);
      RefusedExact(h, n, f, ws[i]);
      var ws' := Refused(h, n, f);
      var j :| 0 <= j < |ws'| && ws'[j] == ws[i];
      assert Calls(ws')[j] == e;
    }
  }

  lemma SamePass(g: Graph, h: Graph, n: nat, f: nat)
    requires WellFormed(g, n) && WellFormed(h, n) && SameCalls(g, h)
    ensures SameCalls(Pass(g, n, f), Pass(h, n, f))
  {
    hide WellFormed, RefusedCalls;
    SameRefused(g, h, n, f);
    var es := RefusedCalls(g, n, f);
    forall u: nat ensures Callees(Prune(g, es), u) == Callees(Prune(h, es), u) {
      assert Callees(Prune(g, es), u) == Without(Callees(g, u), u, es);
      assert Callees(Prune(h, es), u) == Without(Callees(h, u), u, es);
    }
  }

  lemma {:induction false} SameSanitized(g: Graph, h: Graph, n: nat, k: nat)
    requires WellFormed(g, n) && WellFormed(h, n) && SameCalls(g, h)
    ensures SameCalls(Sanitized(g, n, k), Sanitized(h, n, k))
    decreases k
  {
    hide WellFormed, SameCalls, Pass;
    if k > 0 {
      SameSanitized(g, h, n, k - 1);
      SamePass(Sanitized(g, n, k - 1), Sanitized(h, n, k - 1), n, k - 1);
    }
  }

  // ----- what is left alone

  /** Every function has at most one caller. */
  ghost predicate SingleCaller(g: Graph) {
    forall u: nat, v: nat, x: nat :: x in Callees(g, u) && x in Callees(g, v) ==> u == v
  }

  lemma {:induction false} ExploredIsWalk(g: Graph, w: Walk)
    requires Explored(g, w)
    ensures IsWalk(g, w)
  {
    if |w| > 1 {
      ExploredIsWalk(g, Front(w));
      forall i | 0 <= i < |w| - 1 ensures w[i + 1] in Callees(g, w[i]) {
        if i < |w| - 2 {
          assert Front(w)[i + 1] in Callees(g, Front(w)[i]);
        }
      }
    }
  }

  lemma {:induction false} SeenOrigin(g: Graph, w: Walk, v: nat)
    requires |w| > 0 && IsWalk(g, w) && v in Seen(g, w)
    ensures v == w[0] || exists i :: 0 <= i < |w| - 1 && v in Callees(g, w[i])
  {
    if |w| > 1 {
      if v in Seen(g, Front(w)) {
        assert IsWalk(g, Front(w)) by {
          forall i | 0 <= i < |w| - 2 ensures Front(w)[i + 1] in Callees(g, Front(w)[i]) {
            assert w[i + 1] in Callees(g, w[i]);
          }
        }
        SeenOrigin(g, Front(w), v);
        if v != w[0] {
          var i :| 0 <= i < |Front(w)| - 1 && v in Callees(g, Front(w)[i]);
          assert v in Callees(g, w[i]);
        }
      } else {
        assert v in Callees(g, w[|w| - 2]);
      }
    }
  }

  /** In a forest nobody but its caller calls a function on the way to it. */
  lemma NoOtherCaller(g: Graph, w: Walk, i: nat)
    requires Acyclic(g) && SingleCaller(g) && IsWalk(g, w) && i < |w| - 2
    ensures Last(w) !in Callees(g, w[i])
  {
    hide Callees;
    var part := w[i..|w| - 1];
    forall j | 0 <= j < |part| - 1 ensures part[j + 1] in Callees(g, part[j]) {
      assert w[i + j + 1] in Callees(g, w[i + j]);
    }
    assert IsWalk(g, part);
    assert w[i] != w[|w| - 2];
    var k := |w| - 2;
    assert w[k + 1] in Callees(g, w[k]);
  }

  /** In a forest (no cycle, at most one caller each) nothing is blocked. */
  lemma ForestBlocksNothing(g: Graph, w: Walk)
    requires Acyclic(g) && SingleCaller(g)
    ensures !BlockedBy(g, w)
  {
    hide Callees, Acyclic, SingleCaller, Seen, IsWalk, Explored;
    if BlockedBy(g, w) {
      BlockedIsWalk(g, w);
      NeverBack(g, w);
      SeenOrigin(g, Front(w), Last(w));
      var i :| 0 <= i < |Front(w)| - 1 && Last(w) in Callees(g, Front(w)[i]);
      NoOtherCaller(g, w, i);
      assert false;
    }
  }

  lemma BlockedIsWalk(g: Graph, w: Walk)
    requires BlockedBy(g, w)
    ensures IsWalk(g, w) && IsWalk(g, Front(w))
  {
    hide Callees, Seen, Explored;
    ExploredIsWalk(g, Front(w));
    forall i | 0 <= i < |w| - 1 ensures w[i + 1] in Callees(g, w[i]) {
      if i < |w| - 2 { assert Front(w)[i + 1] in Callees(g, Front(w)[i]); }
    }
  }

  lemma NeverBack(g: Graph, w: Walk)
    requires Acyclic(g) && IsWalk(g, w) && |w| > 1
    ensures w[0] != Last(w)
  {
  }

  /** The passes change nothing if and only if no walk is blocked. */
  lemma UnchangedIff(g: Graph, n: nat)
    requires WellFormed(g, n) && forall u :: u in g ==> u < n
    ensures Sanitized(g, n, n) == g <==> forall w :: !BlockedBy(g, w)
  {
    hide Prune, Below, NoDup, Pass, RefusedCalls;
    if forall w :: !BlockedBy(g, w) {
      NothingBlocked(g, n, n);
    } else {
      var w :| BlockedBy(g, w);
      NextIsCallee(g, w, 0);
      if Sanitized(g, n, n) == g {
        NothingLost(g, n, w[0]);
        NothingLost(g, n, w[0] + 1);
        assert g == Pass(g, n, w[0]);
        RefusedIsGone(g, n, w);
        assert false;
      }
    }
  }

  lemma PassAfterPass(g: Graph, n: nat, k: nat)
    requires WellFormed(g, n)
    ensures k == 0 ==> Sanitized(g, n, k) == g
    ensures k > 0 ==> WellFormed(Sanitized(g, n, k - 1), n)
    ensures k > 0 ==> var h := Sanitized(g, n, k - 1); Sanitized(g, n, k) == Prune(h, RefusedCalls(h, n, k - 1))
  {
  }

  /** If every call survives all passes then every pass left the graph as it was. */
  lemma {:induction false} NothingLost(g: Graph, n: nat, k: nat)
    requires WellFormed(g, n) && SubGraph(g, Sanitized(g, n, n)) && k <= n
    ensures Sanitized(g, n, k) == g
    decreases k
  {
    hide *;
    PassAfterPass(g, n, k);
    if k > 0 {
      NothingLost(g, n, k - 1);
      SanitizedShrinks(g, n, k, n);
      SubGraphTransitive(g, Sanitized(g, n, n), Sanitized(g, n, k));
      PruneKeepsAll(g, RefusedCalls(g, n, k - 1));
    }
  }

  lemma PruneKeepsAll(g: Graph, es: set<Edge>)
    requires SubGraph(g, Prune(g, es))
    ensures Prune(g, es) == g
  {
    var h := Prune(g, es);
    forall u | u in g ensures h[u] == g[u] {
      forall v | v in g[u] ensures Edge(u, v) !in es {
        assert v in Callees(g, u);
        assert v in Callees(h, u);
      }
      WithoutNothing(g[u], u, es);
    }
    assert h.Keys == g.Keys;
  }

  lemma PruneNothing(g: Graph)
    ensures Prune(g, {}) == g
  {
    forall u | u in g ensures Without(g[u], u, {}) == g[u] {
      WithoutNothing(g[u], u, {});
    }
    assert Prune(g, {}).Keys == g.Keys;
  }

  lemma {:induction false} NothingBlocked(g: Graph, n: nat, k: nat)
    requires WellFormed(g, n) && forall w :: !BlockedBy(g, w)
    ensures Sanitized(g, n, k) == g
  {
    hide *;
    PassAfterPass(g, n, k);
    if k > 0 {
      NothingBlocked(g, n, k - 1);
      NothingRefused(g, n, k - 1);
      PruneNothing(g);
    }
  }

  lemma NothingRefused(g: Graph, n: nat, f: nat)
    requires WellFormed(g, n) && forall w :: !BlockedBy(g, w)
    ensures RefusedCalls(g, n, f) == {}
  {
    var ws := Refused(g, n, f);
    if |ws| > 0 {
      RefusedExact(g, n, f, ws[0]);
      assert false;
    }
  }

  /** A forest-shaped call graph is left completely unchanged. */
  lemma ForestUnchanged(g: Graph, n: nat)
    requires WellFormed(g, n) && forall u :: u in g ==> u < n
    requires Acyclic(g) && SingleCaller(g)
    ensures Sanitized(g, n, n) == g
  {
    forall w ensures !BlockedBy(g, w) { ForestBlocksNothing(g, w); }
    UnchangedIff(g, n);
  }

  // ----- two concrete graphs

  lemma ExploredStep(g: Graph, w: Walk, v: nat)
    requires Explored(g, w) && v in Callees(g, Last(w))
    ensures v !in Seen(g, w) ==> Explored(g, w + [v])
    ensures v in Seen(g, w) ==> BlockedBy(g, w + [v])
    ensures Seen(g, w + [v]) == Seen(g, w) + Elements(Siblings(g, Last(w), v))
  {
    var next := w + [v];
    assert Front(next) == w && Last(next) == v && next[|next| - 2] == Last(w);
  }

  /** Functions 0, 1, 2 where 0 calls 1 and 2, and 2 calls 1. */
  function ElderSiblingGraph(): Graph {
    map[0 := [1, 2], 2 := [1]]
  }

  lemma {:induction false} ElderSiblingRank(w: Walk)
    requires IsWalk(ElderSiblingGraph(), w) && |w| > 1
    ensures w[0] == 0 || (w[0] == 2 && Last(w) == 1)
    ensures w[0] == 0 ==> Last(w) != 0
  {
    var g := ElderSiblingGraph();
    assert w[0 + 1] in Callees(g, w[0]);
    if |w| > 2 {
      forall i | 0 <= i < |w| - 2 ensures w[1..][i + 1] in Callees(g, w[1..][i]) {
        assert w[i + 1 + 1] in Callees(g, w[i + 1]);
      }
      ElderSiblingRank(w[1..]);
    }
  }

  lemma ElderSiblingBlocks()
    ensures BlockedBy(ElderSiblingGraph(), [0] + [2] + [1])
  {
    hide Seen, Explored, BlockedBy;
    var g := ElderSiblingGraph();
    StartOfWalk(g, 0);
    ExploredStep(g, [0], 2);
    assert Siblings(g, 0, 2) == [1, 2];
    ExploredStep(g, [0] + [2], 1);
  }

  /** The search deletes calls even from a graph without cycles: a call to an elder sibling is refused. */
  lemma AcyclicGraphLosesCall()
    ensures Acyclic(ElderSiblingGraph())
    ensures Sanitized(ElderSiblingGraph(), 3, 3) != ElderSiblingGraph()
  {
    hide Sanitized, BlockedBy;
    var g := ElderSiblingGraph();
    ElderSiblingBlocks();
    UnchangedIff(g, 3);
    forall w: Walk | IsWalk(g, w) && |w| > 1 ensures w[0] != w[|w| - 1] {
      ElderSiblingRank(w);
    }
  }

  /** Functions 0 .. 3 where 0 calls 1 and 2, both of which call 3, which calls 0. */
  function DiamondCycleGraph(): Graph {
    map[0 := [1, 2], 1 := [3], 2 := [3], 3 := [0]]
  }

  /** Either way down the diamond ends in the same refused call from 3 to 0. */
  lemma DiamondCycleBlocks(side: nat)
    requires side == 1 || side == 2
    ensures BlockedBy(DiamondCycleGraph(), [0, side, 3, 0])
  {
    hide Seen, Explored, BlockedBy;
    var g := DiamondCycleGraph();
    assert Explored(g, [0]) && Seen(g, [0]) == {0} by { StartOfWalk(g, 0); }
    ExploredStep(g, [0], side);
    var w1 := [0] + [side];
    assert Siblings(g, 0, side) == if side == 1 then [1] else [1, 2];
    assert Explored(g, w1) && 3 !in Seen(g, w1) && 0 in Seen(g, w1);
    ExploredStep(g, w1, 3);
    var w2 := w1 + [3];
    assert Explored(g, w2) && 0 in Seen(g, w2);
    ExploredStep(g, w2, 0);
    assert w2 + [0] == [0, side, 3, 0];
  }

  lemma StartOfWalk(g: Graph, f: nat)
    ensures Explored(g, [f]) && Seen(g, [f]) == {f}
  {
  }
}
