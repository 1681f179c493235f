/** The flat view of the symbol table: the list of live declarations, in order of registration. Everything
    the symbol table stores or returns is a selection from it. */
module LiveDeclarations {
  import opened Types
  import opened Declarations

  /** What f selects from each declaration, in order. */
  ghost function Collect<V>(live: seq<Decl>, f: Decl -> seq<V>): seq<V> {
    if live == [] then []
    else Collect(live[..|live| - 1], f) + f(live[|live| - 1])
  }

  function Keep(live: seq<Decl>, keep: Decl -> bool): (r: seq<Decl>)
    ensures forall d :: d in r <==> d in live && keep(d)
    ensures |r| <= |live|
  {
    if live == [] then []
    else
      var last := live[|live| - 1];
      Keep(live[..|live| - 1], keep) + (if keep(last) then [last] else [])
  }

  lemma CollectAppend<V>(live: seq<Decl>, d: Decl, f: Decl -> seq<V>)
    ensures Collect(live + [d], f) == Collect(live, f) + f(d)
  {
    assert (live + [d])[..|live|] == live;
  }

  lemma {:induction false} CollectSame<V>(live: seq<Decl>, f: Decl -> seq<V>, g: Decl -> seq<V>)
    requires forall i :: 0 <= i < |live| ==> f(live[i]) == g(live[i])
    ensures Collect(live, f) == Collect(live, g)
  {
    if live != [] { CollectSame(live[..|live| - 1], f, g); }
  }

  lemma {:induction false} CollectNothing<V>(live: seq<Decl>, f: Decl -> seq<V>)
    requires forall i :: 0 <= i < |live| ==> f(live[i]) == []
    ensures Collect(live, f) == []
  {
    if live != [] { CollectNothing(live[..|live| - 1], f); }
  }

  lemma {:induction false} CollectSplit<V>(live: seq<Decl>, whole: Decl -> seq<V>, f: Decl -> seq<V>, g: Decl -> seq<V>)
    requires forall i :: 0 <= i < |live| ==> multiset(whole(live[i])) == multiset(f(live[i])) + multiset(g(live[i]))
    ensures multiset(Collect(live, whole)) == multiset(Collect(live, f)) + multiset(Collect(live, g))
  {
    if live != [] { CollectSplit(live[..|live| - 1], whole, f, g); }
  }

  lemma {:induction false} CollectKeep<V>(live: seq<Decl>, keep: Decl -> bool, f: Decl -> seq<V>)
    requires forall i :: 0 <= i < |live| && !keep(live[i]) ==> f(live[i]) == []
    ensures Collect(Keep(live, keep), f) == Collect(live, f)
  {
    if live != [] {
      var front, last := live[..|live| - 1], live[|live| - 1];
      CollectKeep(front, keep, f);
      if keep(last) {
        CollectAppend(Keep(front, keep), last, f);
      } else {
        assert f(live[|live| - 1]) == [];
        assert Collect(live, f) == Collect(front, f);
        assert Keep(live, keep) == Keep(front, keep);
      }
    }
  }

  lemma {:induction false} CollectedFrom<V>(live: seq<Decl>, f: Decl -> seq<V>, v: V)
    ensures v in Collect(live, f) <==> exists i :: 0 <= i < |live| && v in f(live[i])
  {
    if live != [] {
      var front, last := live[..|live| - 1], live[|live| - 1];
      CollectedFrom(front, f, v);
      if exists i :: 0 <= i < |front| && v in f(front[i]) {
        var i :| 0 <= i < |front| && v in f(front[i]);
        assert v in f(live[i]);
      }
      if v in f(last) { assert v in f(live[|live| - 1]); }
    }
  }

  /** The keys of the size-filtered dictionaries: the base type of a dynamic array, or the class. */
  datatype Kind = ArrayOf(base: VType) | BytesKind | StringKind

  function KindOf(t: VType): Kind
    requires Sized(t)
  {
    if t.DynArray? then ArrayOf(t.base) else if t.Bytes? then BytesKind else StringKind
  }

  predicate InReach(d: Decl, level: int, mutable: bool) {
    d.mutable == mutable && d.level <= level
  }

  function VisibleNames(d: Decl, level: int, t: VType, mutable: bool, assignee: bool): seq<Name> {
    if InReach(d, level, mutable) then NamesOf(d, t, assignee) else []
  }

  /** What a lookup for type t at level `level` should return. */
  ghost function Visible(live: seq<Decl>, level: int, t: VType, mutable: bool, assignee: bool): seq<Name> {
    Collect(live, (d: Decl) => VisibleNames(d, level, t, mutable, assignee))
  }

  /** n is what the lookup may return exactly when some visible declaration offers it. */
  lemma VisibleExact(live: seq<Decl>, level: int, t: VType, mutable: bool, assignee: bool, n: Name)
    ensures n in Visible(live, level, t, mutable, assignee) <==>
            exists d :: d in live && InReach(d, level, mutable) && Offers(d, n, t, assignee)
  {
    hide NamesOf, Offers;
    var f := (d: Decl) => VisibleNames(d, level, t, mutable, assignee);
    CollectedFrom(live, f, n);
    if exists i :: 0 <= i < |live| && n in f(live[i]) {
      var i :| 0 <= i < |live| && n in f(live[i]);
      NamesOfExact(live[i], t, assignee, n);
      assert live[i] in live;
    }
    if exists d :: d in live && InReach(d, level, mutable) && Offers(d, n, t, assignee) {
      var d :| d in live && InReach(d, level, mutable) && Offers(d, n, t, assignee);
      NamesOfExact(d, t, assignee, n);
      var i :| 0 <= i < |live| && live[i] == d;
      assert n in f(live[i]);
    }
  }

  // ----- numbering

  function IdOf(ids: map<string, int>, typeName: string): int {
    if typeName in ids then ids[typeName] else -1
  }

  function Number(d: Decl): (string, int) {
    var root := Root(d.name);
    if root.Var? then (root.typeName, root.id) else ("", -1)
  }

  /** Names carry the type name of their declaration and a number that was handed out once; numbers of
      declarations that survive a reset are within the global counters. */
  ghost predicate Numbered(live: seq<Decl>, ids: map<string, int>, globals: map<string, int>) {
    && (forall i :: 0 <= i < |live| ==>
         PlainName(live[i].name) && Number(live[i]).0 == TypeName(live[i].t) &&
         0 <= Number(live[i]).1 <= IdOf(ids, TypeName(live[i].t)))
    && (forall i :: 0 <= i < |live| && live[i].level == 0 ==> Number(live[i]).1 <= IdOf(globals, TypeName(live[i].t)))
    && (forall i, j :: 0 <= i < j < |live| ==> Number(live[i]) != Number(live[j]))
    && (forall s :: -1 <= IdOf(globals, s) <= IdOf(ids, s))
  }

  /** A variable or a storage variable, not an element. */
  predicate PlainName(n: Name) {
    n.Var? || (n.Storage? && n.of.Var?)
  }

  lemma {:induction false} RootOfItem(d: Decl, n: Name)
    requires TypeBy(d, n).Some?
    ensures Root(n) == Root(d.name)
  {
  }

  /** No two live declarations share a name, and no name denotes through two of them. */
  lemma NumberedDistinct(live: seq<Decl>, ids: map<string, int>, globals: map<string, int>, d: Decl, e: Decl, n: Name)
    requires Numbered(live, ids, globals) && d in live && e in live
    requires TypeBy(d, n).Some? && TypeBy(e, n).Some?
    ensures d == e
  {
    RootOfItem(d, n);
    RootOfItem(e, n);
    var i :| 0 <= i < |live| && live[i] == d;
    var j :| 0 <= j < |live| && live[j] == e;
    assert Number(live[i]) == Number(live[j]);
  }

  /** The next number makes a fresh name. */
  lemma NumberedAppend(live: seq<Decl>, ids: map<string, int>, globals: map<string, int>, d: Decl)
    requires Numbered(live, ids, globals) && PlainName(d.name)
    requires Number(d) == (TypeName(d.t), IdOf(ids, TypeName(d.t)) + 1)
    ensures var s := TypeName(d.t); var ids' := ids[s := IdOf(ids, s) + 1];
            Numbered(live + [d], ids', if d.level == 0 then globals[s := IdOf(ids, s) + 1] else globals)
    ensures forall e :: e in live ==> e.name != d.name
  {
    var s := TypeName(d.t);
    var ids' := ids[s := IdOf(ids, s) + 1];
    var globals' := if d.level == 0 then globals[s := IdOf(ids, s) + 1] else globals;
    var all := live + [d];
    assert -1 <= IdOf(globals, s) <= IdOf(ids, s);
    forall i | 0 <= i < |live| ensures Number(live[i]) != Number(d) {
      if Number(live[i]).0 == s {
        assert Number(live[i]).1 <= IdOf(ids, TypeName(live[i].t));
      }
    }
    forall q ensures -1 <= IdOf(globals', q) <= IdOf(ids', q) {
      assert -1 <= IdOf(globals, q) <= IdOf(ids, q);
    }
    forall e | e in live ensures e.name != d.name {
      var i :| 0 <= i < |live| && live[i] == e;
      assert Number(live[i]) != Number(d);
    }
  }

  lemma {:induction false} NumberedKeep(live: seq<Decl>, ids: map<string, int>, globals: map<string, int>,
                                        keep: Decl -> bool)
    requires Numbered(live, ids, globals)
    ensures Numbered(Keep(live, keep), ids, globals)
  {
    if live != [] {
      NumberedKeep(live[..|live| - 1], ids, globals, keep);
      var rest := Keep(live[..|live| - 1], keep);
      var last := live[|live| - 1];
      forall i | 0 <= i < |rest| ensures Number(rest[i]) != Number(last) {
        assert rest[i] in live[..|live| - 1];
      }
    }
  }
}
