/** The scoped symbol table: nested dictionaries by mutability, type, level and size, next to the flat list of
    live declarations that they index. */
module VarTracker {
  import opened Types
  import opened Declarations
  import opened LiveDeclarations

  type Index<!K, V> = map<K, map<nat, seq<V>>>
  type SizedIndex = map<Kind, map<nat, map<nat, seq<Name>>>>
  datatype Entry = Entry(list: Name, size: nat)

  function At<K, V>(ix: Index<K, V>, k: K, level: nat): seq<V> {
    if k in ix && level in ix[k] then ix[k][level] else []
  }

  function AddAt<K, V>(ix: Index<K, V>, k: K, level: nat, v: V): Index<K, V> {
    var levels: map<nat, seq<V>> := if k in ix then ix[k] else map[];
    ix[k := levels[level := At(ix, k, level) + [v]]]
  }

  /** Empties the lists of the levels that are dropped. */
  function ClearAt<K, V>(ix: Index<K, V>, dropped: nat -> bool): Index<K, V> {
    map k | k in ix :: map l | l in ix[k] :: if dropped(l) then [] else ix[k][l]
  }

  function SizedAt(ix: SizedIndex, k: Kind, level: nat, size: nat): seq<Name> {
    if k in ix && level in ix[k] && size in ix[k][level] then ix[k][level][size] else []
  }

  function SizedAddAt(ix: SizedIndex, k: Kind, level: nat, size: nat, v: Name): SizedIndex {
    var levels: map<nat, map<nat, seq<Name>>> := if k in ix then ix[k] else map[];
    var sizes: map<nat, seq<Name>> := if level in levels then levels[level] else map[];
    ix[k := levels[level := sizes[size := SizedAt(ix, k, level, size) + [v]]]]
  }

  function SizedClearAt(ix: SizedIndex, dropped: nat -> bool): SizedIndex {
    map k | k in ix :: map l | l in ix[k] :: if dropped(l) then map[] else ix[k][l]
  }

  // ----- what each slot of the dictionaries holds

  function VarEntry(d: Decl, m: bool, t: VType, level: nat): seq<Name> {
    if d.mutable == m && d.level == level && d.t == t && !Sized(t) then [d.name] else []
  }

  function ListEntries(d: Decl, t: VType): seq<Entry> {
    (if IsList(d.t) && d.t.base == t then [Entry(d.name, d.t.size)] else []) +
    (if d.t.DynArray? && IsList(d.t.base) && d.t.base.base == t
     then RowEntries(d.name, d.current, d.t.base.size) else [])
  }

  function RowEntries(dyn: Name, rows: nat, size: nat): seq<Entry> {
    if rows == 0 then [] else RowEntries(dyn, rows - 1, size) + [Entry(Item(dyn, rows - 1), size)]
  }

  function ListEntry(d: Decl, m: bool, t: VType, level: nat): seq<Entry> {
    if d.mutable == m && d.level == level then ListEntries(d, t) else []
  }

  function SizedEntry(d: Decl, m: bool, k: Kind, level: nat, size: nat): seq<Name> {
    if d.mutable == m && d.level == level && Sized(d.t) && KindOf(d.t) == k &&
        Capacity(d.t) == size then [d.name] else []
  }

  ghost function VarsOf(live: seq<Decl>, m: bool, t: VType, level: nat): seq<Name> {
    Collect(live, (d: Decl) => VarEntry(d, m, t, level))
  }

  ghost function ListsOf(live: seq<Decl>, m: bool, t: VType, level: nat): seq<Entry> {
    Collect(live, (d: Decl) => ListEntry(d, m, t, level))
  }

  ghost function SizedOf(live: seq<Decl>, m: bool, k: Kind, level: nat, size: nat): seq<Name> {
    Collect(live, (d: Decl) => SizedEntry(d, m, k, level, size))
  }

  ghost predicate VarsAgree(vars: map<bool, Index<VType, Name>>, live: seq<Decl>) {
    vars.Keys == {true, false} &&
    forall m, t, level :: At(vars[m], t, level) == VarsOf(live, m, t, level)
  }

  ghost predicate ListsAgree(lists: map<bool, Index<VType, Entry>>, live: seq<Decl>) {
    lists.Keys == {true, false} &&
    forall m, t, level :: At(lists[m], t, level) == ListsOf(live, m, t, level)
  }

  /** One of the two size-filtered dictionaries: for dynamic arrays, or for byte strings and strings. */
  ghost predicate SizedAgree(ix: map<bool, SizedIndex>, live: seq<Decl>, arrays: bool) {
    ix.Keys == {true, false} &&
    forall m, k: Kind, level, size :: k.ArrayOf? == arrays ==>
      SizedAt(ix[m], k, level, size) == SizedOf(live, m, k, level, size)
  }

  ghost predicate OnlyKinds(ix: map<bool, SizedIndex>, arrays: bool) {
    forall m, k: Kind :: m in ix && k in ix[m] ==> k.ArrayOf? == arrays
  }

  // ----- registration and removal keep the agreement

  lemma AtAdded<K, V>(ix: Index<K, V>, k: K, level: nat, v: V, k': K, level': nat)
    ensures At(AddAt(ix, k, level, v), k', level') ==
            At(ix, k', level') + (if k == k' && level == level' then [v] else [])
  {
  }

  lemma SizedAtAdded(ix: SizedIndex, k: Kind, level: nat, size: nat, v: Name, k': Kind, level': nat, size': nat)
    ensures SizedAt(SizedAddAt(ix, k, level, size, v), k', level', size') ==
            SizedAt(ix, k', level', size') + (if k == k' && level == level' && size == size' then [v] else [])
  {
  }

  lemma VarAdded(vars: map<bool, Index<VType, Name>>, live: seq<Decl>, d: Decl)
    requires VarsAgree(vars, live)
    ensures Sized(d.t) ==> VarsAgree(vars, live + [d])
    ensures !Sized(d.t) ==>
              VarsAgree(vars[d.mutable := AddAt(vars[d.mutable], d.t, d.level, d.name)], live + [d])
  {
    hide At, AddAt, Collect;
    forall m, t, level
      ensures VarsOf(live + [d], m, t, level) == VarsOf(live, m, t, level) + VarEntry(d, m, t, level)
      ensures At(AddAt(vars[d.mutable], d.t, d.level, d.name), t, level) ==
              At(vars[d.mutable], t, level) + (if t == d.t && level == d.level then [d.name] else [])
    {
      CollectAppend(live, d, (d: Decl) => VarEntry(d, m, t, level));
      AtAdded(vars[d.mutable], d.t, d.level, d.name, t, level);
    }
  }

  lemma SizedAdded(ix: map<bool, SizedIndex>, live: seq<Decl>, d: Decl, arrays: bool)
    requires SizedAgree(ix, live, arrays)
    ensures Sized(d.t) && d.t.DynArray? == arrays ==>
              SizedAgree(ix[d.mutable := SizedAddAt(ix[d.mutable], KindOf(d.t), d.level, Capacity(d.t), d.name)],
                         live + [d], arrays)
    ensures !Sized(d.t) || d.t.DynArray? != arrays ==> SizedAgree(ix, live + [d], arrays)
  {
    hide SizedAt, SizedAddAt, Collect;
    forall m, k: Kind, level, size
      ensures SizedOf(live + [d], m, k, level, size) ==
              SizedOf(live, m, k, level, size) + SizedEntry(d, m, k, level, size)
    {
      CollectAppend(live, d, (d: Decl) => SizedEntry(d, m, k, level, size));
    }
    if Sized(d.t) {
      forall k: Kind, level, size
        ensures SizedAt(SizedAddAt(ix[d.mutable], KindOf(d.t), d.level, Capacity(d.t), d.name), k, level, size) ==
                SizedAt(ix[d.mutable], k, level, size) +
                (if k == KindOf(d.t) && level == d.level && size == Capacity(d.t) then [d.name] else [])
      {
        SizedAtAdded(ix[d.mutable], KindOf(d.t), d.level, Capacity(d.t), d.name, k, level, size);
      }
    }
  }

  /** A list variable is entered under its base type. */
  lemma ListAdded(lists: map<bool, Index<VType, Entry>>, live: seq<Decl>, d: Decl)
    requires ListsAgree(lists, live)
    ensures !IsList(d.t) ==> ListsAgree(lists, live + [d])
    ensures IsList(d.t) ==>
              ListsAgree(lists[d.mutable := AddAt(lists[d.mutable], d.t.base, d.level, Entry(d.name, d.t.size))],
                         live + [d.(current := 0)])
  {
    hide At, AddAt, Collect;
    var e := if IsList(d.t) then d.(current := 0) else d;
    forall m, t, level
      ensures ListsOf(live + [e], m, t, level) == ListsOf(live, m, t, level) + ListEntry(e, m, t, level)
    {
      CollectAppend(live, e, (d: Decl) => ListEntry(d, m, t, level));
    }
    if IsList(d.t) {
      forall t, level
        ensures At(AddAt(lists[d.mutable], d.t.base, d.level, Entry(d.name, d.t.size)), t, level) ==
                At(lists[d.mutable], t, level) +
                (if t == d.t.base && level == d.level then [Entry(d.name, d.t.size)] else [])
      {
        AtAdded(lists[d.mutable], d.t.base, d.level, Entry(d.name, d.t.size), t, level);
      }
    }
  }

  /** Every list currently in a dynamic array of lists is entered under its own base type. */
  lemma RowAdded(lists: map<bool, Index<VType, Entry>>, live: seq<Decl>, d: Decl)
    requires ListsAgree(lists, live + [d]) && d.t.DynArray? && IsList(d.t.base)
    ensures var row := Entry(Item(d.name, d.current), d.t.base.size);
            ListsAgree(lists[d.mutable := AddAt(lists[d.mutable], d.t.base.base, d.level, row)],
                       live + [d.(current := d.current + 1)])
  {
    hide At, AddAt, Collect;
    var e, row := d.(current := d.current + 1), Entry(Item(d.name, d.current), d.t.base.size);
    forall m, t, level
      ensures ListsOf(live + [e], m, t, level) ==
              ListsOf(live + [d], m, t, level) +
              (if m == d.mutable && t == d.t.base.base && level == d.level then [row] else [])
    {
      CollectAppend(live, e, (d: Decl) => ListEntry(d, m, t, level));
      CollectAppend(live, d, (d: Decl) => ListEntry(d, m, t, level));
      assert ListEntry(e, m, t, level) ==
             ListEntry(d, m, t, level) +
             (if m == d.mutable && t == d.t.base.base && level == d.level then [row] else []);
    }
    forall t, level
      ensures At(AddAt(lists[d.mutable], d.t.base.base, d.level, row), t, level) ==
              At(lists[d.mutable], t, level) + (if t == d.t.base.base && level == d.level then [row] else [])
    {
      AtAdded(lists[d.mutable], d.t.base.base, d.level, row, t, level);
    }
  }

  // ----- removal of levels

  predicate Stays(d: Decl, m: bool, dropped: nat -> bool) {
    !(d.mutable == m && dropped(d.level))
  }

  /** The live declarations after the dropped levels of one mutability are removed. */
  function AfterDrop(live: seq<Decl>, m: bool, dropped: nat -> bool): (r: seq<Decl>)
    ensures forall d :: d in r <==> d in live && Stays(d, m, dropped)
  {
    Keep(live, (d: Decl) => Stays(d, m, dropped))
  }

  lemma DropSlot<V>(live: seq<Decl>, m: bool, dropped: nat -> bool, f: Decl -> seq<V>, m': bool, level: nat)
    requires forall d: Decl :: !(d.mutable == m' && d.level == level) ==> f(d) == []
    ensures Collect(AfterDrop(live, m, dropped), f) == if m == m' && dropped(level) then [] else Collect(live, f)
  {
    var keep := (d: Decl) => Stays(d, m, dropped);
    if m == m' && dropped(level) {
      var rest := Keep(live, keep);
      forall i | 0 <= i < |rest| ensures f(rest[i]) == [] {
        assert rest[i] in rest;
      }
      CollectNothing(rest, f);
    } else {
      CollectKeep(live, keep, f);
    }
  }

  lemma VarsDropped(vars: map<bool, Index<VType, Name>>, live: seq<Decl>, m: bool, dropped: nat -> bool)
    requires VarsAgree(vars, live)
    ensures VarsAgree(vars[m := ClearAt(vars[m], dropped)], AfterDrop(live, m, dropped))
  {
    hide AfterDrop, Collect;
    forall m', t, level
      ensures VarsOf(AfterDrop(live, m, dropped), m', t, level) ==
              if m == m' && dropped(level) then [] else VarsOf(live, m', t, level)
    {
      DropSlot(live, m, dropped, (d: Decl) => VarEntry(d, m', t, level), m', level);
    }
  }

  lemma ListsDropped(lists: map<bool, Index<VType, Entry>>, live: seq<Decl>, m: bool, dropped: nat -> bool)
    requires ListsAgree(lists, live)
    ensures ListsAgree(lists[m := ClearAt(lists[m], dropped)], AfterDrop(live, m, dropped))
  {
    hide AfterDrop, Collect, ListEntries;
    forall m', t, level
      ensures ListsOf(AfterDrop(live, m, dropped), m', t, level) ==
              if m == m' && dropped(level) then [] else ListsOf(live, m', t, level)
    {
      DropSlot(live, m, dropped, (d: Decl) => ListEntry(d, m', t, level), m', level);
    }
  }

  lemma SizedDropped(ix: map<bool, SizedIndex>, live: seq<Decl>, arrays: bool, m: bool, dropped: nat -> bool)
    requires SizedAgree(ix, live, arrays)
    ensures SizedAgree(ix[m := SizedClearAt(ix[m], dropped)], AfterDrop(live, m, dropped), arrays)
  {
    hide AfterDrop, Collect;
    forall m', k: Kind, level, size
      ensures SizedOf(AfterDrop(live, m, dropped), m', k, level, size) ==
              if m == m' && dropped(level) then [] else SizedOf(live, m', k, level, size)
    {
      DropSlot(live, m, dropped, (d: Decl) => SizedEntry(d, m', k, level, size), m', level);
    }
  }

  // ----- lookups

  ghost function Among(d: Decl, m: bool, ks: iset<Kind>, ls: iset<nat>, ss: iset<nat>): seq<Name> {
    if d.mutable == m && Sized(d.t) && KindOf(d.t) in ks && d.level in ls && Capacity(d.t) in ss then [d.name] else []
  }

  ghost function AmongOf(live: seq<Decl>, m: bool, ks: iset<Kind>, ls: iset<nat>, ss: iset<nat>): seq<Name> {
    Collect(live, (d: Decl) => Among(d, m, ks, ls, ss))
  }

  lemma AmongOne(live: seq<Decl>, m: bool, k: Kind, l: nat, s: nat)
    ensures AmongOf(live, m, iset{k}, iset{l}, iset{s}) == SizedOf(live, m, k, l, s)
  {
    CollectSame(live, (d: Decl) => Among(d, m, iset{k}, iset{l}, iset{s}), (d: Decl) => SizedEntry(d, m, k, l, s));
  }

  lemma AmongSizes(live: seq<Decl>, m: bool, ks: iset<Kind>, ls: iset<nat>, ss: iset<nat>, more: iset<nat>)
    requires ss !! more
    ensures multiset(AmongOf(live, m, ks, ls, ss + more)) ==
            multiset(AmongOf(live, m, ks, ls, ss)) + multiset(AmongOf(live, m, ks, ls, more))
  {
    CollectSplit(live, (d: Decl) => Among(d, m, ks, ls, ss + more),
                 (d: Decl) => Among(d, m, ks, ls, ss), (d: Decl) => Among(d, m, ks, ls, more));
  }

  lemma AmongLevels(live: seq<Decl>, m: bool, ks: iset<Kind>, ls: iset<nat>, more: iset<nat>, ss: iset<nat>)
    requires ls !! more
    ensures multiset(AmongOf(live, m, ks, ls + more, ss)) ==
            multiset(AmongOf(live, m, ks, ls, ss)) + multiset(AmongOf(live, m, ks, more, ss))
  {
    CollectSplit(live, (d: Decl) => Among(d, m, ks, ls + more, ss),
                 (d: Decl) => Among(d, m, ks, ls, ss), (d: Decl) => Among(d, m, ks, more, ss));
  }

  lemma AmongKinds(live: seq<Decl>, m: bool, ks: iset<Kind>, more: iset<Kind>, ls: iset<nat>, ss: iset<nat>)
    requires ks !! more
    ensures multiset(AmongOf(live, m, ks + more, ls, ss)) ==
            multiset(AmongOf(live, m, ks, ls, ss)) + multiset(AmongOf(live, m, more, ls, ss))
  {
    CollectSplit(live, (d: Decl) => Among(d, m, ks + more, ls, ss),
                 (d: Decl) => Among(d, m, ks, ls, ss), (d: Decl) => Among(d, m, more, ls, ss));
  }

  lemma SlotHolds(live: seq<Decl>, m: bool, i: nat)
    requires i < |live| && live[i].mutable == m && Sized(live[i].t)
    ensures SizedOf(live, m, KindOf(live[i].t), live[i].level, Capacity(live[i].t)) != []
  {
    var d := live[i];
    var f := (e: Decl) => SizedEntry(e, m, KindOf(d.t), d.level, Capacity(d.t));
    CollectedFrom(live, f, d.name);
    assert d.name in f(live[i]);
  }

  /** Slots without an entry contribute nothing. */
  lemma AmongNothing(live: seq<Decl>, m: bool, ks: iset<Kind>, ls: iset<nat>, ss: iset<nat>)
    requires forall k, l, s :: k in ks && l in ls && s in ss ==> SizedOf(live, m, k, l, s) == []
    ensures AmongOf(live, m, ks, ls, ss) == []
  {
    forall i | 0 <= i < |live| ensures Among(live[i], m, ks, ls, ss) == [] {
      var d := live[i];
      if Among(d, m, ks, ls, ss) != [] {
        SlotHolds(live, m, i);
        assert false;
      }
    }
    CollectNothing(live, (d: Decl) => Among(d, m, ks, ls, ss));
  }

  /** Sizes that a lookup for `size` accepts. */
  ghost function Accepted(size: nat, assignee: bool): iset<nat> {
    iset s: nat | SizeFits(s, size, assignee)
  }

  predicate AtMost(l: nat, level: int) {
    l <= level
  }

  ghost function UpTo(level: int): iset<nat> {
    iset l: nat | AtMost(l, level)
  }

  ghost function Elements<T(!new)>(s: set<T>): iset<T> {
    iset x | x in s
  }

  /** The innermost loop of the size-filtered lookup: one type at one level. */
  method NamesBySize(bySize: map<nat, seq<Name>>, size: nat, assignee: bool,
                     ghost live: seq<Decl>, ghost m: bool, ghost k: Kind, ghost l: nat)
    returns (r: seq<Name>)
    requires forall s: nat :: (if s in bySize then bySize[s] else []) == SizedOf(live, m, k, l, s)
    ensures multiset(r) == multiset(AmongOf(live, m, iset{k}, iset{l}, Accepted(size, assignee)))
  {
    hide AmongOf, SizedOf;
    r := [];
    var todo := bySize.Keys;
    ghost var done: iset<nat> := iset{};
    AmongNothing(live, m, iset{k}, iset{l}, iset{});
    while todo != {}
      invariant todo <= bySize.Keys
      invariant done == iset s: nat | s in bySize && s !in todo && SizeFits(s, size, assignee)
      invariant multiset(r) == multiset(AmongOf(live, m, iset{k}, iset{l}, done))
      decreases todo
    {
      var s :| s in todo;
      todo := todo - {s};
      if SizeFits(s, size, assignee) {
        AmongSizes(live, m, iset{k}, iset{l}, done, iset{s});
        AmongOne(live, m, k, l, s);
        done := done + iset{s};
        r := r + bySize[s];
      }
    }
    ghost var rest := iset s: nat | s !in bySize && SizeFits(s, size, assignee);
    AmongNothing(live, m, iset{k}, iset{l}, rest);
    AmongSizes(live, m, iset{k}, iset{l}, done, rest);
    assert done + rest == Accepted(size, assignee);
  }

  /** The middle loop: all levels up to `level`. */
  method NamesByLevel(byLevel: map<nat, map<nat, seq<Name>>>, level: int, size: nat, assignee: bool,
                      ghost live: seq<Decl>, ghost m: bool, ghost k: Kind)
    returns (r: seq<Name>)
    requires forall l: nat, s: nat ::
               (if l in byLevel && s in byLevel[l] then byLevel[l][s] else []) == SizedOf(live, m, k, l, s)
    ensures multiset(r) == multiset(AmongOf(live, m, iset{k}, UpTo(level), Accepted(size, assignee)))
  {
    ghost var ss := Accepted(size, assignee);
    r := [];
    var todo := byLevel.Keys;
    ghost var done: iset<nat> := iset{};
    AmongNothing(live, m, iset{k}, iset{}, ss);
    while todo != {}
      invariant todo <= byLevel.Keys
      invariant done == iset l: nat | l in byLevel && l !in todo && l <= level
      invariant multiset(r) == multiset(AmongOf(live, m, iset{k}, done, ss))
      decreases todo
    {
      var l :| l in todo;
      todo := todo - {l};
      if l <= level {
        var names := NamesBySize(byLevel[l], size, assignee, live, m, k, l);
        AmongLevels(live, m, iset{k}, done, iset{l}, ss);
        done := done + iset{l};
        r := r + names;
      }
    }
    ghost var rest := iset l: nat | l !in byLevel && l <= level;
    AmongNothing(live, m, iset{k}, rest, ss);
    AmongLevels(live, m, iset{k}, done, rest, ss);
    assert done + rest == UpTo(level);
  }

  /** The size-filtered lookup. */
  method GetDyns(ix: SizedIndex, level: int, kinds: set<Kind>, size: nat, assignee: bool,
                 ghost live: seq<Decl>, ghost m: bool)
    returns (r: seq<Name>)
    requires forall k, l, s :: k in kinds ==> SizedAt(ix, k, l, s) == SizedOf(live, m, k, l, s)
    ensures multiset(r) == multiset(AmongOf(live, m, Elements(kinds), UpTo(level), Accepted(size, assignee)))
  {
    ghost var ls, ss := UpTo(level), Accepted(size, assignee);
    r := [];
    var todo := kinds;
    ghost var done: iset<Kind> := iset{};
    AmongNothing(live, m, iset{}, ls, ss);
    while todo != {}
      invariant todo <= kinds
      invariant done == iset k | k in kinds && k !in todo
      invariant multiset(r) == multiset(AmongOf(live, m, done, ls, ss))
      decreases todo
    {
      var k :| k in todo;
      todo := todo - {k};
      AmongKinds(live, m, done, iset{k}, ls, ss);
      done := done + iset{k};
      var byLevel: map<nat, map<nat, seq<Name>>> := if k in ix then ix[k] else map[];
      forall l: nat, s: nat
        ensures (if l in byLevel && s in byLevel[l] then byLevel[l][s] else []) == SizedOf(live, m, k, l, s)
      {
        assert SizedAt(ix, k, l, s) == SizedOf(live, m, k, l, s);
      }
      var names := NamesByLevel(byLevel, level, size, assignee, live, m, k);
      r := r + names;
    }
    assert done == Elements(kinds);
  }

  // ----- elements of lists

  function Expand(es: seq<Entry>): seq<Name> {
    if es == [] then [] else Expand(es[..|es| - 1]) + Items(es[|es| - 1].list, es[|es| - 1].size)
  }

  lemma {:induction false} ExpandAppend(a: seq<Entry>, b: seq<Entry>)
    ensures Expand(a + b) == Expand(a) + Expand(b)
  {
    hide Items;
    if b == [] {
      assert a + b == a;
    } else {
      var front, last := b[..|b| - 1], b[|b| - 1];
      ExpandAppend(a, front);
      assert (a + b)[..|a + b| - 1] == a + front && (a + b)[|a + b| - 1] == last;
      assert Expand(a + b) == Expand(a + front) + Items(last.list, last.size);
    }
  }

  lemma {:induction false} ExpandRows(dyn: Name, rows: nat, size: nat)
    ensures Expand(RowEntries(dyn, rows, size)) == Rows(dyn, rows, size)
  {
    if rows > 0 {
      ExpandRows(dyn, rows - 1, size);
      var es := RowEntries(dyn, rows, size);
      assert es[..|es| - 1] == RowEntries(dyn, rows - 1, size);
    }
  }

  lemma ExpandEntries(d: Decl, t: VType)
    ensures Expand(ListEntries(d, t)) == ItemNames(d, t)
  {
    var own := if IsList(d.t) && d.t.base == t then [Entry(d.name, d.t.size)] else [];
    var rows := if d.t.DynArray? && IsList(d.t.base) && d.t.base.base == t
                then RowEntries(d.name, d.current, d.t.base.size) else [];
    ExpandAppend(own, rows);
    if rows != [] { ExpandRows(d.name, d.current, d.t.base.size); }
    if own != [] {
      assert own[..0] == [];
      assert Expand(own) == Items(d.name, d.t.size);
    }
    if d.t.DynArray? && IsList(d.t.base) && d.t.base.base == t && d.current == 0 {
      assert Rows(d.name, d.current, d.t.base.size) == [];
    }
  }

  function LevelItems(d: Decl, m: bool, t: VType, level: nat): seq<Name> {
    if d.mutable == m && d.level == level then ItemNames(d, t) else []
  }

  function ItemsBelow(d: Decl, m: bool, t: VType, level: nat): seq<Name> {
    if d.mutable == m && d.level < level then ItemNames(d, t) else []
  }

  function VarsBelow(d: Decl, m: bool, t: VType, level: nat): seq<Name> {
    if d.mutable == m && d.level < level && d.t == t && !Sized(t) then [d.name] else []
  }

  ghost function ItemsBelowOf(live: seq<Decl>, m: bool, t: VType, level: nat): seq<Name> {
    Collect(live, (d: Decl) => ItemsBelow(d, m, t, level))
  }

  ghost function VarsBelowOf(live: seq<Decl>, m: bool, t: VType, level: nat): seq<Name> {
    Collect(live, (d: Decl) => VarsBelow(d, m, t, level))
  }

  lemma {:induction false} ExpandCollect(live: seq<Decl>, m: bool, t: VType, level: nat)
    ensures Expand(ListsOf(live, m, t, level)) == Collect(live, (d: Decl) => LevelItems(d, m, t, level))
  {
    if live != [] {
      var front, last := live[..|live| - 1], live[|live| - 1];
      ExpandCollect(front, m, t, level);
      ExpandAppend(ListsOf(front, m, t, level), ListEntry(last, m, t, level));
      ExpandEntries(last, t);
    }
  }

  lemma NextItems(live: seq<Decl>, m: bool, t: VType, level: nat)
    ensures multiset(ItemsBelowOf(live, m, t, level + 1)) ==
            multiset(ItemsBelowOf(live, m, t, level)) + multiset(Expand(ListsOf(live, m, t, level)))
  {
    hide ItemNames, Collect, Expand;
    ExpandCollect(live, m, t, level);
    CollectSplit(live, (d: Decl) => ItemsBelow(d, m, t, level + 1),
                 (d: Decl) => ItemsBelow(d, m, t, level), (d: Decl) => LevelItems(d, m, t, level));
  }

  lemma NextVars(live: seq<Decl>, m: bool, t: VType, level: nat)
    ensures multiset(VarsBelowOf(live, m, t, level + 1)) ==
            multiset(VarsBelowOf(live, m, t, level)) + multiset(VarsOf(live, m, t, level))
  {
    CollectSplit(live, (d: Decl) => VarsBelow(d, m, t, level + 1),
                 (d: Decl) => VarsBelow(d, m, t, level), (d: Decl) => VarEntry(d, m, t, level));
  }

  lemma NothingBelow(live: seq<Decl>, m: bool, t: VType)
    ensures ItemsBelowOf(live, m, t, 0) == [] && VarsBelowOf(live, m, t, 0) == []
  {
    CollectNothing(live, (d: Decl) => ItemsBelow(d, m, t, 0));
    CollectNothing(live, (d: Decl) => VarsBelow(d, m, t, 0));
  }

  /** Without size filtering, what is visible is the variables of the type and the elements of its lists. */
  lemma UnsizedVisible(live: seq<Decl>, level: nat, t: VType, m: bool, assignee: bool)
    requires !Sized(t)
    ensures multiset(Visible(live, level, t, m, assignee)) ==
            multiset(VarsBelowOf(live, m, t, level + 1)) + multiset(ItemsBelowOf(live, m, t, level + 1))
  {
    hide VisibleNames, VarsBelow, ItemsBelow, Collect;
    forall d ensures multiset(VisibleNames(d, level, t, m, assignee)) ==
                     multiset(VarsBelow(d, m, t, level + 1)) + multiset(ItemsBelow(d, m, t, level + 1))
    {
      UnsizedNames(d, level, t, m, assignee);
    }
    CollectSplit(live, (d: Decl) => VisibleNames(d, level, t, m, assignee),
                 (d: Decl) => VarsBelow(d, m, t, level + 1), (d: Decl) => ItemsBelow(d, m, t, level + 1));
  }

  lemma UnsizedNames(d: Decl, level: nat, t: VType, m: bool, assignee: bool)
    requires !Sized(t)
    ensures multiset(VisibleNames(d, level, t, m, assignee)) ==
            multiset(VarsBelow(d, m, t, level + 1)) + multiset(ItemsBelow(d, m, t, level + 1))
  {
    hide ItemNames, Fits;
  }

  /** With size filtering, what is visible is what the size-filtered lookup returns. */
  lemma SizedVisible(live: seq<Decl>, level: nat, t: VType, m: bool, assignee: bool, ks: iset<Kind>)
    requires Sized(t)
    requires forall i :: 0 <= i < |live| && live[i].mutable == m && Sized(live[i].t) ==>
               (KindOf(live[i].t) in ks <==> SameKind(live[i].t, t))
    ensures AmongOf(live, m, ks, UpTo(level), Accepted(Capacity(t), assignee)) ==
            Visible(live, level, t, m, assignee)
  {
    CollectSame(live, (d: Decl) => Among(d, m, ks, UpTo(level), Accepted(Capacity(t), assignee)),
                (d: Decl) => VisibleNames(d, level, t, m, assignee));
  }

  // ----- the symbol table

  /** The base type of a live dynamic array of that name, or nothing if there is none. */
  ghost predicate BaseFound(live: seq<Decl>, name: Name, mutable: bool, r: Option<VType>) {
    && (r.Some? ==> exists d :: d in live && d.mutable == mutable && d.name == name && d.t.DynArray? &&
                               d.t.base == r.value)
    && (r.None? ==> forall d :: d in live && d.mutable == mutable && d.t.DynArray? ==> d.name != name)
  }

  class Tracker {
    var idMap: map<string, int>
    var globalIdMap: map<string, int>
    var vars: map<bool, Index<VType, Name>>
    var lists: map<bool, Index<VType, Entry>>
    var dyns: map<bool, SizedIndex>
    var byteVars: map<bool, SizedIndex>

    /** The live declarations, in order of registration. */
    ghost var live: seq<Decl>

    ghost predicate Valid()
      reads this
    {
      && VarsAgree(vars, live)
      && ListsAgree(lists, live)
      && SizedAgree(dyns, live, true)
      && SizedAgree(byteVars, live, false)
      && OnlyKinds(dyns, true)
    }

    /** The names of the live declarations carry numbers that were handed out once. */
    ghost predicate NamesNumbered()
      reads this
    {
      Numbered(live, idMap, globalIdMap)
    }

    constructor ()
      ensures Valid() && NamesNumbered() && live == []
    {
      idMap, globalIdMap := map[], map[];
      vars := map[true := map[], false := map[]];
      lists := map[true := map[], false := map[]];
      dyns := map[true := map[], false := map[]];
      byteVars := map[true := map[], false := map[]];
      live := [];
    }

    function CurrentId(t: VType): int
      reads this
    {
      IdOf(idMap, TypeName(t))
    }

    function NextId(t: VType): int
      reads this
    {
      CurrentId(t) + 1
    }

    method RegisterListItems(name: Name, level: nat, t: VType, mutable: bool)
      requires IsList(t) && mutable in lists
      modifies this`lists
      ensures lists == old(lists)[mutable := AddAt(old(lists)[mutable], t.base, level, Entry(name, t.size))]
    {
      lists := lists[mutable := AddAt(lists[mutable], t.base, level, Entry(name, t.size))];
    }

    method RegisterDynArray(name: Name, level: nat, t: VType, mutable: bool, current: nat, ghost before: seq<Decl>)
      requires t.DynArray? && SizedAgree(dyns, before, true) && OnlyKinds(dyns, true)
      requires ListsAgree(lists, before + [Decl(name, level, t, mutable, 0)])
      modifies this`dyns, this`lists
      ensures SizedAgree(dyns, before + [Decl(name, level, t, mutable, current)], true) && OnlyKinds(dyns, true)
      ensures ListsAgree(lists, before + [Decl(name, level, t, mutable, current)])
    {
      hide At, AddAt, SizedAt, ListsOf, SizedOf;
      SizedAdded(dyns, before, Decl(name, level, t, mutable, current), true);
      dyns := dyns[mutable := SizedAddAt(dyns[mutable], ArrayOf(t.base), level, t.size, name)];
      if IsList(t.base) {
        for i := 0 to current
          invariant ListsAgree(lists, before + [Decl(name, level, t, mutable, i)])
          invariant OnlyKinds(dyns, true) && SizedAgree(dyns, before + [Decl(name, level, t, mutable, current)], true)
        {
          RowAdded(lists, before, Decl(name, level, t, mutable, i));
          RegisterListItems(Item(name, i), level, t.base, mutable);
        }
      } else {
        FlatArray(lists, before, Decl(name, level, t, mutable, 0), current);
      }
    }

    /** Enters a variable, under the name it is stored by, into every dictionary it belongs to. */
    method Enter(name: Name, level: nat, t: VType, mutable: bool, current: nat, ghost before: seq<Decl>)
      requires VarsAgree(vars, before) && ListsAgree(lists, before)
      requires SizedAgree(dyns, before, true) && SizedAgree(byteVars, before, false) && OnlyKinds(dyns, true)
      modifies this`vars, this`lists, this`dyns, this`byteVars
      ensures var live := before + [Decl(name, level, t, mutable, current)];
              VarsAgree(vars, live) && ListsAgree(lists, live) &&
              SizedAgree(dyns, live, true) && SizedAgree(byteVars, live, false) && OnlyKinds(dyns, true)
    {
      hide At, AddAt, SizedAt, SizedAddAt, ListsOf, SizedOf, VarsOf;
      ghost var d := Decl(name, level, t, mutable, current);
      VarAdded(vars, before, d);
      ListAdded(lists, before, d);
      SizedAdded(dyns, before, d, true);
      SizedAdded(byteVars, before, d, false);
      if IsList(t) {
        RegisterListItems(name, level, t, mutable);
      }
      if t.DynArray? {
        RegisterDynArray(name, level, t, mutable, current, before);
        return;
      }
      FlatArray(lists, before, d.(current := 0), current);
      if t.Bytes? || t.Str? {
        byteVars := byteVars[mutable := SizedAddAt(byteVars[mutable], KindOf(t), level, t.m, name)];
        return;
      }
      vars := vars[mutable := AddAt(vars[mutable], t, level, name)];
    }

    /** Registers a variable: counts its number and enters it at its level. */
    method RegisterFunctionVariable(plain: Name, level: nat, t: VType, mutable: bool, current: nat)
      requires Valid()
      modifies this
      ensures Valid()
      ensures live == old(live) + [Decl(StoredName(plain, level, mutable), level, t, mutable, current)]
      ensures var s := TypeName(t); var id := IdOf(old(idMap), s) + 1;
              idMap == old(idMap)[s := id] &&
              globalIdMap == if level == 0 then old(globalIdMap)[s := id] else old(globalIdMap)
      ensures old(NamesNumbered()) && plain.Var? && plain.typeName == TypeName(t) && plain.id == old(NextId(t)) ==>
                NamesNumbered() && forall d :: d in old(live) ==> d.name != StoredName(plain, level, mutable)
    {
      hide VarsAgree, ListsAgree, SizedAgree, OnlyKinds;
      idMap := idMap[TypeName(t) := NextId(t)];
      if level == 0 {
        globalIdMap := globalIdMap[TypeName(t) := idMap[TypeName(t)]];
      }
      var name := plain;
      if level == 0 && mutable {
        name := Storage(name);
      }
      ghost var before := live;
      live := live + [Decl(name, level, t, mutable, current)];
      Enter(name, level, t, mutable, current, before);
      if old(NamesNumbered()) && plain.Var? && plain.typeName == TypeName(t) && plain.id == old(NextId(t)) {
        assert Root(name) == plain;
        NumberedAppend(before, old(idMap), old(globalIdMap), live[|before|]);
      }
    }

    method CreateAndRegisterVariable(t: VType, level: nat, mutability: Prefix) returns (name: Name)
      requires Valid() && mutability != Counter
      modifies this
      ensures Valid()
      ensures name == Var(if level > 0 then Plain else mutability, TypeName(t), old(NextId(t)))
      ensures var mutable := mutability == Plain;
              live == old(live) + [Decl(StoredName(name, level, mutable), level, t, mutable, 0)] &&
              (old(NamesNumbered()) ==>
                NamesNumbered() && forall d :: d in old(live) ==> d.name != StoredName(name, level, mutable))
    {
      var idx := NextId(t);
      var pre := if level > 0 then Plain else mutability;
      name := Var(pre, TypeName(t), idx);
      if level == 0 && mutability == Plain {
        RegisterGlobalVariable(name, t);
      } else {
        RegisterFunctionVariable(name, level, t, mutability == Plain, 0);
      }
    }

    method RegisterGlobalVariable(name: Name, t: VType)
      requires Valid()
      modifies this
      ensures Valid()
      ensures live == old(live) + [Decl(Storage(name), 0, t, true, 0)]
      ensures old(NamesNumbered()) && name.Var? && name.typeName == TypeName(t) && name.id == old(NextId(t)) ==>
                NamesNumbered() && forall d :: d in old(live) ==> d.name != Storage(name)
    {
      RegisterFunctionVariable(name, 0, t, true, 0);
    }

    method DropLevels(mutable: bool, dropped: nat -> bool)
      requires Valid()
      modifies this`vars, this`lists, this`dyns, this`byteVars, this`live
      ensures Valid()
      ensures live == AfterDrop(old(live), mutable, dropped)
      ensures old(NamesNumbered()) ==> NamesNumbered()
    {
      hide VarsAgree, ListsAgree, SizedAgree, Numbered;
      VarsDropped(vars, live, mutable, dropped);
      ListsDropped(lists, live, mutable, dropped);
      SizedDropped(dyns, live, true, mutable, dropped);
      SizedDropped(byteVars, live, false, mutable, dropped);
      NumberedDrop(live, idMap, globalIdMap, mutable, dropped);
      TrackerKeys();
      vars := vars[mutable := ClearAt(vars[mutable], dropped)];
      dyns := dyns[mutable := SizedClearAt(dyns[mutable], dropped)];
      byteVars := byteVars[mutable := SizedClearAt(byteVars[mutable], dropped)];
      lists := lists[mutable := ClearAt(lists[mutable], dropped)];
      live := AfterDrop(live, mutable, dropped);
    }

    lemma TrackerKeys()
      requires Valid()
      ensures vars.Keys == lists.Keys == dyns.Keys == byteVars.Keys == {true, false}
    {
    }

    /** Drops the variables of one mutability at one level. */
    method RemoveFunctionLevel(level: nat, mutable: bool)
      requires Valid()
      modifies this`vars, this`lists, this`dyns, this`byteVars, this`live
      ensures Valid()
      ensures live == AfterDrop(old(live), mutable, (l: nat) => l == level)
      ensures old(NamesNumbered()) ==> NamesNumbered()
    {
      DropLevels(mutable, (l: nat) => l == level);
    }

    /** Drops everything above level 0 and goes back to the global counters. */
    method ResetFunctionVariables()
      requires Valid()
      modifies this
      ensures Valid()
      ensures live == AfterDrop(AfterDrop(old(live), false, (l: nat) => l != 0), true, (l: nat) => l != 0)
      ensures idMap == globalIdMap == old(globalIdMap)
      ensures old(NamesNumbered()) ==> NamesNumbered()
    {
      hide VarsAgree, ListsAgree, SizedAgree, Numbered;
      DropLevels(false, (l: nat) => l != 0);
      DropLevels(true, (l: nat) => l != 0);
      if old(NamesNumbered()) {
        NumberedReset(live, idMap, globalIdMap);
      }
      idMap := globalIdMap;
    }

    // ----- lookups

    method GetDynArrays(level: nat, t: VType, mutable: bool, assignee: bool) returns (r: seq<Name>)
      requires Valid() && t.DynArray?
      ensures multiset(r) == multiset(Visible(live, level, t, mutable, assignee))
    {
      var kinds := {ArrayOf(t.base)};
      if t.base == NoType {
        kinds := dyns[mutable].Keys;
      }
      forall i | 0 <= i < |live| && live[i].mutable == mutable && Sized(live[i].t)
        ensures KindOf(live[i].t) in kinds <==> SameKind(live[i].t, t)
      {
        SlotHolds(live, mutable, i);
        if live[i].t.DynArray? {
          assert SizedAt(dyns[mutable], KindOf(live[i].t), live[i].level, live[i].t.size) != [];
        }
      }
      SizedVisible(live, level, t, mutable, assignee, Elements(kinds));
      r := GetDyns(dyns[mutable], level, kinds, t.size, assignee, live, mutable);
    }

    method GetBytesOrString(level: nat, t: VType, mutable: bool, assignee: bool) returns (r: seq<Name>)
      requires Valid() && (t.Bytes? || t.Str?)
      ensures multiset(r) == multiset(Visible(live, level, t, mutable, assignee))
    {
      SizedVisible(live, level, t, mutable, assignee, Elements({KindOf(t)}));
      r := GetDyns(byteVars[mutable], level, {KindOf(t)}, t.m, assignee, live, mutable);
    }

    lemma SlotAgrees(t: VType, m: bool, level: nat)
      requires Valid()
      ensures m in vars && m in lists
      ensures At(vars[m], t, level) == VarsOf(live, m, t, level)
      ensures At(lists[m], t, level) == ListsOf(live, m, t, level)
    {
    }

    method GetListItems(level: nat, t: VType, mutable: bool) returns (r: seq<Name>)
      requires Valid()
      ensures multiset(r) == multiset(ItemsBelowOf(live, mutable, t, level + 1))
    {
      hide VarsAgree, ListsAgree, SizedAgree, OnlyKinds, At, ListsOf, ItemsBelowOf, Items;
      var allowed: seq<Entry> := [];
      NothingBelow(live, mutable, t);
      for i := 0 to level + 1
        invariant multiset(Expand(allowed)) == multiset(ItemsBelowOf(live, mutable, t, i))
      {
        NextItems(live, mutable, t, i);
        SlotAgrees(t, mutable, i);
        ExpandAppend(allowed, At(lists[mutable], t, i));
        allowed := allowed + At(lists[mutable], t, i);
      }
      r := [];
      for i := 0 to |allowed|
        invariant r == Expand(allowed[..i])
      {
        assert allowed[..i + 1][..i] == allowed[..i];
        r := r + Items(allowed[i].list, allowed[i].size);
      }
      assert allowed[..|allowed|] == allowed;
    }

    /** The lookup behind all others: as a multiset, exactly the names that live declarations of this
        mutability at or below the level provide for the type. */
    method GetVars(t: VType, level: nat, mutable: bool, assignee: bool) returns (r: seq<Name>)
      requires Valid()
      ensures multiset(r) == multiset(Visible(live, level, t, mutable, assignee))
    {
      if t.DynArray? {
        r := GetDynArrays(level, t, mutable, assignee);
        return;
      }
      if t.Bytes? || t.Str? {
        r := GetBytesOrString(level, t, mutable, assignee);
        return;
      }
      hide VarsAgree, ListsAgree, SizedAgree, OnlyKinds, Visible;
      var own := GetPlainVars(t, level, mutable);
      var items := GetListItems(level, t, mutable);
      UnsizedVisible(live, level, t, mutable, assignee);
      r := own + items;
    }

    method GetPlainVars(t: VType, level: nat, mutable: bool) returns (r: seq<Name>)
      requires Valid()
      ensures multiset(r) == multiset(VarsBelowOf(live, mutable, t, level + 1))
    {
      hide VarsAgree, ListsAgree, SizedAgree, OnlyKinds, At, VarsOf, VarsBelowOf;
      r := [];
      NothingBelow(live, mutable, t);
      for i := 0 to level + 1
        invariant multiset(r) == multiset(VarsBelowOf(live, mutable, t, i))
      {
        NextVars(live, mutable, t, i);
        SlotAgrees(t, mutable, i);
        r := r + At(vars[mutable], t, i);
      }
    }

    method GetReadonlyVariables(level: nat, t: VType) returns (r: seq<Name>)
      requires Valid()
      ensures multiset(r) == multiset(Visible(live, level, t, false, false))
    {
      r := GetVars(t, level, false, false);
    }

    method GetMutableVariables(level: nat, t: VType, assignee: bool) returns (r: seq<Name>)
      requires Valid()
      ensures multiset(r) == multiset(Visible(live, level, t, true, assignee))
    {
      r := GetVars(t, level, true, assignee);
    }

    method GetGlobalVars(t: VType) returns (r: seq<Name>)
      requires Valid()
      ensures multiset(r) == multiset(Visible(live, 0, t, true, false))
    {
      r := GetVars(t, 0, true, false);
    }

    /** The base type of the dynamic array with this name, if there is one. */
    method GetDynArrayBaseType(name: Name, mutable: bool) returns (r: Option<VType>)
      requires Valid()
      ensures BaseFound(live, name, mutable, r)
    {
      var todo := dyns[mutable].Keys;
      while todo != {}
        invariant todo <= dyns[mutable].Keys
        invariant forall k, l, s :: k in dyns[mutable].Keys - todo ==> name !in SizedAt(dyns[mutable], k, l, s)
        decreases todo
      {
        var k :| k in todo;
        todo := todo - {k};
        var levels := dyns[mutable][k];
        if l, s :| l in levels && s in levels[l] && name in levels[l][s] {
          SlotOrigin(live, mutable, k, l, s, name);
          return Some(k.base);
        }
      }
      forall i | 0 <= i < |live| && live[i].mutable == mutable && live[i].t.DynArray?
        ensures live[i].name != name
      {
        SlotHasName(live, mutable, i);
        assert SizedAt(dyns[mutable], KindOf(live[i].t), live[i].level, live[i].t.size) != [];
      }
      return None;
    }
  }

  lemma SlotHasName(live: seq<Decl>, m: bool, i: nat)
    requires i < |live| && live[i].mutable == m && Sized(live[i].t)
    ensures live[i].name in SizedOf(live, m, KindOf(live[i].t), live[i].level, Capacity(live[i].t))
  {
    var d := live[i];
    var f := (e: Decl) => SizedEntry(e, m, KindOf(d.t), d.level, Capacity(d.t));
    CollectedFrom(live, f, d.name);
    assert d.name in f(live[i]);
  }

  lemma SlotOrigin(live: seq<Decl>, m: bool, k: Kind, l: nat, s: nat, name: Name)
    requires name in SizedOf(live, m, k, l, s)
    ensures exists d :: d in live && d.mutable == m && d.name == name && Sized(d.t) && KindOf(d.t) == k
  {
    var f := (e: Decl) => SizedEntry(e, m, k, l, s);
    CollectedFrom(live, f, name);
    var i :| 0 <= i < |live| && name in f(live[i]);
    assert live[i] in live;
  }

  lemma NumberedDrop(live: seq<Decl>, ids: map<string, int>, globals: map<string, int>, m: bool, dropped: nat -> bool)
    ensures Numbered(live, ids, globals) ==> Numbered(AfterDrop(live, m, dropped), ids, globals)
  {
    if Numbered(live, ids, globals) {
      NumberedKeep(live, ids, globals, (d: Decl) => Stays(d, m, dropped));
    }
  }

  /** Globals stay within the global counters, so going back to those counters keeps names fresh. */
  lemma NumberedReset(live: seq<Decl>, ids: map<string, int>, globals: map<string, int>)
    requires Numbered(live, ids, globals) && forall d :: d in live ==> d.level == 0
    ensures Numbered(live, globals, globals)
  {
    forall i | 0 <= i < |live| ensures live[i].level == 0 {
      assert live[i] in live;
    }
  }

  function StoredName(plain: Name, level: nat, mutable: bool): Name {
    if level == 0 && mutable then Storage(plain) else plain
  }

  /** The current length matters only for dynamic arrays of lists. */
  lemma FlatArray(lists: map<bool, Index<VType, Entry>>, live: seq<Decl>, d: Decl, current: nat)
    requires !(d.t.DynArray? && IsList(d.t.base)) && d.current == 0
    ensures ListsAgree(lists, live + [d]) ==> ListsAgree(lists, live + [d.(current := current)])
  {
    var e := d.(current := current);
    forall m, t, level ensures ListsOf(live + [d], m, t, level) == ListsOf(live + [e], m, t, level) {
      CollectAppend(live, d, (d: Decl) => ListEntry(d, m, t, level));
      CollectAppend(live, e, (d: Decl) => ListEntry(d, m, t, level));
    }
  }
}
