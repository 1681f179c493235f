/** Variable names, declarations, and which names a declaration makes available for which type. */
module Declarations {
  import opened Types

  /** x_, C_, IM_ and i_: plain variables, constants, immutables and loop counters. */
  datatype Prefix = Plain | Constant | Immutable | Counter

  /** Storage(n) is self.n, Item(l, k) is l[k]. */
  datatype Name =
    | Var(prefix: Prefix, typeName: string, id: int)
    | Storage(of: Name)
    | Item(list: Name, index: nat)

  /** `current` is the current length of a dynamic array of lists. Zero for everything the converter declares. */
  datatype Decl = Decl(name: Name, level: nat, t: VType, mutable: bool, current: nat)

  predicate IsStorage(n: Name) {
    match n
    case Var(_, _, _) => false
    case Storage(_) => true
    case Item(l, _) => IsStorage(l)
  }

  function Root(n: Name): Name {
    match n
    case Var(_, _, _) => n
    case Storage(m) => Root(m)
    case Item(l, _) => Root(l)
  }

  /** Can a variable declared as `declared` be used where `wanted` is asked for? For a value the variable
      may be smaller than asked, for the target of a call result it may be larger. */
  predicate Fits(declared: VType, wanted: VType, assignee: bool) {
    if Sized(wanted) then
      Sized(declared) && SameKind(declared, wanted) &&
      SizeFits(Capacity(declared), Capacity(wanted), assignee)
    else declared == wanted
  }

  /** Same class, and for dynamic arrays the same base type unless any base will do. */
  predicate SameKind(declared: VType, wanted: VType) {
    match wanted
    case Bytes(_) => declared.Bytes?
    case Str(_) => declared.Str?
    case DynArray(_, base) => declared.DynArray? && (base == NoType || base == declared.base)
    case _ => false
  }

  predicate SizeFits(size: nat, wanted: nat, assignee: bool) {
    (size <= wanted && !assignee) || (size >= wanted && assignee)
  }

  /** The type of name n according to declaration d: the variable itself, an element of a list, or an
      element of a list that is currently in a dynamic array. */
  function TypeBy(d: Decl, n: Name): Option<VType> {
    if n == d.name then Some(d.t)
    else if n.Item? && n.list == d.name && IsList(d.t) && n.index < d.t.size then Some(d.t.base)
    else if n.Item? && n.list.Item? && n.list.list == d.name && d.t.DynArray? && IsList(d.t.base) &&
            n.list.index < d.current && n.index < d.t.base.size then Some(d.t.base.base)
    else None
  }

  /** n is available through d as something of type t. */
  predicate Offers(d: Decl, n: Name, t: VType, assignee: bool) {
    var declared := TypeBy(d, n);
    declared.Some? && Fits(declared.value, t, assignee) && (Sized(t) ==> n == d.name)
  }

  /** The elements of a list variable, in index order. */
  function Items(list: Name, size: nat): (r: seq<Name>)
    ensures |r| == size && forall i :: 0 <= i < size ==> r[i] == Item(list, i)
  {
    seq(size, i requires 0 <= i < size => Item(list, i))
  }

  /** The elements of the first `rows` lists of a dynamic array of lists. */
  function Rows(dyn: Name, rows: nat, size: nat): seq<Name> {
    if rows == 0 then [] else Rows(dyn, rows - 1, size) + Items(Item(dyn, rows - 1), size)
  }

  /** The element names of type t that d provides. */
  function ItemNames(d: Decl, t: VType): seq<Name> {
    (if IsList(d.t) && d.t.base == t then Items(d.name, d.t.size) else []) +
    (if d.t.DynArray? && IsList(d.t.base) && d.t.base.base == t
     then Rows(d.name, d.current, d.t.base.size) else [])
  }

  /** All names d provides where type t is asked for. */
  function NamesOf(d: Decl, t: VType, assignee: bool): seq<Name> {
    if Sized(t) then (if Fits(d.t, t, assignee) then [d.name] else [])
    else (if d.t == t then [d.name] else []) + ItemNames(d, t)
  }

  lemma {:induction false} RowsAre(dyn: Name, rows: nat, size: nat, n: Name)
    ensures n in Rows(dyn, rows, size) <==>
            n.Item? && n.list.Item? && n.list.list == dyn && n.list.index < rows && n.index < size
  {
    if rows > 0 {
      RowsAre(dyn, rows - 1, size, n);
      var row := Items(Item(dyn, rows - 1), size);
      if n.Item? && n.list == Item(dyn, rows - 1) && n.index < size {
        assert row[n.index] == n;
      }
    }
  }

  /** The lookup by enumeration and the typing rule agree: a name is listed exactly when it is offered. */
  lemma NamesOfExact(d: Decl, t: VType, assignee: bool, n: Name)
    ensures n in NamesOf(d, t, assignee) <==> Offers(d, n, t, assignee)
  {
    if !Sized(t) {
      if IsList(d.t) && n.Item? && n.list == d.name && n.index < d.t.size {
        assert Items(d.name, d.t.size)[n.index] == n;
      }
      if d.t.DynArray? && IsList(d.t.base) {
        RowsAre(d.name, d.current, d.t.base.size, n);
      }
      SmallerThanItem(d.name, n);
    }
  }

  lemma SmallerThanItem(list: Name, n: Name)
    ensures n.Item? && n.list == list ==> n != list
    ensures n.Item? && n.list.Item? && n.list.list == list ==> n != list && n.list != list
  {
    NestingIs(list, n);
  }

  function Nesting(n: Name): nat {
    match n
    case Var(_, _, _) => 0
    case Storage(m) => 1 + Nesting(m)
    case Item(l, _) => 1 + Nesting(l)
  }

  lemma NestingIs(list: Name, n: Name)
    ensures n.Item? && n.list == list ==> Nesting(n) == Nesting(list) + 1
    ensures n.Item? && n.list.Item? && n.list.list == list ==> Nesting(n) == Nesting(list) + 2
  {
  }
}
