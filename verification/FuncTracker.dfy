/** The functions of the contract under construction. */
module FuncTracker {
  import opened Types
  import opened Declarations
  import opened Emitted
  import opened Messages

  datatype Function = Function(id: nat, mutability: nat, external: bool, inputs: seq<VType>, outputs: seq<VType>,
                               body: seq<OStmt>)

  /** A function as it appears in the contract: its parameter names beside its record. */
  datatype Definition = Definition(f: Function, names: seq<Name>)

  /** A definition can be rendered when there is a name for every input; otherwise rendering raises. */
  predicate Renders(d: Definition) {
    |d.names| == |d.f.inputs|
  }

  /** The functions of a message as they are registered: up to the cap, in order, with empty signatures and the
      mutability they declare. */
  function Registered(ms: seq<FuncMessage>, cap: nat): (fs: seq<Function>)
    ensures |fs| == (if |ms| < cap then |ms| else cap) && |fs| <= |ms|
    ensures forall i :: 0 <= i < |fs| ==> fs[i] == Function(i, ms[i].mut, ms[i].external, [], [], [])
  {
    seq(if |ms| < cap then |ms| else cap, i requires 0 <= i < |ms| =>
      Function(i, ms[i].mut, ms[i].external, [], [], []))
  }

  class FunctionTracker {
    var lastId: int
    var functions: seq<Function>
    const maxFunctions: nat

    /** The id of a function is its position. */
    ghost predicate Valid()
      reads this
    {
      && lastId == |functions| - 1
      && |functions| <= maxFunctions
      && forall i :: 0 <= i < |functions| ==> functions[i].id == i
    }

    constructor (maxFunctions: nat)
      ensures Valid() && functions == [] && this.maxFunctions == maxFunctions
    {
      this.maxFunctions := maxFunctions;
      lastId, functions := -1, [];
    }

    /** Registers functions until the cap is reached. */
    method RegisterFunctions(fs: seq<FuncMessage>)
      requires Valid() && functions == []
      modifies this
      ensures Valid() && functions == Registered(fs, maxFunctions)
    {
      for i := 0 to |fs|
        invariant Valid() && |functions| == i
        invariant forall j :: 0 <= j < i ==> functions[j] == Function(j, fs[j].mut, fs[j].external, [], [], [])
      {
        if |functions| >= maxFunctions {
          break;
        }
        lastId := lastId + 1;
        functions := functions + [Function(lastId, fs[i].mut, fs[i].external, [], [], [])];
      }
    }

    method Update(id: nat, f: Function)
      requires Valid() && id < |functions| && f.id == id
      modifies this`functions
      ensures Valid() && functions == old(functions)[id := f]
    {
      functions := functions[id := f];
    }
  }
}
