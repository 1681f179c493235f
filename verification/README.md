# Vyzzer: well-formed contracts from arbitrary messages

Vyzzer turns an arbitrary protobuf message into a Vyper contract, compiles and runs it with several compilers, and
compares the results. This project models the logic that makes the contract well formed whatever the message says, and
the logic that compares the results, and proves what both are for.

The converter (`TypedConverter.dfy`) is modelled as a class with the fields the source updates: the mutability
reached, the block level, the loop count, the operator stack. It writes a program tree (`Emitted.dfy`) instead of
text. Two independent definitions say what that tree must be: `Checker.dfy` holds the rules of the language (typing,
scope, call agreement, effects) and knows nothing of the converter; `Mirror.dfy` says what of the message has to come
back (operators and operand order, arguments, statement order and nesting). `TypedConverter.Converter.Visit` is proved
to satisfy both for every message and every choice that `random.choice` could make, and to fail only where the source
raises (`Flaws.dfy`). Around it stand the call graph (`CallGraph.dfy`, `FunctionConverter.dfy`), the symbol table that
refines a flat list (`LiveDeclarations.dfy`, `VarTracker.dfy`), where the calls of a message stand (`CallPaths.dfy`),
how far visiting raises the mutability (`Climbing.dfy`), the evaluation of what was written and the bounds that rest
on it (`PyInt.dfy`, `PyFloat.dfy`, `PyNumber.dfy`, `Operators.dfy`, `IntBounds.dfy`, `Folding.dfy`, `Ranges.dfy`),
where fractions and complex numbers come from (`Quotients.dfy`) and what they do to the written program
(`StrayExprs.dfy`, `StrayBlocks.dfy`, `Witnesses.dfy`), static lengths (`Lengths.dfy`), what variables an expression
asks for (`Asked.dfy`), unambiguous printing (`Printing.dfy`), consequences for the whole contract
(`Consequences.dfy`), the result verifier (`Verifier.dfy`) and the handshake of generator, runners and verifier as a
state machine (`Handshake.dfy`).

A message is a datatype that respects only the schema. `random.choice` and the random value generators are
nondeterministic. Python's arithmetic is spelled out for integers of any size, for fractions as far as it is exact, and
for which operations give a complex number or raise; what it leaves open (how a result is rounded, what a complex number
is) is the parameter `py: PyNumber.Python`, of which nothing is assumed. Collections and queues of the handshake are a
state that atomic steps change.

## What turned out not to hold

Each of these is kept in the model as the code has it, with a witness and the exact condition under which the expected
property holds.

- Not every message becomes a contract. Besides a clash in the sanitiser there are two reasons. Visiting a list asks a
  dynamic array of two 256-bit integers for a field that only fixed lists have (line 200 of `typed_converters.py`); outside
  constants that raises if and only if no variable is both asked for and there: `TypedConverter.Converter.VisitList`,
  `Flaws.PairArrayWitness`, `TypedConverter.ConvertPairArray`. And the right operand of an operation is compared outside of
  any handler (lines 101 and 111 of `types.py`), though it may be a complex number, such as `((-8) ** (1 / 2))`. An
  operation raises if and only if its right operand evaluates to a complex number and is compared, as an exponent or as the
  amount of a 256-bit shift: `TypedConverter.Converter.FoldBinop`; for an integer expression of literals that decides the
  whole visit: `TypedConverter.Converter.VisitInt`, `Flaws.ComplexPowerWitness`, `TypedConverter.ConvertComplexPower`. A
  conversion fails for a clash or for what is certain to raise whatever is chosen, and never fails for a message with
  neither a clash, nor a mention of such an array, nor a power of a quotient to the right of such an operator:
  `TypedConverter.Converter.Visit`.
- Fractions end up where they do not belong. At an unsigned type a negative fraction gets a minus sign in front of its text
  (lines 102 and 128 of `types.py`), though unsigned types have none and the sign binds to the leftmost operand only; a
  fraction above 256 as the amount of a shift is replaced by a fraction (line 112). An operation is written so if and only
  if its exponent or its result is a known negative fraction and its type unsigned, or its amount such a fraction:
  `StrayExprs.FoldedStraysIff`, `Witnesses.MisplacedMinus`, `Witnesses.FractionAmount`. The rules of `Checker.dfy` allow these
  two exceptions and no other; a message that neither divides integers nor converts a difference of decimals is written
  without them: `StrayBlocks.NoFlawNoStray`.
- A function may declare more than it needs. Of a power whose operands can both not be evaluated the left one is replaced
  by 1 after it has been visited (lines 104 and 105 of `types.py`), so that what it reads or creates is not written but
  still raises the mutability. An operation keeps the effect of its operands if and only if it does not drop one that has
  the greater effect: `Climbing.FoldedEffect`, `Witnesses.DroppedCreation`. A function without such a power declares exactly
  what the message asks for or the body needs, whichever is more: `Consequences.MutabilityIsExact`,
  `Consequences.DefaultMutabilityIsExact`; with one it still declares nothing above nonpayable that is not asked for:
  `Consequences.NothingAboveAsked`.
- A call result may be captured in a storage variable that is strictly larger than the result without raising the
  mutability (lines 606 and 611 of `typed_converters.py` look variables up differently). Every storage variable that may be
  chosen is noticed if and only if no storage variable of the kind is larger than the result:
  `StatementRules.CapturesNoticedIff`, `StatementRules.OversizedCaptureWitness`. So the mutability of every function covers
  its whole effect if no plain global is larger than an output, of the same kind, of an internal function
  (`Consequences.NoLargerGlobalSuffices`); for a given contract it does if and only if the function has no such capture or
  is nonpayable anyway (`Consequences.FullEffectSoundness`).
- A statement-level `raw_call` that declares its result inline may mention the declared name in its own gas or value. The
  new name is offered there if and only if gas or value asks for a byte string at least as large:
  `Asked.ResponseOfferedIff`; without such a question it is never mentioned, whatever is chosen: `Asked.SelfReferenceGuard`;
  with one it may be: `Asked.SelfReferenceWitness`. What is written is in scope if and only if it does not mention the name:
  `BlockSoundness.SelfReference`.
- A plain assignment may choose a target that holds less than the value can. Everything the lookup returns has the type
  asked for if and only if no writable variable in reach is of that kind and smaller: `Lengths.AssignmentLookupIff`,
  `Lengths.SmallerTargetWitness`; every value fits a chosen target if and only if that was declared with exactly the type:
  `Lengths.AssignmentFits`.
- A sign to the left of an operator can be read in two ways, as in `-5 ** 2`, since the sign of a literal is a token of its
  own. What is written has one reading if and only if no signed literal stands there and no sign in front of an operation:
  `Printing.UniquelyReadable`, `Witnesses.SignedPowerIsWritten`, `Witnesses.SignedPowerHasTwoReadings`.
- Reshaping the results raises if and only if some function has outcomes in a deployment whose number exceeds the rows that
  the function has by then, where a deployment beyond the rows adds one row wherever it is: `Verifier.ReshapeData`. It does
  for a function that is missing from a compiler's first deployment only: `Verifier.GapWitness`, `Verifier.ReshapeMissing`. It
  never raises when every function that a compiler lists for a deployment is listed for the earlier ones:
  `Verifier.ContiguousHasNoGap`.
- A negated exponent leaves its type's range if and only if the exponent was the lower bound:
  `IntBounds.NegatedExponentRange`, `IntBounds.NegatedExponentWitness`.
- A sanitiser pass raises if and only if two walks of the search are refused the same call; a diamond whose bottom calls
  its top does that: `FunctionConverter.ClashExact`, `FunctionConverter.PassByRemoval`, `FunctionConverter.ClashWitness`.
- The sanitiser deletes calls even from some acyclic graphs. It changes nothing if and only if no walk is blocked:
  `CallGraph.UnchangedIff`, `CallGraph.AcyclicGraphLosesCall`.
- Adjacent comparison does not see a disagreement around a runtime error. It is quiet if and only if any two compilers agree
  that have no runtime error between them: `Verifier.QuietIff`, `Verifier.ErrorHidesDisagreement`.
- A runner that answers before the generator has created the result entry loses its result for good. The entry holds a
  result if and only if it existed when the runner stored it: `Handshake.ResultIff`, `Handshake.LostForGood`,
  `Handshake.FastRunnerLoses`.
- A redelivery between the verifier's reading and marking can leave an entry marked as handled whose results were never
  judged. The verdict of a handled entry is on what it holds if and only if no result was replaced by a different one
  between the reading and the marking, net of replacements that were undone: `Handshake.HandledIff`, `Handshake.StaleMark`,
  `Handshake.UndoneStore`; with repeatable results that cannot happen: `Handshake.HandledIsCurrent`.

## Model

| member | source | states |
|---|---|---|
| CallGraph.BlockedWalksExact | fuzz/converters/function_converter.py:37-43 | the depth-first search with its never-popped stack refuses exactly the calls that the walk-based definition of `BlockedBy` describes: those whose target is an ancestor, or an elder sibling of an ancestor |
| CallGraph.RefusedExact | fuzz/converters/function_converter.py:46-47 | the calls refused in the pass from f are exactly the last calls of blocked walks that start at f |
| CallGraph.RefusedDistinct | fuzz/converters/function_converter.py:37-43 | one pass arrives at no blocked walk twice |
| CallGraph.SanitizedShrinks | fuzz/converters/function_converter.py:45-48 | later passes only delete calls |
| CallGraph.SurvivorExplored | fuzz/converters/function_converter.py:37-48 | a walk whose calls all survive the pass from its start was followed to its end by the search |
| CallGraph.SanitizedIsAcyclic | fuzz/converters/function_converter.py:36-48 | for every call graph, with self-calls, mutual cycles and diamonds, no walk in the graph left after all passes returns to its start |
| CallGraph.UnchangedIff | fuzz/converters/function_converter.py:36-48 | the passes change nothing if and only if no walk is blocked |
| CallGraph.ForestUnchanged | fuzz/converters/function_converter.py:36-48 | an acyclic graph in which every function has at most one caller is left completely unchanged |
| CallGraph.AcyclicGraphLosesCall | fuzz/converters/function_converter.py:37-43 | the witness that an acyclic graph can lose a call: a call to an elder sibling is refused |
| FunctionConverter.AddCallsExact | fuzz/converters/function_converter.py:28-32 | the collected callees are distinct, below the function count, and exactly the internal functions among the called numbers modulo the function count |
| FunctionConverter.CollectedInOrder | fuzz/converters/function_converter.py:28-32 | what the first calls collect stands in front of what later ones add |
| FunctionConverter.Converter.FindFuncCall | fuzz/converters/function_converter.py:17-34 | collects, for function i alone, the calls of a statement and of everything nested in it: loop bodies, all cases and the else block, which CallPaths.CallsInBlock pins down |
| CallPaths.CallsInBlock | fuzz/converters/function_converter.py:17-34 | the numbers collected for a block are those of the calls at exactly the places of the block where calls stand, at any depth of loops, cases and else blocks, each once, from top to bottom of the text |
| CallPaths.CalleesExact | fuzz/converters/function_converter.py:17-34 | a function calls another in the graph of the message if and only if a call somewhere in its block asks for it, modulo the number of functions, and it is internal |
| FunctionConverter.RemoveAllExact | fuzz/converters/function_converter.py:40-40 | a series of removals succeeds, and then equals deleting the set of calls, if and only if no call is removed twice |
| FunctionConverter.ClashExact | fuzz/converters/function_converter.py:37-43 | a pass refuses some call twice if and only if two different walks are refused the same call |
| FunctionConverter.PassByRemoval | fuzz/converters/function_converter.py:46-48 | a pass of single removals raises exactly on a clash and otherwise equals the pass as a deletion of a set |
| FunctionConverter.ClashWitness | fuzz/converters/function_converter.py:36-48 | the diamond 0 to 1 and 2, both to 3, back to 0 raises in its first pass |
| FunctionConverter.Converter.FindCyclicCalls | fuzz/converters/function_converter.py:37-43 | the recursive search performs exactly the removals of the refused calls, in order, on the sanitised tree, and terminates because the stack holds distinct ids below the function count |
| FunctionConverter.Converter.ResolveCyclicDependencies | fuzz/converters/function_converter.py:36-48 | it raises if and only if some pass clashes; otherwise the tree is the sanitised graph, which is acyclic |
| FunctionConverter.Converter.FindNextId | fuzz/converters/function_converter.py:53-57 | extends the order, keeps callees before callers, keeps ids distinct, and includes the id it was asked for |
| FunctionConverter.CalleesInTurn | fuzz/converters/function_converter.py:53-57 | callees are asked for in turn: what the first ones bring stands first in the order, behind what was there before, and each is in it before the next is asked for |
| FunctionConverter.Converter.DefineOrder | fuzz/converters/function_converter.py:50-61 | on the acyclic graph the order is a permutation of all ids in which every callee precedes all its callers |
| FunctionConverter.Converter.SetupOrder | fuzz/converters/function_converter.py:63-70 | raises if and only if some pass over the call graph of the message clashes; otherwise the tree has exactly the calls of the sanitised graph of the message, in which only internal functions are called, and the order is the one that asking for every function in turn gives: a permutation with callees first |
| CallGraph.SameSanitized | fuzz/converters/function_converter.py:36-48 | what the sanitiser leaves depends on the calls alone |
| FunctionConverter.SameOrder | fuzz/converters/function_converter.py:50-61 | the order depends on the calls alone |
| Types.NearestMultipleOf8 | fuzz/converters/utils.py:6-7 | the least multiple of eight at or above the number |
| Types.ExtractType | fuzz/converters/utils.py:24-58 | every type message of the schema becomes a valid type: integer widths are multiples of 8 up to 256, fixed bytes 1 to 32, byte strings and strings 1 to 1000, lists 1 to 100 long |
| Types.ExtractedIff | fuzz/converters/utils.py:24-58 | a type is the extracted one if and only if it is of the kind the message spells, with its sign, the least whole number of bytes that holds its bits, its size modulo 32, its length between one and the largest, and its item type |
| Types.CountedTogether | fuzz/converters/var_tracker.py:125-143 | variables share a counter if and only if their types have the same class, and lists also the class of their items |
| Declarations.NamesOfExact | fuzz/converters/var_tracker.py:96-108 | the names a declaration provides by enumeration are exactly the names it offers by the typing rule: itself, the elements of a list, elements of lists in a dynamic array, with sizes up to the wanted one, or from it for an assignee |
| LiveDeclarations.VisibleExact | fuzz/converters/var_tracker.py:324-344 | a name is among the visible ones if and only if some live declaration at or below the level, of the right mutability, offers it at the type |
| LiveDeclarations.NumberedDistinct | fuzz/converters/var_tracker.py:125-143 | no name stands for a variable or element of two live declarations |
| LiveDeclarations.NumberedAppend | fuzz/converters/var_tracker.py:163-166 | a name made from the next number differs from every live name, and numbering is kept |
| VarTracker.Tracker.RegisterFunctionVariable | fuzz/converters/var_tracker.py:155-187 | all four nested dictionaries agree with the flat list extended by one declaration; the counter of its type goes up by one |
| VarTracker.Tracker.CreateAndRegisterVariable | fuzz/converters/var_tracker.py:189-215 | the name carries the next number and the prefix of the mutability; the flat list gains exactly that declaration |
| VarTracker.Tracker.RegisterGlobalVariable | fuzz/converters/var_tracker.py:217-223 | the flat list gains a mutable declaration of level 0 under its storage name |
| VarTracker.Tracker.RemoveFunctionLevel | fuzz/converters/var_tracker.py:261-275 | exactly the declarations of that level and mutability leave the flat list; names stay distinct |
| VarTracker.Tracker.ResetFunctionVariables | fuzz/converters/var_tracker.py:277-295 | exactly the declarations above level 0 leave the flat list, the counters return to the global ones, and names stay distinct |
| VarTracker.NumberedReset | fuzz/converters/var_tracker.py:277-295 | after a reset the restored counters still reach every surviving declaration, so the next name is fresh |
| VarTracker.Tracker.GetDynArrays | fuzz/converters/var_tracker.py:80-88 | as a multiset, exactly the visible dynamic arrays of the base type, or of any base type, within the size |
| VarTracker.Tracker.GetBytesOrString | fuzz/converters/var_tracker.py:90-94 | as a multiset, exactly the visible byte strings or strings within the size |
| VarTracker.GetDyns | fuzz/converters/var_tracker.py:96-108 | the three nested loops return, as a multiset, exactly what the flat list holds of the given kinds up to the level within the size |
| VarTracker.Tracker.GetListItems | fuzz/converters/var_tracker.py:237-253 | as a multiset, one name per index of every live list of that base type up to the level |
| VarTracker.Tracker.GetVars | fuzz/converters/var_tracker.py:324-344 | as a multiset, exactly the names that the live declarations offer at the level, type and mutability |
| VarTracker.Tracker.GetReadonlyVariables | fuzz/converters/var_tracker.py:297-304 | as a multiset, exactly the visible read-only names |
| VarTracker.Tracker.GetMutableVariables | fuzz/converters/var_tracker.py:306-314 | as a multiset, exactly the visible mutable names, by `assignee` up to or from the size |
| VarTracker.Tracker.GetGlobalVars | fuzz/converters/var_tracker.py:316-322 | as a multiset, exactly the mutable names of level 0 |
| VarTracker.Tracker.GetDynArrayBaseType | fuzz/converters/var_tracker.py:111-123 | finds the base type of a live dynamic array of that name, and nothing if there is none |
| IntBounds.Generate | fuzz/types_d/literal_value_generator.py:41-44 | the literal is within the bounds of the type |
| IntBounds.GenerateCongruent | fuzz/types_d/literal_value_generator.py:41-44 | modulo 2^n the literal is congruent to the value, for signed types to the value plus 2^(n-1) |
| IntBounds.CheckIsRetraction | fuzz/types_d/types.py:120-135 | the check leaves alone exactly what does not evaluate to an integer out of range, negative fractions at unsigned types aside; it always lands there, is idempotent on everything but those fractions, and keeps the residue of what it replaces |
| IntBounds.ValueIsWhole | fuzz/types_d/types.py:120-135 | the integers among the evaluated numbers do not depend on how Python rounds: what is written evaluates to an integer, and to which one, in every arithmetic alike |
| IntBounds.BinopChecked | fuzz/types_d/types.py:88-118 | no known zero divisor, known negative exponent, known shift above 256 or shift below 256 bits survives; whether the operand is known is decided with fractions and complex numbers |
| IntBounds.BinopUntouchedIff | fuzz/types_d/types.py:88-118 | an operation is left alone if and only if its right operand needs no adjustment and it is no power of two unknowns, fractions included |
| IntBounds.BinopAdjusts | fuzz/types_d/types.py:100-118 | a changed right operand, enclosed as every operand is and comparable, evaluates to the negated exponent, integer or fraction, to the shift modulo 257, or to one for a zero divisor |
| Operators.KindsOfOperators | fuzz/converters/typed_converters.py:57-87 | the operators of integer, truth value and comparison expressions: which are arithmetic, which logical, and that equality and inequality are both logical and comparisons |
| Operators.DifferenceUndoesSum | fuzz/types_d/types.py:88-98 | in evaluation a difference is what has to be added to the subtrahend, and takes a sum back |
| Operators.ProductIsRepeatedSum | fuzz/types_d/types.py:88-98 | a product grows by the first factor with every step of the second |
| Operators.RemainderIs | fuzz/types_d/types.py:88-98 | a remainder differs from the number by a multiple of the divisor and lies between zero and the divisor, whatever the signs |
| Operators.PowerOfSum | fuzz/types_d/types.py:88-98 | powers multiply as exponents add, from b ** 1 == b |
| Operators.ShiftRightIsFloor | fuzz/types_d/types.py:88-98 | a shift to the right is the largest number that shifted back does not exceed the number |
| Operators.ShiftIsDoubling | fuzz/types_d/types.py:88-98 | every step of a shift to the left doubles |
| Operators.EveryBit | fuzz/types_d/types.py:88-98 | the bitwise operators combine each bit of the two numbers in two's complement by itself |
| Operators.BitsDetermine | fuzz/types_d/types.py:88-98 | numbers with the same bits are the same |
| Operators.BitsAddUp | fuzz/types_d/types.py:88-98 | `&` and `|` share the sum out, and `^` is their difference |
| Operators.NoValueIff | fuzz/types_d/types.py:88-98 | an integer operation has no value exactly for a zero divisor or a negative exponent or shift |
| Operators.FractionsAddUp | fuzz/types_d/types.py:88-98 | as long as nothing is rounded a difference of fractions undoes a sum |
| Operators.FractionsMultiply | fuzz/types_d/types.py:88-98 | and a quotient a product |
| Operators.FractionsRepeat | fuzz/types_d/types.py:88-98 | and a product is a repeated sum |
| Operators.QuotientUndoesProduct | fuzz/types_d/types.py:88-98 | the quotient of a product of integers by one of its factors is the other |
| Operators.RemainderOfFraction | fuzz/types_d/types.py:88-98 | a remainder of fractions that is not rounded differs by a multiple of the divisor and lies below it |
| Operators.PowersOfFractions | fuzz/types_d/types.py:88-98 | a power is complex, or raises, exactly for a negative base with an exponent that is no integer |
| Operators.InfinitiesStay | fuzz/types_d/types.py:88-98 | an infinite number keeps or gets the sign that the operands give it, unless it meets its opposite; division by zero raises |
| Folding.DifferenceWritten | fuzz/types_d/types.py:120-132 | at every unsigned type a difference of two literals is written as it is if it is not negative, and otherwise as the literal it wraps around to: 3 - 5 becomes 254 in eight bits |
| Folding.SumWritten | fuzz/types_d/types.py:120-132 | a sum of two literals is written as it is if it fits, and otherwise less the size of the type |
| Folding.OperatorWitnesses | fuzz/types_d/types.py:120-132 | witnesses in eight bits for products, remainders, powers and the bitwise operators, evaluated inside a difference that wraps around |
| Folding.ShiftWitnesses | fuzz/types_d/types.py:107-132 | the same for both shifts in 256 bits |
| Climbing.FoldedEffect | fuzz/types_d/types.py:100-132 | after both checks an operation has the effect of its operands, but for the left operand of a power of two unknowns |
| IntBounds.NegatedExponentRange | fuzz/types_d/types.py:100-102 | the negation of a negative exponent is in range if and only if the exponent is not the lower bound |
| IntBounds.NegatedExponentWitness | fuzz/types_d/types.py:100-102 | the witness: 1 ** -128 in eight signed bits is written with an exponent out of range, and passes the bounds check |
| Ranges.EveryPartInRange | fuzz/converters/typed_converters.py:840-866 | wherever an integer type is asked for inside a written expression, negated exponents included, what stands there evaluates to an integer of that type, if it evaluates at all, if and only if it is not the negation of the lower bound; no known zero divisor or negative exponent stands at its right |
| Literals.BytesLiteral | fuzz/types_d/literal_value_generator.py:3-9 | the text fits the capacity, is a prefix of the hexadecimal digits, and is cut only where it must be |
| Literals.HexRoundTrip | fuzz/types_d/literal_value_generator.py:3-9 | the hexadecimal digits of a number read back as it, without zeros in front |
| Literals.HexBytesRoundTrip | fuzz/types_d/literal_value_generator.py:19-28 | the two digits of every byte read back as it |
| Literals.BytesMLiteral | fuzz/types_d/literal_value_generator.py:19-28 | exactly two digits a byte: those of the value, cut or filled up with zeros |
| Literals.DecimalRoundTrip | fuzz/types_d/literal_value_generator.py:52-55 | the text of a decimal literal reads back as the value it was written for |
| Literals.StringLiteral | fuzz/types_d/literal_value_generator.py:58-70 | the allowed characters of the value in order, cut only at the capacity; none of them can end the quotes |
| Literals.CleanedIsFilter | fuzz/types_d/literal_value_generator.py:58-70 | what is kept of a string is kept of its parts, in order |
| Soundness.SoundIntBin | fuzz/converters/typed_converters.py:849-851 | after both checks an integer operation is well typed, in range whenever it evaluates to an integer, readable, and within the mutability of its operands |
| Sizing.Scaling | fuzz/converters/typed_converters.py:1259-1261 | scaling the first two parts of a concatenation never exceeds the capacity and loses at most one byte to rounding |
| Sizing.ScaledSizes | fuzz/converters/typed_converters.py:1259-1261 | parts that do not fit get each its own share of the capacity in proportion to its own size, rounded down; parts that fit stay as they are |
| Sizing.ShareIsUnique | fuzz/converters/typed_converters.py:1259-1261 | that determines the sizes |
| Mirror.FirstParts | fuzz/converters/typed_converters.py:1254-1281 | in everything written for a concatenation the first two parts have the types of their own shares |
| Mirror.ConversionIff | fuzz/converters/typed_converters.py:879-930 | a conversion is written from a type if and only if that is the type the message spells, with the size of the target where it has one, the rules of the language admit it, and it is not an integer to its own type |
| Mirror.ResponseSizeIs | fuzz/converters/typed_converters.py:1163-1170 | the response has the size that the message asks for, modulo 2^256, up to 100 |
| Mirror.CapturedIff | fuzz/converters/typed_converters.py:1204-1233 | a status is captured if and only if the call does not revert, a response if and only if it has a size |
| Mirror.HashedIff | fuzz/converters/typed_converters.py:969-985 | a hash is taken of a string, a byte string or 32 bytes, by the kind of the argument |
| Messages.FieldUpdated | fuzz/converters/typed_converters.py:96-119 | every kind of type has a field of its own that is read, and no other is |
| Messages.ValueUpdated | fuzz/converters/typed_converters.py:619-626 | every position of a payload has a field of its own |
| Messages.LiteralUpdated | fuzz/converters/typed_converters.py:836-838 | the literal that is read is the own literal of the message |
| StatementRules.EcrecoverOrder | fuzz/converters/typed_converters.py:1124-1147 | though given arguments are visited before those read as integers, the written order is hash, v, r, s with each read from its own field |
| StatementRules.FreshTarget | fuzz/converters/typed_converters.py:614-617 | a variable declared for a call result is none of those that receive earlier results, elements included |
| StatementRules.CaptureIsNoticed | fuzz/converters/typed_converters.py:610-613 | storage of exactly the result's type is among the globals that the mutability test looks up |
| StatementRules.CapturesNoticedIff | fuzz/converters/typed_converters.py:605-613 | every storage variable that may receive a result is among the globals looked up for its type if and only if no storage variable is of that kind and larger |
| StatementRules.OversizedCaptureWitness | fuzz/converters/typed_converters.py:606-613 | the witness: larger storage can be chosen as a target and is not among those globals |
| BlockSoundness.RefsAreDeclared | fuzz/converters/typed_converters.py:230-260 | every name that a well-typed expression mentions denotes a variable or element of a declaration in force |
| BlockSoundness.TypedInLarger | fuzz/converters/typed_converters.py:633-643 | what is well typed stays so when more declarations come into force |
| BlockSoundness.WroteBoth | fuzz/converters/typed_converters.py:633-643 | two pieces of a block, the second written in the scope the first left, follow the rules as one block and stay within the mutability |
| BlockSoundness.SelfReference | fuzz/converters/typed_converters.py:1175-1177 | an inline declaration from a raw call is well typed without its own name in scope if and only if its initialiser does not mention that name |
| TypedConverter.InLookup | fuzz/converters/typed_converters.py:242-251 | what is chosen from a lookup is offered at the type by a declaration in scope |
| TypedConverter.NothingListed | fuzz/converters/typed_converters.py:248-249 | if the lookups are empty then no declaration in scope could have been used |
| TypedConverter.ScopeIsUnique | fuzz/converters/typed_converters.py:266-281 | in every state of the walk a name stands for at most one variable or element |
| TypedConverter.StaysWithin | fuzz/converters/typed_converters.py:1017-1048 | a byte string or string written for a capacity is never longer than it |
| TypedConverter.Converter.VisitVarRef | fuzz/converters/typed_converters.py:230-260 | the chosen variable is in scope at the type, writable if it is to be written, and its access is covered by the mutability; outside constants, none is chosen only if none fits |
| TypedConverter.Converter.VisitExpr | fuzz/converters/typed_converters.py:262-264 | for every message, type and choice: well typed in scope, readable, constant where asked, a mirror of the message, the operator stack restored, and when the visit raises; the mutability rises to the effect of what is written and no further, up to nonpayable where a power may drop an operand |
| TypedConverter.Converter.VisitInt | fuzz/converters/typed_converters.py:840-876 | as VisitExpr, with the operands in their order and both bounds checks applied to them; for an expression of literals the text is the one that literals determine, and it raises if and only if some right operand in it is complex where it is compared |
| TypedConverter.Converter.FoldBinop | fuzz/types_d/types.py:88-135 | both checks in turn, on operands that are evaluated as the laws of Operators say; raises if and only if the right operand of `**`, or of a shift at 256 bits, evaluates to a complex number |
| TypedConverter.Converter.VisitBool | fuzz/converters/typed_converters.py:781-838 | as VisitExpr, for logic, negation, comparisons and leaves; parenthesised whenever an operator is waiting |
| TypedConverter.Converter.VisitComparison | fuzz/converters/typed_converters.py:801-827 | as VisitExpr, with operands of 256-bit unsigned integers or decimals by the kind of comparison |
| TypedConverter.Converter.VisitDecimal | fuzz/converters/typed_converters.py:987-1015 | as VisitExpr, for decimal arithmetic and negation |
| TypedConverter.Converter.VisitLeaf | fuzz/converters/typed_converters.py:1006-1015 | a variable or, exactly where none fits, the literal of the message; for other leaves a conversion if there is one, else the literal; raises only within what is converted |
| TypedConverter.Converter.CreateLiteral | fuzz/converters/typed_converters.py:776-778 | the literal of the message's own field for the type, with the value of that field, well typed whatever the field holds |
| TypedConverter.Converter.VisitConversion | fuzz/converters/typed_converters.py:879-942 | a conversion is written if and only if the target type admits the source, from the type the rules name; a known integer is brought into the range of the target first, and a known negative fraction gets another minus sign at an unsigned one |
| TypedConverter.Converter.VisitBytesM | fuzz/converters/typed_converters.py:944-967 | as VisitExpr; a hash is converted exactly when fewer than 32 bytes are asked for |
| TypedConverter.Converter.VisitHash256 | fuzz/converters/typed_converters.py:969-985 | a hash of the one argument the message gives, at its own type |
| TypedConverter.Converter.VisitBytes | fuzz/converters/typed_converters.py:1017-1034 | as VisitExpr, and at most as long as the capacity when evaluated |
| TypedConverter.Converter.VisitString | fuzz/converters/typed_converters.py:1036-1048 | as VisitExpr, and at most as long as the capacity when evaluated |
| TypedConverter.Converter.VisitConcat | fuzz/converters/typed_converters.py:1254-1300 | the part sizes add up to at most the capacity, the first two each by its own share (Mirror.FirstParts); the parts come from their own fields, further parts in order, each exactly if it still fits |
| TypedConverter.Converter.VisitPart | fuzz/converters/typed_converters.py:1278-1298 | one part, of no more than the size it is given |
| TypedConverter.Converter.VisitAddress | fuzz/converters/typed_converters.py:691-715 | as VisitExpr, for contract creation, ecrecover and leaves |
| TypedConverter.Converter.VisitCreateMinProxyOrCopyOf | fuzz/converters/typed_converters.py:717-735 | raises the mutability to nonpayable; target, value and salt come from their own fields |
| TypedConverter.Converter.VisitCreateFromBlueprint | fuzz/converters/typed_converters.py:737-774 | as above, with raw arguments exactly when their flag is set |
| TypedConverter.Converter.VisitEcrecover | fuzz/converters/typed_converters.py:1124-1147 | four arguments in the order hash, v, r, s, each from the field the message gives |
| TypedConverter.Converter.VisitRawCallExpr | fuzz/converters/typed_converters.py:1149-1233 | target, data, gas and value from their own fields; view if static, else nonpayable |
| TypedConverter.Converter.VisitList | fuzz/converters/typed_converters.py:189-228 | as VisitExpr for lists; outside constants it raises if and only if the type is a dynamic array of two 256-bit integers and no variable of it is both asked for and in scope |
| TypedConverter.Converter.VisitListItems | fuzz/converters/typed_converters.py:205-228 | the items of the message in order up to the size, then literals up to exactly the size of a fixed list; a dynamic array has exactly the items taken |
| TypedConverter.Converter.VisitEcadd | fuzz/converters/typed_converters.py:1235-1241 | two points from their own fields |
| TypedConverter.Converter.VisitEcmul | fuzz/converters/typed_converters.py:1243-1252 | a point and a scalar from their own fields |
| TypedConverter.Converter.RegisterLocal | fuzz/converters/typed_converters.py:269-276 | a name that is new, with the given prefix and the class of its type, extends scope by its declaration |
| TypedConverter.Converter.LeaveLevel | fuzz/converters/typed_converters.py:463-465 | exactly what was declared since the level was entered goes out of scope |
| TypedConverter.Converter.VarDecl | fuzz/converters/typed_converters.py:266-281 | the declared value is well typed in the scope before the declaration and written for the message's field |
| TypedConverter.Converter.VisitAssignment | fuzz/converters/typed_converters.py:525-535 | assigns to a writable variable in scope or, exactly where none fits, declares one; storage writes are covered by the mutability |
| TypedConverter.Converter.VisitAssertStmt | fuzz/converters/typed_converters.py:1056-1071 | condition and message from their own fields; the empty message is left out |
| TypedConverter.Converter.VisitSendStmt | fuzz/converters/typed_converters.py:1103-1122 | nonpayable; target, amount and gas from their own fields |
| TypedConverter.Converter.VisitRawLog | fuzz/converters/typed_converters.py:573-593 | nonpayable; one to four topics, and the data from the field that is given |
| TypedConverter.Converter.PickDynArray | fuzz/converters/typed_converters.py:1073-1083 | the base type looked up by name is the declared one of the array that was chosen |
| TypedConverter.Converter.VisitAppendStmt | fuzz/converters/typed_converters.py:1073-1088 | appends a value of the array's own base type to a writable array, exactly if there is one |
| TypedConverter.Converter.VisitPopStmt | fuzz/converters/typed_converters.py:1090-1101 | pops from a writable dynamic array, exactly if there is one |
| TypedConverter.Converter.ChooseTarget | fuzz/converters/typed_converters.py:605-617 | a target in scope, at least as large as the result, that receives no earlier result; declared only if nothing in scope could hold the result, or something that could receives an earlier one; the mutability rises exactly for storage of the type of the result |
| TypedConverter.Converter.ChooseTargets | fuzz/converters/typed_converters.py:603-617 | one target per output, with pairwise distinct names under every choice, only declarations written before the call, each for need |
| TypedConverter.Converter.VisitFuncCall | fuzz/converters/typed_converters.py:595-631 | one target per output and one argument per input of the callee's finished signature, the i-th visited at the i-th type from the i-th field; a variable is declared for a result only where none is free; the mutability rises to the callee's, the targets' and the arguments' and no further |
| TypedConverter.Converter.VisitArguments | fuzz/converters/typed_converters.py:622-627 | one argument per type, the i-th from the i-th field of the payload |
| TypedConverter.Converter.VisitReturnPayload | fuzz/converters/typed_converters.py:667-689 | a return carries exactly the declared outputs, the i-th from the i-th field |
| TypedConverter.Converter.VisitExitStatement | fuzz/converters/typed_converters.py:645-665 | exactly one exit, by the kind in the message; without outputs, flag or need the return may be left out |
| TypedConverter.Converter.VisitBlock | fuzz/converters/typed_converters.py:633-643 | the block follows every rule in the scope it starts in, mirrors the message (a group per statement in order, then the exit where one is due), and raises the mutability to what it needs and no further |
| TypedConverter.Converter.VisitForStmt | fuzz/converters/typed_converters.py:454-470 | one loop whose counter has the counter's prefix; counter and body names leave scope afterwards |
| TypedConverter.Converter.VisitRange | fuzz/converters/typed_converters.py:416-452 | constant ranges are not empty and ordered; a variable start is an unsigned 256-bit integer in scope |
| TypedConverter.Converter.VisitBranch | fuzz/converters/typed_converters.py:490-497 | a branch leaves the scope as it found it |
| TypedConverter.Converter.VisitIfStmt | fuzz/converters/typed_converters.py:472-504 | one branch per case in order, each with its own condition and block, or one that is never taken |
| TypedConverter.Converter.VisitStatement | fuzz/converters/typed_converters.py:537-571 | the statement of the message's kind; its assignment exactly where there is no kind, no loop to leave, no such callee or no writable dynamic array in scope; the flag is raised for what is certain to raise, and only for a pair array or a power of a quotient that is mentioned or in a signature |
| TypedConverter.Converter.VisitRawCallStmt | fuzz/converters/typed_converters.py:1149-1233 | captures a status exactly without revert and a response exactly with a nonzero size, capped at 100, into targets of those types, declared exactly where nothing fits; the response is in scope for gas and value, the status is not |
| TypedConverter.Converter.VisitInputParameters | fuzz/converters/parameters_converter.py:11-29 | at most five parameters of the message's types under distinct names that no global has, which are exactly what scope gains |
| TypedConverter.Converter.VisitBody | fuzz/converters/typed_converters.py:344-352 | a body starts with mutability 0 and leaves nothing but the globals in scope |
| TypedConverter.Converter.VisitFunction | fuzz/converters/typed_converters.py:161-172 | the function is finished: signature cut at five, body checked and mirrored against its own block, its mutability the greater of the declared one and the one its body was visited at, which is what the body needs unless an operand is dropped; all other functions unchanged |
| TypedConverter.Converter.VarDeclGlobal | fuzz/converters/typed_converters.py:283-307 | a fresh global of the declared type; a value exactly for constants and immutables, and constants mention only constants; the flag changes as for visiting that value |
| TypedConverter.Converter.VisitGlobals | fuzz/converters/typed_converters.py:140-144 | at most five globals, each checked and mirrored over the earlier ones; raises for a value certain to raise, and only for one that mentions what may raise |
| TypedConverter.Converter.VisitInit | fuzz/converters/typed_converters.py:362-381 | the constructor assigns exactly the immutables (Output.ImmutablesAre) and its body follows the rules |
| Output.ImmutablesAre | fuzz/converters/typed_converters.py:303-303 | the values written at the start of the constructor are those of exactly the immutables, in the order of declaration |
| TypedConverter.Converter.VisitDefaultFunc | fuzz/converters/typed_converters.py:383-408 | the default function follows the rules, its mutability the greater of the declared one and what its body needs unless an operand is dropped |
| TypedConverter.Converter.VisitFunctions | fuzz/converters/typed_converters.py:161-172 | converting callees first, every function is finished when its callers are converted, and stays so; raises for what is certain to raise in a body, and only where some function mentions what may raise |
| TypedConverter.Converter.Assemble | fuzz/converters/typed_converters.py:176-179 | every function with the parameter names of its own position in the order |
| TypedConverter.Converter.Visit | fuzz/converters/typed_converters.py:136-184 | fails if a pass over the call graph of the message clashes or something is certain to raise whatever is chosen, and only if a pass clashes or something that may raise is mentioned: a pair array, or a power of a quotient right of `**` or a shift; whenever it does not fail, the whole contract is right: globals, constructor, every registered function exactly once in id order with calls along the sanitised graph of the message, and the default function with the callees of the function converted last; scope, typing, effects, and the mirror of the message |
| TypedConverter.Converter.VisitAllFunctions | fuzz/converters/typed_converters.py:153-179 | fails if and only if ordering the functions of the message raises; otherwise every function is emitted as finished over the sanitised call graph of the message |
| TypedConverter.Convert | fuzz/converters/typed_converters.py:123-184 | the same promise as Visit for a converter built from nothing, without any precondition |
| Flaws.PairArrayWitness | fuzz/converters/typed_converters.py:199-203 | the witness: a message with one immutable, a dynamic array of two uint256, and no functions is certain to raise |
| TypedConverter.ConvertPairArray | fuzz/converters/typed_converters.py:199-203 | converting that message fails whatever is chosen |
| Flaws.ComplexPowerWitness | fuzz/types_d/types.py:100-102 | the witness: a message with one immutable of eight signed bits, a power of `((-8) ** (1 / 2))`, is certain to raise in every arithmetic |
| TypedConverter.ConvertComplexPower | fuzz/types_d/types.py:100-102 | converting that message fails whatever is chosen |
| Quotients.KnownShape | fuzz/types_d/types.py:88-98 | for every message, scope and choice, what is written for an integer expression evaluates to a number that is no integer only if the message divides there, and to a complex number only if it has a power of a quotient there |
| Quotients.UncomparableOperand | fuzz/types_d/types.py:100-112 | an operation raises only where the message has a power of a quotient to the right of `**` or a shift |
| StrayExprs.FoldedStraysIff | fuzz/types_d/types.py:100-135 | an operation on regular operands comes out with a misplaced minus sign or a fraction for a shift if and only if its exponent or its result is a known negative fraction at an unsigned type, or its amount a known fraction above 256 |
| StrayExprs.StrayHasFlaw | fuzz/types_d/types.py:120-135 | for every message, type, scope and choice, what is written breaks the rules of the language in those two ways only if the message divides integers, converts an integer quotient, or converts a difference of decimals |
| StrayBlocks.NoFlawNoStray | fuzz/converters/typed_converters.py:136-184 | for a message without such a part, every expression of the whole contract obeys the rules of the language without exception |
| Witnesses.MisplacedMinus | fuzz/types_d/types.py:125-128 | the witness: 1 / 2 - 3 in eight unsigned bits is written with a minus sign in front of its first operand, and is still negative |
| Witnesses.FractionAmount | fuzz/types_d/types.py:110-112 | the witness: the amount of 1 << 300 / 1 in 256 unsigned bits is written as the fraction 43.0 |
| FuncTracker.FunctionTracker.RegisterFunctions | fuzz/converters/func_tracker.py:87-104 | functions up to the cap, the id being the position, with empty signatures |
| Output.DefinitionsOk | fuzz/converters/func_tracker.py:41-66 | every definition has a name for every input, so rendering never raises, and is the finished function of its id |
| Output.NextIsReady | fuzz/converters/typed_converters.py:161-172 | in an order with callees first, no function calls itself and all callees of the next one are finished |
| Output.OneMoreFinished | fuzz/converters/typed_converters.py:161-172 | finishing one function keeps every earlier one finished, since none of those calls it |
| Consequences.CalledIsCallable | fuzz/converters/typed_converters.py:552-556 | in a body that follows the rules only functions in the callable map are called; Output.FunctionsOk builds that map from the sanitised graph |
| Consequences.EffectCoversCalls | fuzz/converters/typed_converters.py:600-601 | the effect of a body covers the mutability of everything it calls, at any depth |
| Consequences.EmittedCall | fuzz/converters/typed_converters.py:595-601 | every emitted call targets an internal function of no greater mutability, along an edge of the sanitised graph of the message |
| Consequences.ChainsAreSafe | fuzz/converters/typed_converters.py:595-631 | along every chain of emitted calls nothing recurs, every called function is internal, and the first caller's mutability covers the last callee's |
| Consequences.ReachedEffectIsCovered | fuzz/converters/typed_converters.py:344-352 | the effect of the body of everything reached along a chain of emitted calls is covered by the mutability of the function the chain starts at |
| Consequences.FullEffectSoundness | fuzz/converters/typed_converters.py:603-613 | the declared mutability covers the full effect, captures included, if and only if the body has no oversized capture in storage or is at least nonpayable |
| Consequences.NoLargerGlobalSuffices | fuzz/converters/typed_converters.py:603-613 | if no plain global of the message is larger than an output, of the same kind, of an internal function, then for every choice the mutability of every function covers its full effect |
| Consequences.MutabilityIsExact | fuzz/converters/typed_converters.py:344-360 | a function whose block has no power that may drop its left operand declares exactly the greater of what its message asks for and what its body needs |
| Consequences.DefaultMutabilityIsExact | fuzz/converters/typed_converters.py:383-406 | so does the default function |
| Consequences.NothingAboveAsked | fuzz/converters/typed_converters.py:341-357 | at any depth of calls no function declares more than nonpayable or the most that some message asks for, so that every mutability has a decorator |
| Witnesses.DroppedCreation | fuzz/types_d/types.py:104-105 | the witness: a created address to the power of a truth value is written without the creation, for every choice, though visiting it asks for nonpayable |
| Lengths.LengthSoundness | fuzz/converters/typed_converters.py:1017-1048 | whatever is well typed at a byte string, string, fixed bytes or dynamic array type evaluates to at most the length of that type, by literals, variables, lists, concatenations, conversions, hashes and raw calls |
| Lengths.AssignmentFits | fuzz/converters/typed_converters.py:525-535 | for byte strings, strings and dynamic arrays, every value of the asked type fits the chosen target if and only if the target was declared with exactly that type |
| Lengths.AssignmentLookupIff | fuzz/converters/typed_converters.py:242-251 | everything the lookup for an assignment returns has the type asked for if and only if no writable variable in reach is of that kind and smaller |
| Lengths.SmallerTargetWitness | fuzz/converters/typed_converters.py:525-535 | the witness: a variable of ten bytes is returned where twenty may be assigned |
| Asked.NamesAreOffered | fuzz/converters/typed_converters.py:230-260 | for every message, scope and choice, every name written for an expression is offered at one of the types that the expression asks variables of |
| Asked.ResponseOfferedIff | fuzz/converters/typed_converters.py:1184-1206 | the response variable of a raw call is offered exactly where a byte string of at least its size is asked for |
| Asked.SelfReferenceGuard | fuzz/converters/typed_converters.py:1184-1233 | if neither gas nor value asks for a byte string that large, then for every choice the inline declaration does not mention itself and is typed without itself |
| Asked.SelfReferenceWitness | fuzz/converters/typed_converters.py:1184-1233 | the witness: with nothing in scope, a call whose gas is a byte string variable as a number is given its own response, which is in scope with the response and not without |
| Printing.WrittenReads | fuzz/converters/typed_converters.py:781-838 | what is written can be read back as the tree it was written from, negative literals as negations of positive ones |
| Printing.UniquelyReadable | fuzz/converters/typed_converters.py:781-838 | for every readable expression, with call arguments, list items and signs as tokens, it can be read back as no other tree, under a grammar without precedence or associativity, if and only if no signed literal stands left of an operator and no sign stands in front of an operation |
| Witnesses.SignedPowerIsWritten | fuzz/converters/typed_converters.py:840-856 | the witness: a message for -5 ** 2 in eight signed bits is written as that, in every arithmetic |
| Witnesses.SignedPowerHasTwoReadings | fuzz/converters/typed_converters.py:840-856 | that text is readable and is read both as (-5) ** 2 and as -(5 ** 2) |
| Verifier.EqualRows | fuzz/verifiers/verifier_api.py:83-100 | the columns of equally long rows are their exact transpose |
| Verifier.CheckDeployErrors | fuzz/verifiers/verifier_api.py:55-81 | an error is reported if and only if some deployment failed; exactly one row for every two neighbours of every deployment |
| Verifier.DeployReportComplete | fuzz/verifiers/verifier_api.py:55-81 | no discrepancy is reported for a deployment if and only if all compilers gave the same error or none |
| Verifier.ErrorIs | fuzz/verifiers/verifier_api.py:55-81 | what is compared is the error of a failed deployment, and nothing for one that worked |
| Verifier.AddOutcomes | fuzz/verifiers/verifier_api.py:91-98 | one function's outcomes go to the ends of the columns of its own cell and nowhere else; it raises exactly on a missing earlier row |
| Verifier.ReshapeData | fuzz/verifiers/verifier_api.py:83-100 | it raises if and only if the data has a gap; otherwise, for results of any shape, the table holds exactly the columns of the data in compiler order |
| Verifier.GapWitness | fuzz/verifiers/verifier_api.py:83-100 | the witness: a function missing from the first of two deployments and with outcomes in the second makes a gap |
| Verifier.ReshapeMissing | fuzz/verifiers/verifier_api.py:83-100 | lining up those results raises |
| Verifier.ContiguousHasNoGap | fuzz/verifiers/verifier_api.py:83-100 | there is no gap when every compiler lists the same functions in all its deployments |
| Verifier.StoredUnderName | fuzz/verifiers/verifier_api.py:91-98 | in results with one entry per function, what is read for a name is the outcomes stored under it |
| Verifier.ExactTranspose | fuzz/verifiers/verifier_api.py:83-100 | on results of equal shape result[f][d][k][c] is what compiler c got for f, d and k, with nothing lost, added or moved |
| Verifier.VerifyResults | fuzz/verifiers/verifier_api.py:102-119 | exactly one row for every two neighbours in every column, with their names and the comparison of their own outcomes, kind by kind (VerifyTwoResults) |
| Verifier.VerifyTwoResults | fuzz/verifiers/verifier_api.py:138-178 | for two outcomes without an error the storage is reported, with the two storages, if and only if they differ, and the return value, with the two values, if and only if these differ; after a runtime error nothing is compared |
| Verifier.RowsOfInput | fuzz/verifiers/verifier_api.py:102-119 | on results of equal shape the rows of an input are exactly one for each two neighbouring compilers, and show each kind of discrepancy between their own outcomes with both values exactly where they differ |
| Verifier.QuietIff | fuzz/verifiers/verifier_api.py:102-151 | neighbours show no discrepancy if and only if any two compilers agree that have no runtime error between them |
| Verifier.ErrorHidesDisagreement | fuzz/verifiers/verifier_api.py:138-141 | the witness that a runtime error in the middle hides a disagreement |
| Verifier.ReportComplete | fuzz/verifiers/verifier_api.py:102-151 | without runtime errors on an input, no discrepancy is reported for it if and only if all compilers pairwise agree on state and return value |
| Verifier.StorageComplete | fuzz/verifiers/verifier_api.py:102-151 | without runtime errors on an input, no storage is reported for it if and only if all compilers left the same storage |
| Verifier.ReturnValueComplete | fuzz/verifiers/verifier_api.py:102-151 | and no return value if and only if all compilers returned the same |
| Handshake.IsValid | fuzz/verifiers/verifier_api.py:121-127 | valid if and only if no compiler's first deployment is empty |
| Handshake.Examine | fuzz/verifiers/verifier_api.py:26-43 | a verdict exactly for ready, non-empty entries, by deployment errors or by results; handled exactly if also nothing failed to deploy; raises exactly for a ready, clean entry with a gap in its results |
| Handshake.Pass | fuzz/verifiers/verifier_api.py:21-43 | over all found documents: raises if and only if one of them does; a verdict for each that deserves one, none for others, and exactly the cleanly deployed ones to be marked |
| Handshake.InvKept | fuzz/verifiers/verifier_api.py:45-52 | every step of every process keeps it: a handled entry holds all results and its verdict is inserted, as is that of every entry about to be marked |
| Handshake.HandledIsBacked | fuzz/verifiers/verifier_api.py:45-52 | in every reachable state a handled entry holds every compiler's result and has a verdict on a clean set of results |
| Handshake.VerdictBeforeMark | fuzz/verifiers/verifier_api.py:45-52 | only marking makes an entry handled, and the verdict was inserted and the results complete before it |
| Handshake.VerdictsAreEarned | fuzz/verifiers/verifier_api.py:21-46 | every verdict was reached on exactly what its entry held, unhandled and complete, in some earlier state |
| Handshake.HandledIff | fuzz/verifiers/verifier_api.py:21-52 | every handled entry was found unhandled at some step with complete, clean results, judged on them and marked in the same pass; the verdict is on what it holds if and only if no result was replaced in between, net of replacements that were undone |
| Handshake.UndoneStore | fuzz/runners/runner_api.py:47-48 | the witness: a run in which a different result is stored and replaced again by the one that was read before the entry is marked; its verdict is on what it holds |
| Handshake.HandledIsCurrent | fuzz/runners/runner_api.py:37-49 | if results are repeatable, a handled entry has a verdict on exactly the results it holds, none of them a failed deployment or an empty contract |
| Handshake.StaleMark | fuzz/runners/runner_api.py:45-49 | the witness: after a redelivery with another result, an entry marked as handled holds a failed deployment nobody judged |
| Handshake.ResultIff | fuzz/runners/runner_api.py:47-48 | an entry holds a compiler's result if and only if the runner stored it after the entry was created |
| Handshake.LostForGood | fuzz/runners/runner_api.py:47-49 | a result whose message was acknowledged but that is not in the entry never gets there, and the entry is never handled |
| Handshake.FastRunnerLoses | fuzz/generators/run_api.py:65-78 | the witness: publishing precedes the creation of the entry, so a fast runner's result is lost |

## Left out

- Protobuf, atheris, RabbitMQ, MongoDB, boa, the Vyper compilers, configuration and logging: foreign code or I/O. Messages are datatypes, database writes and queue operations are atomic steps.
- Rendering of the tree to text: types, decorators, indentation, reentrancy keys, the letter case that a checksum gives to an address, and the keyword names of built-in arguments.
- Which of two alike built-ins is written (sha256 or keccak256, create_minimal_proxy_to or create_copy_of) and the delegate flag of a raw call.
- `type_stack`: handlers take the type on its top as a parameter. Early returns leave entries behind in the source; nothing reads them.
- The -1 that `current_id` stores for a new type name: a missing counter reads as -1.
- The order in which dictionaries are iterated: lookups are specified as multisets, and the choice among their elements is arbitrary.
- Fields of an expression message that no handler reads; an unset list message reads as one default literal.
- How far Python rounds a floating-point result and which complex number a power is: a parameter of which nothing is assumed, so everything stated holds for Python's own.
- The time, memory and nesting depth that evaluating a text may take, and the errors they may cause.
- `fuzz/converters/typed_converters_4.py` and the equality of its output with the other converter's.
- The effect of the constructor and its payable flag: no mutability is compared for `__init__`.
- `fuzz/types_d/value_generator.py` and `fuzz/generators/input_generation.py`: a random value is any literal of its type.
- Verifier.VerifyTwoResults: memory and gas are passed by verifiers that accept everything, so a report has no entries for them.
- Handshake.Pass: a find is one atomic step, and there is one verifier; a crash is a restart that forgets the pass.
- Handshake.HandledIsCurrent: repeatability is assumed of whole runs, since whether a runner answers twice alike is decided outside the repository.
- TypedConverter.Converter.VisitRawCallStmt: the self-reference of the inline declaration is allowed by the rules, as the source allows it.
- TypedConverter.Converter.Visit: for a message that mentions what may raise without being certain to raise, whether it fails depends on which variables and calls are chosen; the contract leaves it open there, and is exact per visit of a list (VisitList), per operation (FoldBinop) and for integer expressions of literals (VisitInt).
- Asked.AskedBy: an upper bound for the further parts of a concatenation, which are asked for only if they fit, and for what stands left of a power of two unknowns, which is replaced by one.
- TypedConverter.Converter.VisitAssignment: the target may be smaller than the value, as in the source.
