# lccc core, modelled in Dafny

lccc is a compiler collection. Front ends turn source languages into xlang's
intermediate representation (XIR). A validator type-checks XIR before code
generation. An ABI-stable support library (`xlang_abi`) provides the
collections and `Result` types that cross the plugin boundary. This project
models six parts of it and proves properties of the model:

- **The XIR datatypes** (`xlang_struct`): module `Ir`.
- **The XIR validator** (`xir`). `XirTypes` holds type resolution, field lookup and unification. `XirSimulate` is the stack simulation of a block, as pure functions. `XirValidate` holds the validator's drivers, as methods with loops, each proved to compute those functions. `XirTypeFacts` and `XirBlockFacts` hold the lemmas.
- **The ABI-stable vector** (`xlang_abi::vec`): module `AbiVec`. `Vec` is a class over an `array` buffer with a ghost `Contents`; `IntoIter` is its by-value iterator.
- **The `Try`/`FromResidual` plumbing** (`xlang_abi::ops`) and the `try_!` macro: module `AbiOps`.
- **The semantic pass of the Rust front end** (`rust/src/sema.rs`). `RustSema` models the conversion of the parser's tree into declarations and definitions, and the tree type checker. `RustSemaFacts` holds the lemmas.
- **The recursive-descent parser of the C front end** (`c/src/parse.rs`). In `CParse`, a `Parser` object holds the token sequence and the position of the peekable iterator. Each parsing method is proved equal to a specification function of the tokens and a start position. `CParseFacts` holds the lemmas. `CParseRender` renders trees back into tokens and proves that the parser reads them back unchanged.

How the source's failures are modelled:

- The validator and the Rust pass report every panic (`panic!`, `assert!`, `unwrap`, an index out of range) as an `Error`. A `todo!()` becomes `Unsupported(..)`.
- The C parser's `diagnostic()` (a panic) is `Rejected` and its `todo!()` is `Unsupported`. A loop of the parser that would never end is `Diverges`.
- Unsigned widths are explicit (`Prim`: `u8`, `u16`, `u32`, `u64`, `i128`).

## Model

| member | source | states |
|---|---|---|
| Ir.VisibilityFromCode | xlang/xlang_struct/src/lib.rs:38-46 | a `u16` names a visibility iff it is at most 4, and the visibility decoded from it has that discriminant |
| Ir.VisibilityCodeRoundTrip | xlang/xlang_struct/src/lib.rs:38-46 | every visibility decodes back from its `repr(u16)` discriminant |
| Ir.DefaultPointer | xlang/xlang_struct/src/lib.rs:133-170 | `PointerType { inner, ..Default::default() }` keeps the pointee; aliasing rule, valid range and its size are the zero (`None`) defaults |
| AbiVec.NextPow2 | xlang/xlang_abi/src/vec.rs:96 | `checked_next_power_of_two`: the result is a power of two, at least `n`, at least 1 |
| AbiVec.NextPow2Least | xlang/xlang_abi/src/vec.rs:96 | it is the least power of two at least `n` |
| AbiVec.NextPow2OfPow2 | xlang/xlang_abi/src/vec.rs:96 | a power of two is its own next power of two |
| AbiVec.Vec.NewIn | xlang/xlang_abi/src/vec.rs:81-88 | a new vector is empty and has no capacity |
| AbiVec.Vec.WithCapacityIn | xlang/xlang_abi/src/vec.rs:95-121 | it is empty, with capacity the next power of two of the request |
| AbiVec.Vec.Reallocate | xlang/xlang_abi/src/vec.rs:167-199 | the contents are kept; the capacity becomes the requested one if that is larger |
| AbiVec.Vec.Push | xlang/xlang_abi/src/vec.rs:219-230 | the value is appended; a full vector grows to the next power of two above its capacity |
| AbiVec.Vec.Pop | xlang/xlang_abi/src/vec.rs:233-241 | an empty vector gives `None`; otherwise the last element is removed and returned; the capacity is kept |
| AbiVec.Vec.Reserve | xlang/xlang_abi/src/vec.rs:247-257 | the contents are kept; the capacity covers `len + additional`, growing to the next power of two only when short |
| AbiVec.Vec.Clear | xlang/xlang_abi/src/vec.rs:293-304 | the vector becomes empty; the capacity is kept |
| AbiVec.Vec.ExtendFromSlice | xlang/xlang_abi/src/vec.rs:307-315 | the slice is appended after one reservation |
| AbiVec.Vec.Extend | xlang/xlang_abi/src/vec.rs:419-428 | the items are appended in order, after reserving the iterator's lower size hint |
| AbiVec.Vec.SplitOff | xlang/xlang_abi/src/vec.rs:334-353 | the vector keeps the first `n` elements and the new vector holds the rest, at the next power of two capacity |
| AbiVec.Vec.SplitOffBack | xlang/xlang_abi/src/vec.rs:361-380 | the new vector holds the last `n` elements and the vector keeps the others |
| AbiVec.Vec.Shrink | xlang/xlang_abi/src/vec.rs:387-404 | the vector is truncated to `newLen`; the capacity is kept |
| AbiVec.Vec.Clone | xlang/xlang_abi/src/vec.rs:461-485 | the clone has the same contents, at the next power of two capacity |
| AbiVec.Equals | xlang/xlang_abi/src/vec.rs:512-515 | two vectors are equal iff their contents are |
| AbiVec.WriteAsWritten | xlang/xlang_abi/src/vec.rs:532-543 | `write` as written: the bytes land past the end, the length is unchanged, and `|data|` is reported |
| AbiVec.WriteLosesBytes | xlang/xlang_abi/src/vec.rs:532-543 | writing two bytes into an empty vector leaves it empty |
| AbiVec.Write | xlang/xlang_abi/src/vec.rs:532-543 | `write` as intended: the bytes are appended and `|data|` is reported |
| AbiVec.IntoIter.FromVec | xlang/xlang_abi/src/vec.rs:670-685 | the iterator takes over the buffer; every element remains to be yielded |
| AbiVec.IntoIter.Next | xlang/xlang_abi/src/vec.rs:597-613 | it yields the first remaining element, or `None` when none remain |
| AbiVec.IntoIter.NextBack | xlang/xlang_abi/src/vec.rs:624-640 | it yields the last remaining element, or `None` when none remain |
| AbiVec.IntoIter.SizeHint | xlang/xlang_abi/src/vec.rs:615-618 | the hint is exact: `(remaining, Some(remaining))` |
| AbiOps.AbiBranch | xlang/xlang_abi/src/ops.rs:58-63 | `branch` continues with the `Ok` value and breaks with the error's residual |
| AbiOps.CoreBranch | xlang/xlang_abi/src/ops.rs:94-99 | the same for the standard `Result` |
| AbiOps.AbiFromOutput | xlang/xlang_abi/src/ops.rs:54-56 | no contract of its own (its error type occurs only in its result); `AbiBranchFromOutput` and `AbiBranchRebuild` state that branching on it continues with the output and that it rebuilds a continued `Ok` |
| AbiOps.AbiFromResidual | xlang/xlang_abi/src/ops.rs:32-39 | no contract of its own; `AbiBranchRebuild` states that it rebuilds the `Err` a branch broke out of |
| AbiOps.AbiFromInfallible | xlang/xlang_abi/src/ops.rs:41-48 | no contract of its own; `ResidualsInterconvert` states that a standard-`Result` residual becomes `Err` of the same error |
| AbiOps.CoreFromOutput | xlang/xlang_abi/src/ops.rs:90-92 | no contract of its own; `CoreBranchFromOutput` and `CoreBranchRebuild` state it |
| AbiOps.CoreFromResidual | xlang/xlang_abi/src/ops.rs:66-74 | no contract of its own; `CoreBranchRebuild` states that it rebuilds the `Err` a branch broke out of |
| AbiOps.CoreFromAbiResidual | xlang/xlang_abi/src/ops.rs:76-84 | no contract of its own; `ResidualsInterconvert` states that an ABI residual becomes `Err` of the same error |
| AbiOps.TryInAbi | xlang/xlang_abi/src/ops.rs:102-113 | no contract of its own; `TryInAbiSemantics` states both outcomes of `try_!` |
| AbiOps.TryInCore | xlang/xlang_abi/src/ops.rs:102-113 | no contract of its own; `TryInCoreSemantics` states both outcomes of `try_!` |
| AbiOps.TryInAbiSemantics | xlang/xlang_abi/src/ops.rs:102-113 | `try_!` in an ABI-`Result` function yields the `Ok` value or returns `Err` of the same error |
| AbiOps.TryInCoreSemantics | xlang/xlang_abi/src/ops.rs:102-113 | the same in a function returning the standard `Result` |
| AbiOps.AbiBranchFromOutput | xlang/xlang_abi/src/ops.rs:54-63 | branching on `from_output(v)` continues with `v` |
| AbiOps.CoreBranchFromOutput | xlang/xlang_abi/src/ops.rs:90-99 | the same for the standard `Result` |
| AbiOps.AbiBranchRebuild | xlang/xlang_abi/src/ops.rs:32-63 | `from_output` of the continued value, or `from_residual` of the residual (an `Err` of the same error), rebuilds the original |
| AbiOps.CoreBranchRebuild | xlang/xlang_abi/src/ops.rs:66-99 | the same for the standard `Result` |
| AbiOps.ResidualsInterconvert | xlang/xlang_abi/src/ops.rs:41-84 | residuals carried across the two `Result` types keep their error |
| AbiOps.TryControlFlowTest | xlang/xlang_abi/src/ops.rs:119-125 | the crate's test: `try_!(Ok(1))` evaluates to 1 |
| XirTypes.RefiyType | xir/src/validate.rs:48-55 | a resolvable `Named` becomes its mapped type, a tagged or aligned type its inner type; anything else is unchanged |
| XirTypes.ParseUsize | xir/src/validate.rs:19 | `parse::<usize>()`: defined exactly on an optional `+` and one or more digits whose value fits in a 64-bit `usize` |
| XirTypes.LookupField | xir/src/validate.rs:22-29 | success iff some field has the name, and then the type of the first such field; otherwise `unwrap` fails |
| XirTypes.ChildFuel | xir/src/validate.rs:80 | the fuel left after resolving both sides never grows; it shrinks when a `Named` was resolved; it runs out only then |
| XirTypes.GetFieldType | xir/src/validate.rs:15-46 | no contract of its own; `LookupField` states the aggregate case, and `ProductFieldByIndex`, `AggregateMapWins` and `SelfNamedFieldIsCyclic` the product, aggregate-map and cyclic cases |
| XirTypes.CheckUnify | xir/src/validate.rs:79-206 | no contract of its own; the `XirTypeFacts` lemmas state it: symmetric, reflexive on self-unifiable types, stable under more fuel, `Null` a wildcard, and the scalar, pointer, product, wrapper and `Named` rules |
| XirTypes.UnifyAll | xir/src/validate.rs:152-165 | no contract of its own; `UnifyAllPairwise` states that it succeeds iff every pair up to the shorter list unifies, and `UnifyAllSymmetric`, `UnifyAllReflexive`, `UnifyAllFuelMonotone` and `UnifyAllPrefix` state the zipped list unification |
| XirTypes.UnifyFields | xir/src/validate.rs:166-185 | no contract of its own; `UnifyFieldsSymmetric`, `UnifyFieldsReflexive` and `UnifyFieldsFuelMonotone` state the field-by-field unification |
| XirTypes.UnifyItems | xir/src/validate.rs:213-221 | no contract of its own; `UnifyItemsPairwise` states that it succeeds iff every pair up to the shorter sequence has equal kinds and unifying types; `UnifyItemsKinds` gives the kinds alone |
| XirTypes.CheckUnifyStack | xir/src/validate.rs:209-222 | no contract of its own; `StackUnifyPairwise` states that it succeeds iff the stack is at least as tall as the target and each top item has the target item's kind and a unifying type; `StackUnifyKinds` and `StackUnifyIgnoresBelow` state that only the top `|target|` items matter |
| XirTypeFacts.UnifySymmetric | xir/src/validate.rs:79-206 | `check_unify(a, b)` and `check_unify(b, a)` agree (the same error or success) |
| XirTypeFacts.KindsUnifySymmetric | xir/src/validate.rs:94-128 | the scalar-kind rule is symmetric |
| XirTypeFacts.UnifyAllSymmetric | xir/src/validate.rs:152-165 | zipped unification of two lists is symmetric |
| XirTypeFacts.UnifyFieldsSymmetric | xir/src/validate.rs:179-184 | zipped field unification of two aggregates is symmetric |
| XirTypeFacts.UnifyReflexive | xir/src/validate.rs:79-206 | every self-unifiable type unifies with itself |
| XirTypeFacts.UnifyAllReflexive | xir/src/validate.rs:162-165 | a list of self-unifiable types unifies with itself |
| XirTypeFacts.UnifyFieldsReflexive | xir/src/validate.rs:179-184 | an aggregate's fields unify with themselves |
| XirTypeFacts.UnifyFuelMonotone | xir/src/validate.rs:79-206 | once unification finishes within some fuel, more fuel gives the same answer |
| XirTypeFacts.UnifyAllFuelMonotone | xir/src/validate.rs:162-165 | the same for lists |
| XirTypeFacts.UnifyFieldsFuelMonotone | xir/src/validate.rs:179-184 | the same for aggregate fields |
| XirTypeFacts.UnifyNullWildcard | xir/src/validate.rs:81 | `Null` unifies with any type on either side |
| XirTypeFacts.VoidNeverUnifies | xir/src/validate.rs:205 | `void` does not unify even with itself |
| XirTypeFacts.PointerUnifyIgnoresMetadata | xir/src/validate.rs:159-161 | two pointers unify iff their pointees do; aliasing and range are ignored |
| XirTypeFacts.IntegerUnifyRule | xir/src/validate.rs:82-106 | integer scalars unify iff bit size, vector size and signedness agree; the bounds are ignored |
| XirTypeFacts.EmptyScalarNeverUnifies | xir/src/validate.rs:94-128 | a scalar of kind `Empty` unifies with nothing |
| XirTypeFacts.ProductPrefixUnifies | xir/src/validate.rs:162-165 | a product unifies with any longer product it is a prefix of (no length check) |
| XirTypeFacts.UnifyAllPrefix | xir/src/validate.rs:162-165 | a list unifies with any extension of itself |
| XirTypeFacts.NestedWrappersDoNotUnify | xir/src/validate.rs:48-55 | resolution strips one wrapper, so a doubly tagged type does not unify with its core |
| XirTypeFacts.NamedResolvesOneLevel | xir/src/validate.rs:202-204 | `Named` resolves one level only: `A -> B` with `B` mapped does not unify with `B`'s type |
| XirTypeFacts.UnifyItemsKinds | xir/src/validate.rs:213-221 | items that unify pairwise have equal kinds |
| XirTypeFacts.StackUnifyKinds | xir/src/validate.rs:209-222 | a stack that unifies with a target is at least as tall, and its top has the target's kinds |
| XirTypeFacts.UnifyItemsPairwise | xir/src/validate.rs:213-221 | item-wise unification succeeds iff, up to the shorter sequence, every pair has equal kinds and `check_unify` accepts its types |
| XirTypeFacts.StackUnifyPairwise | xir/src/validate.rs:209-222 | stack unification succeeds iff the stack is at least as tall as the target and each of its top items has the kind of the target item at the same position and a type that unifies with it |
| XirTypeFacts.UnifyAllPairwise | xir/src/validate.rs:152-165 | type-list unification succeeds iff every pair up to the shorter list unifies |
| XirTypeFacts.StackUnifyIgnoresBelow | xir/src/validate.rs:209-212 | items below the top `|target|` never matter |
| XirTypeFacts.DecimalValue | xir/src/validate.rs:19 | the digits of `n` read back as `n` |
| XirTypeFacts.ParseDecimal | xir/src/validate.rs:19 | `parse::<usize>()` of the decimal rendering of a `usize` gives it back |
| XirTypeFacts.ProductFieldByIndex | xir/src/validate.rs:18-21 | field `"i"` of a product is its `i`-th element, when `i` is in range |
| XirTypeFacts.AggregateMapWins | xir/src/validate.rs:30-43 | a `Named` type listed as an aggregate is looked up in the aggregate's fields |
| XirTypeFacts.SelfNamedFieldIsCyclic | xir/src/validate.rs:30-32 | a name mapped to itself makes field lookup loop; this is reported as `Cyclic` |
| XirSimulate.Pop1 | xir/src/validate.rs:293-843 | `vstack.pop().unwrap()`: fails iff the stack is empty, else splits off the top |
| XirSimulate.FillGlobalAddress | xir/src/validate.rs:250-281 | a `Null`-typed address of a known global takes the global's type; nothing else changes |
| XirSimulate.ConstEffect | xir/src/validate.rs:232-292 | a constant pushes one rvalue of its (filled-in) type; generic parameters are unsupported |
| XirSimulate.ExitBlockEffect | xir/src/validate.rs:293-304 | the top `values` items leave the stack; the first exit to a block records them; a later exit must supply as many items, and `CheckUnifyStack` must accept them against the recorded ones (same kinds, unifying types) |
| XirSimulate.BinaryOpEffect | xir/src/validate.rs:305-371 | two rvalues are popped and the top must be scalar; the result is `i32` for `cmp`, `u1` for comparisons, else the operand type plus a `u1` when checked |
| XirSimulate.UnaryOpEffect | xir/src/validate.rs:372-431 | one scalar rvalue is popped; `-` pushes it back, plus a flag when checked; `!` pushes `u1`; `~` pushes it back |
| XirSimulate.UnifyArgs | xir/src/validate.rs:457-467 | succeeds iff each argument paired with a parameter is an rvalue whose type unifies with the parameter |
| XirSimulate.CallEffect | xir/src/validate.rs:432-477 | a non-variadic call pops its parameters and an rvalue callee whose type resolves to a pointer to a function type, and pushes the call site's return type; the callee is not a variadic function with more fixed parameters than the call site, its parameters unify pairwise with the call site's (`UnifyAll`), its return type with the call site's, and each argument is an rvalue whose type unifies with its parameter |
| XirSimulate.BranchEffect | xir/src/validate.rs:478-502 | the label exists; unconditional branches leave the stack; conditional ones pop an integer control |
| XirSimulate.BranchIndirectEffect | xir/src/validate.rs:503-521 | pops an rvalue that unifies with `*void` |
| XirSimulate.SwitchEffect | xir/src/validate.rs:786-842 | pops an integer rvalue; only hash switches are supported; every case label exists; every case value is an integer constant whose type unifies with the controlling value's (`CaseValuesUnify`); the first case's label stack unifies with the remaining stack (`CheckUnifyStack`) and every later case's label stack matches the first in length, kinds and types (`CaseStacksMatch`) |
| XirSimulate.SwitchCases | xir/src/validate.rs:805-838 | every case from `i` on names a declared label and has an integer value unifying with the control type (`CaseValuesUnify`); once a first label stack is known, every case's label stack matches it (`CaseStacksMatch`); otherwise the first case's stack unifies with the stack (`CheckUnifyStack`) and the later ones match it |
| XirSimulate.LocalEffect | xir/src/validate.rs:540-543 | `Local(n)` pushes an lvalue of the `n`-th local's type iff `n` is in range |
| XirSimulate.PopEffect | xir/src/validate.rs:540-543 | `Pop(n)` succeeds iff `n` items exist and removes exactly the top `n` |
| XirSimulate.DupEffect | xir/src/validate.rs:544-549 | `Dup(n)` succeeds iff `n` items exist and appends a copy of the top `n` |
| XirSimulate.PivotEffect | xir/src/validate.rs:550-557 | `Pivot(n, m)` succeeds iff `n + m` items exist and swaps the two top groups |
| XirSimulate.AggregateFields | xir/src/validate.rs:558-571 | every value is an rvalue, its field exists in the constructed type, and the field's type unifies with the value's |
| XirSimulate.AggregateEffect | xir/src/validate.rs:558-571 | one rvalue per field is replaced by one rvalue of the constructed type; each popped value's field exists and its type unifies with the value's |
| XirSimulate.MemberEffect | xir/src/validate.rs:572-583 | an aggregate lvalue becomes an lvalue of the named field's type |
| XirSimulate.MemberIndirectEffect | xir/src/validate.rs:584-602 | a pointer rvalue becomes a pointer to the named field |
| XirSimulate.AssignEffect | xir/src/validate.rs:609-617 | pops an rvalue and an lvalue whose types unify |
| XirSimulate.AsRValueEffect | xir/src/validate.rs:618-626 | succeeds iff the top is an lvalue, and turns it into an rvalue of the same type |
| XirSimulate.CompoundAssignEffect | xir/src/validate.rs:627-656 | pops an rvalue and a scalar lvalue whose types unify (`CheckUnify` of the lvalue's type with the rvalue's); pushes only a `u1` flag when checked |
| XirSimulate.LValueOpEffect | xir/src/validate.rs:657-755 | the stack effect of each of `xchg` (two lvalues whose types unify), `cmpxchg`/`wcmpxchg` (the destination's type unifies with the control's and the swap's), pre- and post-increment and decrement (a scalar lvalue) |
| XirSimulate.CompareExchange | xir/src/validate.rs:668-694 | pops a destination lvalue, a swap lvalue and a control rvalue and pushes a `u1`; the destination's type unifies with the control's and with the swap's |
| XirSimulate.PreStep | xir/src/validate.rs:695-722 | a scalar lvalue stays, followed by the flag when checked |
| XirSimulate.PostStep | xir/src/validate.rs:723-754 | a scalar lvalue stays when unchecked; when checked it is replaced by its rvalue and a flag |
| XirSimulate.IndirectEffect | xir/src/validate.rs:756-770 | succeeds iff the top is a pointer rvalue, and yields an lvalue of the pointee |
| XirSimulate.AddrOfEffect | xir/src/validate.rs:771-785 | succeeds iff the top is an lvalue, and yields a pointer to it that is still an lvalue |
| XirSimulate.DeriveTail | xir/src/validate.rs:522-539 | `Derive` pops the pointer rvalue, checks its pointee, and pushes nothing |
| XirSimulate.LeafStep | xir/src/validate.rs:229-843 | a step keeps every recorded exit, touches the exits only for `ExitBlock`, and rewrites only constants |
| XirSimulate.Step | xir/src/validate.rs:229-843 | a step never replaces or removes a recorded exit slot |
| XirSimulate.StackEffect | xir/src/validate.rs:305-842 | no contract of its own: the dispatch to the per-opcode effect functions listed above, `Null`, `Sequence` and `Fence` leaving the stack alone (validate.rs:783-785), and `Tailcall` and `Convert` unsupported (validate.rs:431, 521) |
| XirSimulate.CollectTargets | xir/src/validate.rs:855-863 | collecting labels fails only with a duplicate label |
| XirSimulate.Replay | xir/src/validate.rs:865-880 | replaying `k` items rewrites exactly `k` items and keeps the recorded exits |
| XirSimulate.RunBlock | xir/src/validate.rs:844-883 | a block keeps its enclosing blocks' recorded exits |
| XirBlockFacts.PivotPermutes | xir/src/validate.rs:550-557 | a pivot keeps the stack's height and multiset of items |
| XirBlockFacts.PivotInverse | xir/src/validate.rs:550-557 | `Pivot(m, n)` undoes `Pivot(n, m)` |
| XirBlockFacts.DupThenPop | xir/src/validate.rs:540-549 | `Pop(n)` undoes `Dup(n)` |
| XirBlockFacts.AddrOfKeepsLValue | xir/src/validate.rs:756-785 | the address of an lvalue is an lvalue, so `Indirect` rejects it until `AsRValue` |
| XirBlockFacts.AssignNeedsLValue | xir/src/validate.rs:609-617 | assigning to an rvalue is rejected |
| XirBlockFacts.CollectTargetsSpec | xir/src/validate.rs:855-863 | labels are collected iff their numbers are distinct, and then each maps to its declared stack |
| XirBlockFacts.NoLabelsCollected | xir/src/validate.rs:855-863 | a block without labels collects none |
| XirBlockFacts.ReplayAtLabel | xir/src/validate.rs:871-879 | reaching a label after a non-diverging step checks the stack against it |
| XirBlockFacts.IntegerConstStep | xir/src/validate.rs:241-244 | an integer constant pushes one rvalue of its scalar type |
| XirBlockFacts.ArithmeticStep | xir/src/validate.rs:305-371 | unchecked arithmetic on two scalars of one type leaves one of that type |
| XirBlockFacts.FirstExitStep | xir/src/validate.rs:293-304 | the first exit to a block records the top items as the block's result |
| XirBlockFacts.LaterExitArityStep | xir/src/validate.rs:293-304 | a later exit with a different count is rejected |
| XirBlockFacts.LocalStep | xir/src/validate.rs:540-543 | a local pushes an lvalue of its type |
| XirBlockFacts.AsRValueStep | xir/src/validate.rs:618-626 | reading an lvalue pushes an rvalue of its type |
| XirBlockFacts.DeriveTailDrops | xir/src/validate.rs:522-539 | `Derive` on a matching pointer drops it from the stack |
| XirBlockFacts.RunBlockFrom | xir/src/validate.rs:844-883 | a block pushes one exit slot, runs its items and returns that slot's stack, or empty when it was never exited |
| XirBlockFacts.RunBlockFails | xir/src/validate.rs:844-883 | a failing replay fails the block with the same error |
| XirBlockFacts.ArithmeticBlock | xir/src/validate.rs:844-883 | `{ c1; c2; op; exit 0, 1 }` yields one value of the constants' type |
| XirBlockFacts.ArithmeticFunction | xir/src/validate.rs:57-77 | `fn() -> int { 1 op 2 }` checks, and the same body in a `void` function is rejected |
| XirBlockFacts.LabelChecksOnlyTop | xir/src/validate.rs:209-212 | two values falling into a one-item label are accepted, because only the top is checked |
| XirBlockFacts.DuplicateLabelRejected | xir/src/validate.rs:855-863 | two labels with one number reject the block |
| XirBlockFacts.LaterExitMustMatchFirst | xir/src/validate.rs:293-304 | exiting first with one value and then with two is rejected |
| XirBlockFacts.DeriveDropsPointer | xir/src/validate.rs:522-539 | deriving a pointer and exiting with it is rejected: nothing is left to exit with |
| XirBlockFacts.CallRule | xir/src/validate.rs:432-477 | a call through a unifying function pointer with unifying arguments leaves the call site's return type |
| XirBlockFacts.CallArityNotChecked | xir/src/validate.rs:447 | a two-parameter function called through a one-parameter signature is accepted |
| XirBlockFacts.TwoParamsUnifyWithOne | xir/src/validate.rs:451-454 | `zip` stops at the shorter list |
| XirBlockFacts.OneArgUnifies | xir/src/validate.rs:457-467 | an rvalue argument of a self-unifiable type matches its parameter |
| XirBlockFacts.LabelAddressNeedsEmptyLabel | xir/src/validate.rs:282-290 | a label address needs a declared label whose stack is empty, and pushes `*void` |
| XirBlockFacts.GlobalAddressFilled | xir/src/validate.rs:250-281 | a `Null`-typed global address takes the global's type and pushes a pointer to it |
| XirBlockFacts.DeclarationsOnlyFileChecks | xir/src/validate.rs:885-925 | a file without statics or bodies checks and is unchanged, even with unresolvable types |
| XirBlockFacts.StaticMemberUnsupported | xir/src/validate.rs:921 | a static root member makes the file unsupported |
| XirValidate.GatherTypes | xir/src/validate.rs:891-912 | pass one records a global type exactly for functions and statics, and an aggregate entry exactly for aggregate and opaque members |
| XirValidate.GatherOver | xir/src/validate.rs:891-912 | no contract of its own; `GatherTypes` states the tables for all members, and `GatherOverStep` what one more member adds |
| XirValidate.CheckFunction | xir/src/validate.rs:57-77 | a body is checked with parameters then locals as locals; `void` needs an empty result, otherwise exactly one item unifying with the return type |
| XirValidate.CheckMember | xir/src/validate.rs:914-924 | statics are unsupported; other non-functions pass unchanged; annotations and visibility are kept |
| XirValidate.ExitBlock | xir/src/validate.rs:293-304 | the exit method computes `ExitBlockEffect` |
| XirValidate.ZipUnify | xir/src/validate.rs:152-156 | the zip loop computes `UnifyAll` |
| XirValidate.CallFunction | xir/src/validate.rs:432-477 | the call method computes `CallEffect` |
| XirValidate.Aggregate | xir/src/validate.rs:558-571 | the aggregate method computes `AggregateEffect` |
| XirValidate.Switch | xir/src/validate.rs:786-842 | the switch loop computes `SwitchEffect` |
| XirValidate.TycheckExpr | xir/src/validate.rs:229-843 | `tycheck_expr` computes `Step` and never reports divergence |
| XirValidate.TycheckNested | xir/src/validate.rs:603-608 | a nested block is checked as `Step` says |
| XirValidate.TycheckDerive | xir/src/validate.rs:522-539 | `Derive` is checked as `Step` says |
| XirValidate.TycheckLeaf | xir/src/validate.rs:229-843 | the other opcodes are checked as `LeafStep` says; only the `ExitBlock`, `CallFunction`, `Aggregate` and `Switch` arms run methods with loops of their own, which are proved equal to their effect functions, and the rest take `LeafStep` as it stands |
| XirValidate.CollectLabels | xir/src/validate.rs:855-863 | the label loop computes `CollectTargets` |
| XirValidate.CheckItems | xir/src/validate.rs:865-880 | the item loop computes `Replay` of all items |
| XirValidate.CheckItem | xir/src/validate.rs:866-879 | one iteration extends the replay by one item |
| XirValidate.TycheckBlock | xir/src/validate.rs:844-883 | `tycheck_block` computes `RunBlock` |
| XirValidate.CollectFailurePersists | xir/src/validate.rs:855-863 | once label collection fails, it stays failed |
| XirValidate.ReplayFailurePersists | xir/src/validate.rs:865-880 | once a replay fails, longer replays fail with the same error |
| XirValidate.TycheckFunction | xir/src/validate.rs:57-77 | `tycheck_function` computes `CheckFunction` |
| XirValidate.GatherOverStep | xir/src/validate.rs:891-912 | recording one member extends the tables by that member's entry only |
| XirValidate.GatherGlobals | xir/src/validate.rs:891-912 | the pass-one loop computes `GatherTypes`, in any visiting order |
| XirValidate.TycheckMember | xir/src/validate.rs:914-924 | one pass-two iteration computes `CheckMember` |
| XirValidate.Tycheck | xir/src/validate.rs:885-925 | `tycheck` succeeds iff every root member checks, returns the checked file, and otherwise reports the error of some failing member |
| RustSema.Type.Name | rust/src/sema.rs:52-78 | only booleans, chars, floats and integers have a name; every other type is `todo!()` |
| RustSema.FindNamed | rust/src/sema.rs:183-188 | a found type is among the candidates and has the looked-up name |
| RustSema.ConvertArgs | rust/src/sema.rs:207-216 | converted arguments keep their count |
| RustSema.ConvertItems | rust/src/sema.rs:229-245 | a converted block has one statement per item |
| RustSema.ConvertBlock | rust/src/sema.rs:229-245 | the `convert_block` loop computes `ConvertItems` |
| RustSema.ConvertItemsFailurePersists | rust/src/sema.rs:229-245 | once conversion fails, it stays failed with the same error |
| RustSema.ConvertParams | rust/src/sema.rs:315-318 | converted parameter types keep their count |
| RustSema.DeclareAll | rust/src/sema.rs:290-335 | one declaration per visited function |
| RustSema.DefineAll | rust/src/sema.rs:336-364 | at most one definition per visited function |
| RustSema.DefineFunction | rust/src/sema.rs:338-363 | the definition closure computes `Define` |
| RustSema.DeclarePass | rust/src/sema.rs:290-335 | pass two computes `DeclareAll` |
| RustSema.DefinePass | rust/src/sema.rs:336-364 | pass three computes `DefineAll` |
| RustSema.Convert | rust/src/sema.rs:265-370 | `convert` computes `ConvertProgram` |
| RustSema.DeclareAllFailurePersists | rust/src/sema.rs:290-335 | once declaring fails, it stays failed |
| RustSema.DefineAllFailurePersists | rust/src/sema.rs:336-364 | once defining fails, it stays failed |
| RustSema.ConvertTy | rust/src/sema.rs:180-198 | no contract of its own; `RustSemaFacts.ConvertTyRoundTrip` characterises it both ways, with `ConvertTySound`, `ConvertTyComplete` and `StrUnresolvable` |
| RustSema.ConvertExpr | rust/src/sema.rs:201-227 | no contract of its own; `RustSemaFacts.ParenthesesErased` and `ConvertArgsInOrder` state it |
| RustSema.IterInScope | rust/src/sema.rs:247-260 | no contract of its own; `RustSemaFacts.WalkCompleteIff`, `WalkVisits` and `WalkStopPersists` state the walk |
| RustSema.Declare | rust/src/sema.rs:292-331 | no contract of its own; `RustSemaFacts.DeclareRules` states the declaration built, and `DeclareSucceeds` when one is built |
| RustSema.Define | rust/src/sema.rs:338-363 | no contract of its own; `DefineFunction` computes it, and `RustSemaFacts.DefineAllInOrder` and `UnsafeFnBodyChecksUnsafe` state it |
| RustSema.ConvertProgram | rust/src/sema.rs:265-370 | no contract of its own; `Convert` computes it, and `RustSemaFacts.ConvertDeclarations`, `ConvertDefinitions` and `NestedExternRejected` state its result |
| RustSema.TypeckExpr | rust/src/sema.rs:373-411 | no contract of its own; `RustSemaFacts.CallRule`, `IdentifierRule`, `ExpectedTypeExpr` and `SafeExprUnsafe` state it |
| RustSema.TypeckStatement | rust/src/sema.rs:413-428 | no contract of its own; `RustSemaFacts.ExpectedTypeStatement` and `SafeStatementUnsafe` state it |
| RustSema.TypeckBlock | rust/src/sema.rs:430-445 | no contract of its own; `RustSemaFacts.BlockRule`, `ExpectedTypeBlock` and `SafeBlockUnsafe` state it |
| RustSema.TypeckProgram | rust/src/sema.rs:452-456 | no contract of its own; `RustSemaFacts.TypeckProgramRule` states it |
| RustSemaFacts.PrimitiveIndex | rust/src/sema.rs:269-289 | every nameable type sits in the named-type list, before `str` |
| RustSemaFacts.PrimitiveIndexOfNamed | rust/src/sema.rs:269-289 | every listed type but `str` is nameable, and sits at its own index |
| RustSemaFacts.NamesDistinct | rust/src/sema.rs:52-78 | distinct nameable types have distinct names |
| RustSemaFacts.FindNamedFirst | rust/src/sema.rs:183-188 | the lookup returns the first candidate with the name |
| RustSemaFacts.PrimitiveNamed | rust/src/sema.rs:183-188 | a nameable type is found by its own name |
| RustSemaFacts.ConvertTySound | rust/src/sema.rs:180-198 | a converted type is nameable at every level and unconverts to the source type |
| RustSemaFacts.ConvertTyComplete | rust/src/sema.rs:180-198 | every nameable type is the conversion of its unconversion |
| RustSemaFacts.ConvertTyRoundTrip | rust/src/sema.rs:180-198 | `convert_ty(p) == t` iff `t` is nameable and `p` is its unconversion |
| RustSemaFacts.FindNamedNeverUnknown | rust/src/sema.rs:183-188 | a failed lookup is always the `todo!()` of `str`'s name, never "Unknown type" |
| RustSemaFacts.ConvertTyNeverUnknown | rust/src/sema.rs:180-198 | the same for whole types |
| RustSemaFacts.NoPrimitiveNamedStr | rust/src/sema.rs:52-78 | no type is named `"str"` |
| RustSemaFacts.StrUnresolvable | rust/src/sema.rs:180-198 | the type `str` cannot be converted |
| RustSemaFacts.ParenthesesErased | rust/src/sema.rs:218 | any nesting of parentheses converts like the bare expression |
| RustSemaFacts.ConvertArgsInOrder | rust/src/sema.rs:207-216 | arguments convert iff each one does, and then position by position |
| RustSemaFacts.ConvertItemsInOrder | rust/src/sema.rs:229-245 | a block converts iff each item does, and then item by item |
| RustSemaFacts.WalkCompleteIff | rust/src/sema.rs:247-260 | the walk completes iff no `extern` block is nested in another |
| RustSemaFacts.WalkVisits | rust/src/sema.rs:247-260 | the walk visits exactly the top-level functions with no ABI, and the functions of `extern` blocks with that block's ABI, `"C"` by default |
| RustSemaFacts.WalkStopPersists | rust/src/sema.rs:247-260 | once the walk stops, later items change nothing |
| RustSemaFacts.NestedExternRejected | rust/src/sema.rs:253 | a nested `extern` block fails the conversion |
| RustSemaFacts.DeclareRules | rust/src/sema.rs:290-335 | a declaration takes the name, and a signature whose parameter types are the conversions of the written ones, in order, and whose return type is the conversion of the written one or `()` when none is written; an ABI makes it unsafe with `Rust` mangling, and no ABI gives `Rust` ABI with `C` mangling |
| RustSemaFacts.ConvertParamsInOrder | rust/src/sema.rs:315-318 | parameter types convert iff each one does, and then position by position |
| RustSemaFacts.DeclareSucceeds | rust/src/sema.rs:305-322 | a visit is declared iff its ABI is absent, `"C"` or `"Rust"`, every parameter type converts and a written return type converts |
| RustSemaFacts.DeclareAllInOrder | rust/src/sema.rs:290-335 | declaring succeeds iff each visit declares, and then visit by visit |
| RustSemaFacts.ConvertDeclarations | rust/src/sema.rs:265-335 | a converted program lists the fixed named types and one declaration per visited function |
| RustSemaFacts.ExternDefaultsToC | rust/src/sema.rs:255 | `extern { fn f(); }` declares `f` with the `C` ABI, unsafe |
| RustSemaFacts.Bodies | rust/src/sema.rs:338-347 | the visited functions that have bodies |
| RustSemaFacts.DefineAllInOrder | rust/src/sema.rs:336-364 | one definition per function with a body, in order |
| RustSemaFacts.ConvertDefinitions | rust/src/sema.rs:336-370 | a converted program defines exactly the visited functions with bodies |
| RustSemaFacts.UnsafeFnBodyChecksUnsafe | rust/src/sema.rs:353-355 | an `unsafe fn` body is wrapped in an unsafe block, so it type-checks as unsafe code |
| RustSemaFacts.SafeFnBodyChecksSafe | rust/src/sema.rs:447-450 | a safe function body is checked as safe code against its return type |
| RustSemaFacts.ExpectedTypeExpr | rust/src/sema.rs:373-411 | checking against an expected type is checking without one, then comparing |
| RustSemaFacts.ExpectedTypeStatement | rust/src/sema.rs:413-428 | the same for statements |
| RustSemaFacts.ExpectedTypeBlock | rust/src/sema.rs:430-445 | the same for blocks |
| RustSemaFacts.SafeExprUnsafe | rust/src/sema.rs:373-411 | whatever checks as safe code checks the same as unsafe code |
| RustSemaFacts.SafeArgsUnsafe | rust/src/sema.rs:383-385 | the same for call arguments |
| RustSemaFacts.SafeStatementUnsafe | rust/src/sema.rs:413-428 | the same for statements |
| RustSemaFacts.SafeBulkUnsafe | rust/src/sema.rs:435-439 | the same for the leading statements of a block |
| RustSemaFacts.SafeBlockUnsafe | rust/src/sema.rs:430-445 | the same for blocks |
| RustSemaFacts.IdentifierRule | rust/src/sema.rs:395-401 | an identifier has the type of its first declaration, and is rejected exactly when none exists |
| RustSemaFacts.TypeckArgsAll | rust/src/sema.rs:383-385 | arguments check iff each one checks against its parameter |
| RustSemaFacts.CallRule | rust/src/sema.rs:375-393 | a call has type `t` iff the callee is a function (not unsafe in safe code), the counts agree, the arguments check, and the return type is `t` and matches the expected type |
| RustSemaFacts.UnsafeCallNeedsUnsafeBlock | rust/src/sema.rs:378-380 | calling an unsafe function is rejected in safe code and accepted in an unsafe block |
| RustSemaFacts.IdentifierArgumentUnchecked | rust/src/sema.rs:395-401 | an identifier argument is accepted whatever its type |
| RustSemaFacts.TypeckBulkAll | rust/src/sema.rs:435-439 | the leading statements check iff each has type `()` |
| RustSemaFacts.BlockRule | rust/src/sema.rs:430-445 | an empty block has type `()`; otherwise the leading statements are `()` and the last gives the type |
| RustSemaFacts.TypeckDefinitionsAll | rust/src/sema.rs:452-456 | the definitions check iff each one does |
| RustSemaFacts.TypeckProgramRule | rust/src/sema.rs:452-456 | a program checks iff every definition's body checks against its return type |
| CParse.IdentifierAt | c/src/parse.rs:95-103 | an identifier is read iff the next token is one, and then it consumes exactly that token; anything else is `Rejected` |
| CParse.TypeLoop | c/src/parse.rs:105-139 | the type specifier loop stays within the tokens; `CParseFacts.TypeLoopSpelling` states what it accepts and returns, and `CParseRender.TypeRoundTrip` that a rendered type parses back |
| CParse.TypeAt | c/src/parse.rs:105-139 | a parsed type ends within the tokens; `CParseFacts.TypeAtSpelling` gives the spelling it accepts |
| CParse.PrimaryAt | c/src/parse.rs:141-158 | a primary expression is read iff the next token is an identifier or a string literal, as an untyped identifier or string of that token's text, consuming exactly that token; anything else, the end included, is `Rejected` |
| CParse.ExpressionAt | c/src/parse.rs:160-203 | an expression consumes at least one token |
| CParse.PostfixLoop | c/src/parse.rs:162-201 | the postfix loop stays within the tokens; `CParseFacts.ExpressionStops`, `CallsChain` and `OtherPunctuatorDiverges` give where it stops, how calls chain and where it spins |
| CParse.ArgsLoop | c/src/parse.rs:171-195 | the arguments read so far are a prefix of the result; `CParseFacts.NoTrailingComma` states that a closed list has no comma before `)`, and `CParseRender.ArgsRoundTrip` that rendered arguments parse back |
| CParse.StatementAt | c/src/parse.rs:205-211 | a statement ends with `;` |
| CParse.BlockLoop | c/src/parse.rs:213-225 | a block ends with `}` and extends the statements read so far |
| CParse.CodeBlockAt | c/src/parse.rs:213-225 | a code block ends with `}` |
| CParse.PointerLoop | c/src/parse.rs:245-263 | the pointer loop stays within the tokens; `CParseFacts.PointerLoopStars` states that it reads exactly the leading `*`s or diverges, and `CParseRender.PointerRoundTrip` that `n` stars parse to `n` levels |
| CParse.ParamNameAt | c/src/parse.rs:264-269 | a parameter name takes one token or none |
| CParse.ParamsLoop | c/src/parse.rs:238-271 | the parameters read so far are a prefix of the result; `CParseRender.ParamsRoundTrip` states that zero or one rendered parameter parses back, and `CParseFacts.CommaSeparatedParametersDiverge` that two do not |
| CParse.FunctionTailAt | c/src/parse.rs:279-289 | a function declaration is a prototype iff it ends with `;`; otherwise its body ends with `}` |
| CParse.DeclarationAt | c/src/parse.rs:227-302 | a declaration ends with `;` or `}`; an initializer is a function body of a non-constant function type |
| CParse.DeclarationsLoop | c/src/parse.rs:304-311 | parsing reads all tokens, at most one declaration per token |
| CParse.ParseTokens | c/src/parse.rs:304-311 | a parsed program consumed every token |
| CParse.Parser.constructor | c/src/parse.rs:304-306 | the iterator starts at the first token |
| CParse.Parser.Peek | c/src/parse.rs:105-302 | `peek()` is the next token, or none at the end |
| CParse.Parser.Next | c/src/parse.rs:95-302 | `next()` returns the peeked token and advances past it |
| CParse.Parser.ParseIdentifier | c/src/parse.rs:95-103 | `parse_identifier` computes `IdentifierAt` and leaves the iterator after it |
| CParse.Parser.ParseType | c/src/parse.rs:105-139 | `parse_type` computes `TypeAt` |
| CParse.Parser.ParsePrimaryExpression | c/src/parse.rs:141-158 | `parse_primary_expression` computes `PrimaryAt` |
| CParse.Parser.ParseExpression | c/src/parse.rs:160-203 | `parse_expression` computes `ExpressionAt` |
| CParse.Parser.ParseArguments | c/src/parse.rs:171-195 | the argument loop computes `ArgsLoop` |
| CParse.Parser.ParseStatement | c/src/parse.rs:205-211 | `parse_statement` computes `StatementAt` |
| CParse.Parser.ParseCodeBlock | c/src/parse.rs:213-225 | `parse_code_block` computes `CodeBlockAt` |
| CParse.Parser.ParsePointers | c/src/parse.rs:245-263 | the pointer loop computes `PointerLoop` |
| CParse.Parser.ParseParameters | c/src/parse.rs:238-271 | the parameter loop computes `ParamsLoop` |
| CParse.Parser.ParseDeclaration | c/src/parse.rs:227-302 | `parse_declaration` computes `DeclarationAt` |
| CParse.Parser.ParseFunctionTail | c/src/parse.rs:272-289 | the function tail computes `FunctionTailAt` |
| CParse.Parse | c/src/parse.rs:304-311 | `parse` computes `ParseTokens` |
| CParseFacts.TypeLoopSpelling | c/src/parse.rs:105-139 | the specifier loop succeeds iff the tokens up to a stop are `const`s and at most one base keyword, and gives that base (`int` by default) and constness |
| CParseFacts.TypeAtSpelling | c/src/parse.rs:105-139 | the same from the start of a type |
| CParseFacts.SecondBaseRejected | c/src/parse.rs:111-120 | two base keywords are rejected |
| CParseFacts.ExpressionUntyped | c/src/parse.rs:141-203 | a parsed expression carries no type at any level |
| CParseFacts.ExpressionStops | c/src/parse.rs:160-203 | an expression stops at the end, or before `;`, `,` or `)` |
| CParseFacts.NoTrailingComma | c/src/parse.rs:171-195 | a closed argument list contains no comma right before `)` |
| CParseFacts.TrailingCommaRejected | c/src/parse.rs:183-186 | `f(a,)` is rejected |
| CParseFacts.MissingCommaRejected | c/src/parse.rs:188-190 | `f(a b)` is rejected |
| CParseFacts.UnclosedCallAccepted | c/src/parse.rs:171-195 | `f(a,` at the end of input is a call of `f` on `a` |
| CParseFacts.CallsChain | c/src/parse.rs:162-201 | `f()()` is a call of a call |
| CParseFacts.OtherPunctuatorDiverges | c/src/parse.rs:196-200 | `a + b` makes the postfix loop spin |
| CParseFacts.PointerLoopStars | c/src/parse.rs:245-263 | the pointer loop reads exactly the leading `*`s, one unqualified level each, or diverges |
| CParseFacts.PointerQualifierDiverges | c/src/parse.rs:255-261 | a keyword after `*` makes the qualifier loop spin |
| CParseFacts.ParsedPointersPlain | c/src/parse.rs:245-263 | a parsed pointer is never `const` or `restrict` |
| CParseFacts.PunctuatorParameterDiverges | c/src/parse.rs:238-271 | a parameter starting with a punctuator other than `)` spins the loop |
| CParseFacts.CommaSeparatedParametersDiverge | c/src/parse.rs:238-271 | `int f(int a, int b);` spins the parameter loop |
| CParseRender.RenderExpression | c/src/parse.rs:141-203 | a rendered expression starts with a primary token |
| CParseRender.ExpressionRoundTrip | c/src/parse.rs:141-203 | an untyped expression renders to tokens parsed back to it, up to a stop token |
| CParseRender.ArgsRoundTrip | c/src/parse.rs:171-195 | comma-joined arguments followed by `)` parse back to the arguments |
| CParseRender.StatementRoundTrip | c/src/parse.rs:205-211 | a rendered statement parses back |
| CParseRender.BlockRoundTrip | c/src/parse.rs:213-225 | rendered statements and `}` parse back |
| CParseRender.TypeRoundTrip | c/src/parse.rs:105-139 | a rendered type parses back before a stop token |
| CParseRender.PointerRoundTrip | c/src/parse.rs:245-263 | `n` stars parse to `n` plain pointer levels |
| CParseRender.PlainIsWrap | c/src/parse.rs:245-263 | every plain pointer is some number of levels |
| CParseRender.ParamsRoundTrip | c/src/parse.rs:238-271 | zero or one rendered parameter and `)` parse back |
| CParseRender.TailRoundTrip | c/src/parse.rs:279-289 | a rendered `;` or body parses back as the declaration's tail |
| CParseRender.VariableRoundTrip | c/src/parse.rs:227-233 | a rendered variable declaration parses back |
| CParseRender.FunctionRoundTrip | c/src/parse.rs:227-302 | a rendered function declaration parses back |
| CParseRender.DeclarationRoundTrip | c/src/parse.rs:227-302 | every printable declaration renders to tokens parsed back to it |
| CParseRender.DeclarationsRoundTrip | c/src/parse.rs:304-311 | printable declarations render to a program parsed back to them |
| CParseRender.ParseRoundTrip | c/src/parse.rs:304-311 | `parse(render(decls)) == decls` for printable declarations, consuming every token |

## Left out

- Allocation and raw memory:
  - the `Allocator` parameter;
  - `from_raw_parts(_in)`, `into_raw_parts(_with_alloc)`, `leak`, `leak_span`, `set_len`, `as_ptr` and `as_mut_ptr`;
  - `Drop` of `Vec` and `IntoIter`; `Deref`/`DerefMut`; `Hash`; `Debug`; the `From` conversions; `FromIterator`; the `vec!` macro; `is_copy`.
  
  They are pointer and allocator plumbing. `Default`/`new` is `NewIn`.
- AbiVec.NextPow2: integers are unbounded. The `usize` overflow that makes `checked_next_power_of_two().unwrap()` panic is not modelled, so no vector operation fails for want of address space.
- AbiVec.Vec.SplitOff, AbiVec.Vec.SplitOffBack, AbiVec.Vec.Shrink: the source's `assert!(n <= self.len)` (xlang/xlang_abi/src/vec.rs:338, 365, 388) panics on a larger `n`. The model makes this a precondition (abi_vec.dfy:246, 269, 290), so the panicking call has no counterpart.
- AbiVec.Vec.Reallocate: zero-sized element types are not modelled. For those, `reallocate` returns early without updating `cap` (xlang/xlang_abi/src/vec.rs:169-172). So `Valid`'s `len <= cap` and the capacity ensures of `Push`, `Reserve` and `WithCapacityIn` describe only element types of non-zero size. The overflow panic of `checked_mul(size_of::<T>()).unwrap()` is not modelled either.
- AbiVec.Vec.Extend: the source iterator is a sequence of items plus its lower size hint. Lazy or infinite iterators are not modelled.
- `Write::flush` for `Vec<u8>` does nothing and is not modelled.
- Payloads the validator does not read are minimal: an integer constant's value is a `u32`, and access classes are bare bits. `Ir` carries the superset of variants the validator matches on, beyond those declared in `xlang/xlang_struct/src/lib.rs`. For example, `lib.rs` declares only `Scalar`, `Void`, `FnType` and `Pointer` as types.
- XirTypes.CheckUnify: `check_unify` recurses without bound through `Named` types that map to types containing themselves. The model gives it fuel, spent per resolution, and reports `DepthExceeded` when the fuel runs out; the source overflows its stack there.
- XirTypes.GetFieldType: infinite recursion through a name mapped to itself is reported as `Cyclic`, found by a visited set. The source overflows its stack.
- A `panic!`, `assert!` or `unwrap` of the validator, the Rust pass or the C parser is a failure value. Panic messages are not modelled.
- `tycheck` mutates the IR in place: it fills in the types of `GlobalAddress` constants. The model returns the rewritten file instead.
- The validator visits root members in hash-map order. The model visits them in an arbitrary order, and `XirValidate.Tycheck` reports the error of some failing member, not a particular one.
- Pass one of `tycheck` does not check that `Named` types resolve. The model follows the code (see `XirBlockFacts.DeclarationsOnlyFileChecks`).
- A label is checked against the top `|label|` items of the stack only, so a taller stack is accepted (see `XirBlockFacts.LabelChecksOnlyTop`).
- The `todo!()` arm of `tycheck_expr` for lvalue operations other than the seven that `Ir.LValueOp` lists (`xir/src/validate.rs:754`) has no counterpart.
- The fixed-arity check of `CallFunction` (`xir/src/validate.rs:447`) compares the call-site signature with itself, so it never fails. The model keeps this, since the intended check cannot be recovered from the code.
- `Derive` pops the pointer it refines and pushes nothing back. The model keeps this: the code is ambiguous about the intent.
- XirSimulate.UnifyArgs: arguments and parameters are zipped, so extra items on either side are not compared, as in the source.
- The parser and lexer of the Rust front end are not part of this model. Their trees are input datatypes.
- Several arms of `sema.rs` are `todo!()` in the source and `Unsupported` in the model: `Statement::Bind`, items inside blocks, functions with parameters, ABIs other than `"C"` and `"Rust"`, and the expression forms the type checker does not handle.
- The warning `typeck_expr` prints for an unsafe block inside unsafe code is not modelled.
- `return_ty` of the Rust type checker is passed around but never read, so the model has no such parameter.
- The C lexer is not part of this model. Its tokens are an input datatype with a string literal's kind as a number. The parser drops the kind, so the renderer uses kind 0.
- `dbg!` output of the C parser is not modelled.
- `Initializer::Expression` is never produced by the C parser: `=` is `todo!()`. It is a datatype variant only.
- CParseRender.ParseRoundTrip: the round trip covers the declarations the parser can produce except functions with more than one parameter, which the parser cannot read back (see `CParseFacts.CommaSeparatedParametersDiverge`).

## Findings

| source | as written | input that shows it | evidently intended | confidence | as-written member | corrected member |
|---|---|---|---|---|---|---|
| xlang/xlang_abi/src/vec.rs:532-543 | `write` copies the bytes past the end but never advances `len`, yet reports them all written | write `[0x61, 0x62]` into an empty vector: it stays empty | the bytes become the vector's new tail | high on the text, not executed | AbiVec.WriteAsWritten (exhibited by AbiVec.WriteLosesBytes) | AbiVec.Write |
