# Dead-store elimination in the Yul optimiser

This project models two optimiser steps of the Yul compiler, both of which delete
statements whose effect can never be observed:

- **UnusedStoreEliminator** removes `sstore`, `mstore`, `mstore8`, `codecopy`,
  `extcodecopy`, `calldatacopy` and (in one safe shape) `returndatacopy`
  statements. A removed store is overwritten, or can no longer be observed (the
  call after it reverts, or it ends execution and memory is discarded, or memory
  is discarded at the end), before any possible read. The
  pass keeps one set of *active stores* for memory and one for storage. Active
  stores are recorded stores that nothing has read or overwritten yet. A read that
  is not known to be unrelated to an active store marks that store used. A write
  known to cover an active store retires it without marking it used. At the end,
  every recorded store that was never used is removed.
- **UnusedAssignEliminator** removes assignments to variables when the value is
  overwritten or goes out of scope before it is read. For every variable it
  tracks the assignments whose value may still be read. A reference to the
  variable uses them. A new assignment or the end of the declaring block drops
  them unused.

Statements are identified by natural numbers, which stand for the addresses of
the statement nodes.

Files:

| File | Module | Contents |
|---|---|---|
| `yul.dfy` | `Yul` | The syntax fragment both passes look at. |
| `evm.dfy` | `Evm` | The instruction facts and the dialect the store pass consults. |
| `store_alias.dfy` | `StoreAlias` | The alias decisions `KnownUnrelated` and `KnownCovered` over an oracle knowledge base. Their soundness is proved against the run-time address ranges. |
| `store_operations.dfy` | `StoreOperations` | How a call becomes read and write operations, and which statements are store candidates. |
| `active_stores.dfy` | `ActiveStores` | The store pass's bookkeeping as values, with the update each hook performs. |
| `unused_store_eliminator.dfy` | `StoreEliminator` | The store pass as a class whose methods are the hooks. The operation, flush and finalisation methods are proved to perform the update of `ActiveStores`. `Visit` and the function-definition hooks state their new state directly. |
| `unused_assign_eliminator.dfy` | `AssignEliminator` | The assignment pass as a class over `map<Name, set<StmtId>>`, with the functions that specify it. |
| `scenarios.dfy` | `Scenarios` | Small programs driven through the hooks, with the set of statements each pass removes. |

Words are 256-bit values (`U256`). Addition wraps at 2^256, so the source's
no-overflow guards (`a + b >= a`) are modelled as written and proved to rule out
wrap-around. The knowledge base is an oracle of five queries. `StoreAlias.Sound`
says what its answers promise about the run-time value of each name. Under that
assumption:

- `KnownUnrelated` implies the two accessed ranges are disjoint.
- `KnownCovered` implies every address the covered write may touch is certainly
  written by the covering one.

A memory access with a known start and an unknown length is taken to reach
arbitrarily far.

Three points of the store pass's behaviour are easy to misread:

- A callee that cannot continue only clears the pending memory stores. It does
  not mark them used (`UnusedStoreEliminator.cpp:108-113`).
- At the end of the pass, pending memory stores are cleared when the dialect is
  an EVM dialect with object access, and marked used otherwise
  (`UnusedStoreEliminator.cpp:82-86`).
- For `returndatacopy`, the argument that must be known to be zero is argument 1.
  That is the source offset in the returndata buffer, not the destination
  (`UnusedStoreEliminator.cpp:177-189`).

## Model

| member | source | states |
|---|---|---|
| `StoreAlias.AddNoWrap` | libyul/optimiser/UnusedStoreEliminator.cpp:315-320 | The guard `a + b >= a` on wrapping 256-bit addition holds exactly when no wrap-around happens, so the guarded sum is the natural-number sum. |
| `StoreAlias.ApartBy32` | libyul/optimiser/UnusedStoreEliminator.cpp:335-345 | Two words that are at least 32 apart modulo 2^256 in both directions lie at least 32 apart as natural numbers. |
| `StoreAlias.EndsBeforeSound` | libyul/optimiser/UnusedStoreEliminator.cpp:310-333 | The constant-bounds rule (`s1 + l1` does not wrap and `s1 + l1 <= s2`) implies the two memory ranges are disjoint. |
| `StoreAlias.KnownUnrelatedSound` | libyul/optimiser/UnusedStoreEliminator.cpp:279-349 | On one location, an answer of "unrelated" means no byte or slot may be touched by both operations, whatever the values, provided the oracle is sound. This covers the storage rule, the zero-length rule, both constant-bounds orderings and the 32-apart rule. |
| `StoreAlias.KnownUnrelatedSymmetric` | libyul/optimiser/UnusedStoreEliminator.cpp:304-345 | With a symmetric oracle, the answer does not depend on the order of the two operations. |
| `StoreAlias.KnownUnrelatedStorage` | libyul/optimiser/UnusedStoreEliminator.cpp:288-300 | On storage, two accesses are unrelated exactly when both starts are known and known to be different. |
| `StoreAlias.KnownUnrelated` | libyul/optimiser/UnusedStoreEliminator.cpp:279-349 | Operations on different locations are always unrelated. On one location, an answer of "unrelated" needs both starts known, or a known-zero memory length on either side. |
| `StoreAlias.ZeroLengthUnrelated` | libyul/optimiser/UnusedStoreEliminator.cpp:304-308 | A memory operation of known zero length is unrelated to every operation, in both argument orders. |
| `StoreAlias.KnownCoveredSound` | libyul/optimiser/UnusedStoreEliminator.cpp:351-395 | Coverage implies the two writes share a location, and every address the covered write may touch is certainly written by the covering one. This covers the same-names, zero-length, equal-start and constant-bounds rules. |
| `StoreAlias.SameExtentCovered` | libyul/optimiser/UnusedStoreEliminator.cpp:358-362 | On either location, two writes naming the same start and the same length cover each other. |
| `StoreAlias.UnknownExtentCoversNothing` | libyul/optimiser/UnusedStoreEliminator.cpp:363-373 | If either write has an unknown start or length, nothing is covered, unless the covered write is in memory with a known zero length. |
| `StoreAlias.KnownCoveredStorage` | libyul/optimiser/UnusedStoreEliminator.cpp:356-362 | On storage, coverage holds exactly for two storage writes with identical start and length names. |
| `StoreAlias.KnownCovered` | libyul/optimiser/UnusedStoreEliminator.cpp:351-395 | Nothing is covered across locations. A memory write of known zero length is covered by every memory write. |
| `StoreOperations.SeededEnvironmentWellFormed` | libyul/optimiser/UnusedStoreEliminator.cpp:60-79 | SSA values seeded with the constant names, together with a knowledge base that resolves them to 0, 1 and 32, give the environment the pass is constructed with. |
| `StoreOperations.ConstantLengthKnown` | libyul/optimiser/UnusedStoreEliminator.cpp:242-248 | In that environment, a fixed length of 1 or 32 becomes a name of known constant value 1 or 32, as the storage assertion at lines 292-297 expects. |
| `StoreOperations.SeedSsaValues` | libyul/optimiser/UnusedStoreEliminator.cpp:60-70 | The SSA map gains the three constant names, bound to the literals 0, 1 and 32. The program's other SSA values are kept. |
| `StoreOperations.IdentifierNameIfSsa` | libyul/optimiser/UnusedStoreEliminator.cpp:420-426 | A name is returned exactly when the expression is an identifier with an SSA value, and it is that identifier's name. |
| `StoreOperations.OperationFromSignature` | libyul/optimiser/UnusedStoreEliminator.cpp:233-250 | The operation keeps the signature's location and effect. A start or length is set only from an SSA identifier argument. A fixed length of 1 or 32 becomes the constant name `"@ 1"` or `"@ 32"`. |
| `StoreOperations.OperationsFromFunctionCall` | libyul/optimiser/UnusedStoreEliminator.cpp:204-252 | A non-instruction call gives unlocated reads. There is a memory read exactly when the callee touches memory and a storage read exactly when it touches storage, memory first. An instruction gives one operation per signature, in table order. Every operation reads or writes. |
| `StoreOperations.OperationNamesAreSsa` | libyul/optimiser/UnusedStoreEliminator.cpp:231-251 | Every start or length of an operation is an SSA name or a constant name. |
| `StoreOperations.IsNamedStoreInstruction` | libyul/optimiser/UnusedStoreEliminator.cpp:153-160 | When memory is ignored, the only listed store is `sstore`. A listed store is never `returndatasize` or an unnamed instruction. |
| `StoreOperations.IsCandidateForRemoval` | libyul/optimiser/UnusedStoreEliminator.cpp:161-165 | A candidate writes no other state. When memory is ignored, a candidate is exactly an instruction that writes storage and no other state. An instruction that writes neither storage nor memory is never a candidate. |
| `StoreOperations.ReturndatacopyRemovable` | libyul/optimiser/UnusedStoreEliminator.cpp:169-191 | `returndatacopy` is accepted only when argument 1 is an SSA identifier known to be zero and argument 2 an SSA identifier bound to a call of `returndatasize`. Non-identifier arguments are never accepted. |
| `StoreOperations.CalleeControlFlow` | libyul/optimiser/UnusedStoreEliminator.cpp:100-104 | A builtin's own control-flow side effects are used. Otherwise the collected ones for the user function are used. |
| `StoreOperations.CandidateOperation` | libyul/optimiser/UnusedStoreEliminator.cpp:134-200 | A statement is a candidate exactly when it is a call of an instruction that passes the table test (storage write, or memory write unless memory is ignored, with no write to other state) and has only identifier and literal arguments. For `returndatacopy`, argument 1 must also be an SSA name known zero and argument 2 an SSA name bound to `returndatasize()`. A candidate is a listed store instruction, and its operation is the call's single operation. |
| `ActiveStores.ApplyOperation` | libyul/optimiser/UnusedStoreEliminator.cpp:254-277 | Only the active set of the operation's own location changes, and it only shrinks. After a read, used grows by exactly the dropped stores; after a write, used is unchanged. A store stays active exactly when it is neither possibly read nor known covered. |
| `ActiveStores.RecordedStoresHaveOneLocation` | libyul/optimiser/UnusedStoreEliminator.cpp:196-199 | In recorded bookkeeping, a store is active only in the set of its own operation's location, never in both sets. |
| `ActiveStores.ReadLeavesOnlyDisjointStores` | libyul/optimiser/UnusedStoreEliminator.cpp:263-271 | After a read, every store still active on the read's location has an operation on that location that is disjoint from the read at run time. So no possibly-aliased store slips through unused. |
| `ActiveStores.WriteRetiresOnlyCoveredStores` | libyul/optimiser/UnusedStoreEliminator.cpp:272-274 | A store that a write retires is not marked used, and it is entirely overwritten by that write at run time. |
| `ActiveStores.ApplyOperations` | libyul/optimiser/UnusedStoreEliminator.cpp:97-98 | Applying a call's operations in order only shrinks the active sets. The stores it adds to used were active before. |
| `ActiveStores.ClearActive` | libyul/optimiser/UnusedStoreEliminator.cpp:410-418 | The selected locations' active sets become empty, and no location given selects both. The other location and the used set are untouched. |
| `ActiveStores.MarkActiveAsUsed` | libyul/optimiser/UnusedStoreEliminator.cpp:397-408 | Used gains exactly the active stores of the selected locations, and those sets become empty. The other location is untouched. |
| `ActiveStores.AfterCall` | libyul/optimiser/UnusedStoreEliminator.cpp:100-113 | A callee that can terminate marks pending storage stores used. One that cannot continue clears pending memory without using it, and also clears storage when it cannot terminate either. |
| `ActiveStores.Finalize` | libyul/optimiser/UnusedStoreEliminator.cpp:82-87 | At the end, both active sets are empty. Pending storage stores are used, and pending memory stores are used unless the dialect provides object access. |
| `StoreEliminator.ActiveStoresSitOnTheirLocation` | libyul/optimiser/UnusedStoreEliminator.cpp:196-199 | In every consistent state of the pass, each active memory store has a memory operation and each active storage store a storage operation. |
| `StoreEliminator.UnusedStoreEliminator.constructor` | libyul/optimiser/UnusedStoreEliminator.cpp:73-79 | A fresh pass has empty bookkeeping over the given environment. |
| `StoreEliminator.UnusedStoreEliminator.ApplyOperation` | libyul/optimiser/UnusedStoreEliminator.cpp:254-277 | The loop that collects the stores to retire, followed by their removal, performs `ActiveStores.ApplyOperation`. It keeps the invariant that active and used stores are recorded. |
| `StoreEliminator.UnusedStoreEliminator.MarkActiveAsUsed` | libyul/optimiser/UnusedStoreEliminator.cpp:397-408 | The two insertion loops and the clear perform `ActiveStores.MarkActiveAsUsed`. |
| `StoreEliminator.UnusedStoreEliminator.ClearActive` | libyul/optimiser/UnusedStoreEliminator.cpp:410-418 | Performs `ActiveStores.ClearActive`. |
| `StoreEliminator.UnusedStoreEliminator.VisitFunctionCall` | libyul/optimiser/UnusedStoreEliminator.cpp:93-114 | The call hook applies the call's operations in order, then flushes as `ActiveStores.AfterCall` says, for the builtin's or the collected control-flow side effects. |
| `StoreEliminator.UnusedStoreEliminator.Visit` | libyul/optimiser/UnusedStoreEliminator.cpp:128-202 | A candidate statement joins all stores, gets its operation recorded, and joins the active set of exactly its operation's location. Any other statement changes nothing. Used stores never change. A statement visited again while still active is the same store, so its location is unchanged. |
| `StoreEliminator.UnusedStoreEliminator.VisitLeave` | libyul/optimiser/UnusedStoreEliminator.cpp:123-126 | `leave` marks the active stores of both locations used and empties both sets. |
| `StoreEliminator.UnusedStoreEliminator.EnterFunctionDefinition` | libyul/optimiser/UnusedStoreEliminator.cpp:116-120 | Entering a function body saves the operation map (and the active sets) and starts it empty. |
| `StoreEliminator.UnusedStoreEliminator.FinalizeFunctionDefinition` | libyul/optimiser/UnusedStoreEliminator.cpp:397-408 | At the end of a function body, performs `ActiveStores.MarkActiveAsUsed` on both locations: every pending store is used and both active sets are emptied. |
| `StoreEliminator.UnusedStoreEliminator.ShortcutNestedLoop` | libyul/optimiser/UnusedStoreEliminator.cpp:397-408 | The nested-loop shortcut performs `ActiveStores.MarkActiveAsUsed` on both locations, like the end of a body. |
| `StoreEliminator.UnusedStoreEliminator.ExitFunctionDefinition` | libyul/optimiser/UnusedStoreEliminator.cpp:116-120 | Leaving it restores what was saved, which must itself be recorded with each store on its own location, as every saved frame is. All and used stores are kept. |
| `StoreEliminator.UnusedStoreEliminator.Finish` | libyul/optimiser/UnusedStoreEliminator.cpp:82-90 | Performs `ActiveStores.Finalize`, then returns `allStores - usedStores`. No used store and no pending storage store is removed, nor any pending memory store unless the dialect provides object access. |
| `AssignEliminator.Overwrite` | libyul/optimiser/UnusedAssignEliminator.cpp:104-110 | Every target ends up bound to the given set: the one assignment, or nothing. Every other variable keeps its entry. |
| `AssignEliminator.OverwriteAppend` | libyul/optimiser/UnusedAssignEliminator.cpp:105-106 | Binding the targets one by one, as the loop does, gives the same map as binding them all at once. |
| `AssignEliminator.CollectSplit` | libyul/optimiser/UnusedAssignEliminator.cpp:76-80 | Marking the names of `a` used and then those of `b` uses exactly the assignments active for any name of `a + b`. |
| `AssignEliminator.DeclaredNames` | libyul/optimiser/UnusedAssignEliminator.cpp:87-90 | Contains every variable declared by a declaration directly in the block. |
| `AssignEliminator.NewInLoop` | libyul/optimiser/UnusedAssignEliminator.cpp:132-139 | Contains every active assignment that is not active for the same variable in the zero-runs map, and nothing that is not active. |
| `AssignEliminator.UnusedAssignEliminator.constructor` | libyul/optimiser/UnusedAssignEliminator.cpp:45-46 | A fresh pass has empty bookkeeping. |
| `AssignEliminator.UnusedAssignEliminator.MarkUsed` | libyul/optimiser/UnusedAssignEliminator.cpp:148-153 | Every assignment active for the variable becomes used, and the variable's entry is erased. Other variables' entries are unchanged. |
| `AssignEliminator.UnusedAssignEliminator.VisitIdentifier` | libyul/optimiser/UnusedAssignEliminator.cpp:54-57 | A reference to an identifier marks it used. |
| `AssignEliminator.UnusedAssignEliminator.VisitExpression` | libyul/optimiser/UnusedAssignEliminator.cpp:54-61 | Walking an expression uses exactly the assignments active for the identifiers it refers to, and erases their entries. A called function's name is not a use. |
| `AssignEliminator.UnusedAssignEliminator.VisitAssignment` | libyul/optimiser/UnusedAssignEliminator.cpp:93-111 | Only the value is walked, so the targets are not uses. A movable assignment joins all stores and becomes each target's only active assignment. A non-movable assignment leaves each target with none. Earlier assignments are dropped without being used. |
| `AssignEliminator.UnusedAssignEliminator.VisitLeave` | libyul/optimiser/UnusedAssignEliminator.cpp:76-80 | `leave` uses the active assignments of every return variable of the current function and erases their entries. |
| `AssignEliminator.UnusedAssignEliminator.EnterFunctionDefinition` | libyul/optimiser/UnusedAssignEliminator.cpp:66-74 | Saves the enclosing return variables and makes the function's return parameters the current ones. |
| `AssignEliminator.UnusedAssignEliminator.ExitFunctionDefinition` | libyul/optimiser/UnusedAssignEliminator.cpp:66-74 | Restores the enclosing return variables. |
| `AssignEliminator.UnusedAssignEliminator.FinalizeFunctionDefinition` | libyul/optimiser/UnusedAssignEliminator.cpp:142-146 | At the end of a body, each return parameter's active assignments are used and its entry is erased. |
| `AssignEliminator.UnusedAssignEliminator.EndBlock` | libyul/optimiser/UnusedAssignEliminator.cpp:82-91 | After a block, the variables declared directly in it are erased from the active map without being used. Nothing else changes. |
| `AssignEliminator.UnusedAssignEliminator.ShortcutNestedLoop` | libyul/optimiser/UnusedAssignEliminator.cpp:122-140 | Marks used exactly the active assignments that are not in the zero-runs map for the same variable. The active map is unchanged. |
| `AssignEliminator.UnusedAssignEliminator.Finish` | libyul/optimiser/UnusedAssignEliminator.cpp:43-52 | The removal set gains every recorded assignment that was never used, and no used assignment is added. |
| `Scenarios.ConstantsOnlySound` | libyul/optimiser/UnusedStoreEliminator.cpp:284 | The example knowledge base resolves only the constant names and claims nothing else. Each of its answers holds in every run where those names carry 0, 1 and 32. Since `p`, `q`, `a` and `b` are words of call data, this is what a knowledge base over the SSA values can know. |
| `Scenarios.ExampleEnvironment` | libyul/optimiser/UnusedStoreEliminator.cpp:60-70 | The example environment is well formed: the seeded constant names are bound to their literals, and its knowledge base resolves them. |
| `Scenarios.ExampleCall` | libyul/optimiser/UnusedStoreEliminator.cpp:204-252 | In the example dialect, `mstore(p, v)` is a single 32-byte memory write at `p`, and `sstore(p, v)` a single one-slot storage write. Each is a store candidate. |
| `Scenarios.OverwrittenStore` | libyul/optimiser/UnusedStoreEliminator.cpp:53-91 | For two stores of the same extent, the first is removed and the second kept, in every environment that resolves them so. |
| `Scenarios.StoreAtFunctionEnd` | libyul/optimiser/UnusedStoreEliminator.cpp:397-408 | A store still pending at the end of a function body is used, so nothing is removed, even under object access. |
| `Scenarios.MemoryStoreAtFunctionEnd` | libyul/optimiser/UnusedStoreEliminator.cpp:82-86 | `function f() { mstore(p, a) }` keeps the store even with object access, where a store pending at the end of the pass would go. |
| `Scenarios.PossiblyReadStore` | libyul/optimiser/UnusedStoreEliminator.cpp:263-271 | A store followed by a read not known to miss it is kept, even when pending memory stores would otherwise be dropped. |
| `Scenarios.OverwrittenMemoryStore` | libyul/optimiser/UnusedStoreEliminator.cpp:272-274 | `mstore(p, a) mstore(p, b)` removes the first store. |
| `Scenarios.OverwrittenStorageStore` | libyul/optimiser/UnusedStoreEliminator.cpp:82-89 | `sstore(p, a) sstore(p, b)` removes the first store. The last one is kept at the end, even with object access. |
| `Scenarios.PossiblyReadMemoryStore` | libyul/optimiser/UnusedStoreEliminator.cpp:304-345 | With `p` and `q` read from call data, the knowledge base cannot order or separate them. So `mstore(p, a)` followed by `mload(q)` keeps the store, even under object access. |
| `Scenarios.OverwrittenAssignment` | libyul/optimiser/UnusedAssignEliminator.cpp:102-107 | In `x := a  x := b  f(x)`, the first assignment is removed. |
| `Scenarios.ReturnVariableAssignment` | libyul/optimiser/UnusedAssignEliminator.cpp:142-146 | An assignment to a return variable that is still active at the end of the body is kept. |
| `Scenarios.OutOfScopeAssignment` | libyul/optimiser/UnusedAssignEliminator.cpp:82-91 | An assignment still active when its variable's block ends is removed. |

## Left out

- The generic walker (`UnusedStoreBase`) is not part of this model. That covers statement order, branches, loops and the join of the states of several paths. The hooks are methods, and a caller invokes them in walk order. The walker's saving and restoring of the active sets around a function body is folded into `EnterFunctionDefinition` and `ExitFunctionDefinition` of the store pass. The assign pass does not model it: its `EnterFunctionDefinition` and `ExitFunctionDefinition` leave the active assignments untouched. That is harmless, because Yul names are unique, so the assignments pending outside a function and those inside it concern different variables.
- The store pass's own end-of-body and nested-loop hooks are not defined in `UnusedStoreEliminator.cpp`; their definitions are not part of this model. They are modelled as `FinalizeFunctionDefinition` and `ShortcutNestedLoop`, each marking the active stores of both locations used (`markActiveAsUsed()`, lines 397-408). A caller invokes `FinalizeFunctionDefinition` before `ExitFunctionDefinition`.
- The knowledge base is not modelled: its five queries are oracle functions, and `StoreAlias.Sound` states what a correct implementation of them promises.
- The instruction semantics tables, `toEVMInstruction` and the builtin table are inputs (`Evm.Dialect`), not the compiler's actual EVM tables. The assertions the source makes about them are preconditions: `CallWellFormed` and `StatementWellFormed`, covering source lines 104, 139, 166, 177-178, 195, 215, 235-236, 239, 241 and 247. Lines 104 and 215 look up a non-builtin callee in the collected tables. For line 215, `KnownCallee` within `CallWellFormed` requires the callee in the side-effect table. For line 104, `CalleeControlFlow` and `VisitFunctionCall` require it in the control-flow table. Lines 239 and 241 index the call's arguments, which `SignatureFits` keeps within range.
- The whole-program analyses that feed the store pass are immutable fields of `StoreOperations.Environment`: the call graph, the propagated side effects, the control-flow side effects, `msize` detection, the SSA values and the knowledge base.
- The EVM-dialect and object-access check is the boolean `evmWithObjectAccess`.
- Side-effect summaries are reduced to their memory and storage effects. `canRevert` is not part of `ControlFlowSideEffects`, because neither pass reads it.
- The removal of statements from the tree is not modelled: both passes stop at the computed set of statement identities.
- Whether an assignment's value is movable is the boolean `movable`, because the side-effect collector is not part of this model.
- The storage-length assertion in `knownUnrelated` (source lines 292-297) is not modelled. The model's answer on storage does not depend on the lengths.
- The more aggressive coverage rule noted as future work in the source (lines 390-392) is not implemented, as in the source.
- The commented-out debug output of the assignment pass is left out.
- `StoreAlias.MayTouch`: memory addresses are natural numbers. An access running past 2^256 is taken to continue upwards instead of wrapping, which is how the no-overflow guards of the source treat it.
- `ActiveStores.ApplyOperations`: its contract gives the fold's monotonicity only. The exact effect is stated per operation by `ActiveStores.ApplyOperation`.
