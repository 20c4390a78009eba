/**
 * Small programs driven through the two passes hook by hook, in the order the
 * walker would call the hooks, with the statements each pass removes.
 */
module Scenarios {
  import opened Yul
  import opened Evm
  import opened StoreAlias
  import opened StoreOperations
  import opened StoreEliminator
  import opened AssignEliminator
  import ActiveStores

  /** A dialect with `mstore`, `mload`, `sstore` and `sload`, and their tables. */
  function ExampleDialect(evmWithObjectAccess: bool): Dialect
  {
    var continues := ControlFlowSideEffects(false, true);
    Dialect(
      map[
        "mstore" := BuiltinFunction(SideEffects(Write, NoEffect), continues, Some(MSTORE)),
        "mload" := BuiltinFunction(SideEffects(Read, NoEffect), continues, Some(OtherInstruction(0x51))),
        "sstore" := BuiltinFunction(SideEffects(NoEffect, Write), continues, Some(SSTORE)),
        "sload" := BuiltinFunction(SideEffects(NoEffect, Read), continues, Some(OtherInstruction(0x54)))],
      InstructionSemantics(
        i =>
          if i == MSTORE then [OperationSignature(Memory, Write, Some(0), None, Some(32))]
          else if i == OtherInstruction(0x51) then [OperationSignature(Memory, Read, Some(0), None, Some(32))]
          else if i == SSTORE then [OperationSignature(Storage, Write, Some(0), None, Some(1))]
          else if i == OtherInstruction(0x54) then [OperationSignature(Storage, Read, Some(0), None, Some(1))]
          else [],
        i => if i == MSTORE then Write else if i == OtherInstruction(0x51) then Read else NoEffect,
        i => if i == SSTORE then Write else if i == OtherInstruction(0x54) then Read else NoEffect,
        i => NoEffect),
      evmWithObjectAccess)
  }

  /** The value of the constant names; every other name is unknown. */
  function ConstantValue(x: Name): (r: Option<U256>)
    ensures r.Some? <==> x in {ZeroName, OneName, ThirtyTwoName}
  {
    if x == ZeroName then Some(0)
    else if x == OneName then Some(1)
    else if x == ThirtyTwoName then Some(32)
    else None
  }

  /**
   * The knowledge base of the example program: it resolves the constant names
   * and knows nothing about the values of `p`, `q`, `a` and `b`, which are read
   * from call data.
   */
  function ConstantsOnly(): Knowledge
  {
    Knowledge(
      ConstantValue,
      x => x == ZeroName,
      (x, y) => x == y,
      (x, y) => ConstantValue(x).Some? && ConstantValue(y).Some? && ConstantValue(x) != ConstantValue(y),
      (x, y) => (x == ZeroName && y == ThirtyTwoName) || (x == ThirtyTwoName && y == ZeroName))
  }

  /** Every answer of `ConstantsOnly` holds in each run where the constant names carry their values. */
  lemma ConstantsOnlySound(val: Valuation)
    requires val(ZeroName) == 0 && val(OneName) == 1 && val(ThirtyTwoName) == 32
    ensures Sound(ConstantsOnly(), val)
  {
    assert (val(ZeroName) - val(ThirtyTwoName)) % Modulus == Modulus - 32;
    assert (val(ThirtyTwoName) - val(ZeroName)) % Modulus == 32;
  }

  /** `calldataload(offset)`. */
  function CallDataWord(offset: string): Expression
  {
    FunctionCall("calldataload", [Literal(offset)])
  }

  /** The example dialect and the program's SSA variables `p`, `q`, `a`, `b`, each a word of call data, with knowledge base `k`. */
  function EnvironmentWith(evmWithObjectAccess: bool, k: Knowledge): Environment
  {
    var ssa := SeedSsaValues(map[
      "p" := CallDataWord("0"), "q" := CallDataWord("32"), "a" := CallDataWord("64"), "b" := CallDataWord("96")]);
    Environment(ExampleDialect(evmWithObjectAccess), map[], map[], ssa, k, false)
  }

  /** The environment of the example program: its knowledge base resolves exactly the constant names. */
  function ExampleEnvironment(evmWithObjectAccess: bool): (env: Environment)
    ensures EnvironmentWellFormed(env)
  {
    EnvironmentWith(evmWithObjectAccess, ConstantsOnly())
  }

  /** What the pass makes of `name(p, v)` for the store or load `name` of the example dialect. */
  lemma ExampleCall(evmWithObjectAccess: bool, k: Knowledge, name: Name, v: Name, op: Operation)
    requires v in {"a", "b"}
    requires
      || (name == "mstore" && op == Operation(Memory, Write, Some("p"), Some(ThirtyTwoName)))
      || (name == "sstore" && op == Operation(Storage, Write, Some("p"), Some(OneName)))
    ensures var env := EnvironmentWith(evmWithObjectAccess, k);
      && CallWellFormed(env, name, [Identifier("p"), Identifier(v)])
      && name in env.dialect.builtins
      && CalleeControlFlow(env, name) == ControlFlowSideEffects(false, true)
      && OperationsFromFunctionCall(env, name, [Identifier("p"), Identifier(v)]) == [op]
      && StatementWellFormed(env, ExpressionStatement(name, [Identifier("p"), Identifier(v)]))
      && CandidateOperation(env, ExpressionStatement(name, [Identifier("p"), Identifier(v)])) == Some(op)
  {
    var env := EnvironmentWith(evmWithObjectAccess, k);
    var arguments := [Identifier("p"), Identifier(v)];
    var instruction := if name == "mstore" then MSTORE else SSTORE;
    assert name in env.dialect.builtins && ToEvmInstruction(env.dialect, name) == Some(instruction);
    var sigs := env.dialect.semantics.readWriteOperations(instruction);
    assert |sigs| == 1 && SignatureFits(sigs[0], 2);
    assert "p" in env.ssaValues;
    assert OperationFromSignature(env, sigs[0], arguments) == op;
    assert SimpleArguments(arguments);
  }

  /** What the pass makes of `mload(q)` in the example dialect: one read of the word at `q`. */
  lemma ExampleLoad(evmWithObjectAccess: bool, k: Knowledge)
    ensures var env := EnvironmentWith(evmWithObjectAccess, k);
      && CallWellFormed(env, "mload", [Identifier("q")])
      && "mload" in env.dialect.builtins
      && CalleeControlFlow(env, "mload") == ControlFlowSideEffects(false, true)
      && OperationsFromFunctionCall(env, "mload", [Identifier("q")])
         == [Operation(Memory, Read, Some("q"), Some(ThirtyTwoName))]
  {
    var env := EnvironmentWith(evmWithObjectAccess, k);
    assert ToEvmInstruction(env.dialect, "mload") == Some(OtherInstruction(0x51));
    var sigs := env.dialect.semantics.readWriteOperations(OtherInstruction(0x51));
    assert |sigs| == 1 && SignatureFits(sigs[0], 1);
    assert "q" in env.ssaValues;
  }

  /**
   * Two stores `name(first)` then `name(second)` with the same single write
   * operation, in any environment that resolves them so: the second covers the
   * first, which goes; the second stays pending to the end and is kept (always on
   * storage, and on memory unless the dialect provides object access).
   */
  method OverwrittenStore(env: Environment, name: Name, first: seq<Expression>, second: seq<Expression>, op: Operation)
    returns (toRemove: set<StmtId>)
    requires op.effect == Write && KnownCovered(env.knowledge, op, op)
    requires op.location == Storage || !env.dialect.evmWithObjectAccess
    requires name in env.dialect.builtins && CalleeControlFlow(env, name) == ControlFlowSideEffects(false, true)
    requires CallWellFormed(env, name, first) && OperationsFromFunctionCall(env, name, first) == [op]
    requires CallWellFormed(env, name, second) && OperationsFromFunctionCall(env, name, second) == [op]
    requires StatementWellFormed(env, ExpressionStatement(name, first))
    requires StatementWellFormed(env, ExpressionStatement(name, second))
    requires CandidateOperation(env, ExpressionStatement(name, first)) == Some(op)
    requires CandidateOperation(env, ExpressionStatement(name, second)) == Some(op)
    ensures toRemove == {1}
  {
    var pass := new UnusedStoreEliminator(env);
    pass.VisitFunctionCall(name, first);
    assert pass.Snapshot() == ActiveStores.Bookkeeping({}, {}, {});
    pass.Visit(1, ExpressionStatement(name, first));
    ghost var pending := pass.Snapshot();
    assert ActiveStores.ApplyOperations(env.knowledge, map[1 := op], pending, [op]) == ActiveStores.Bookkeeping({}, {}, {});
    pass.VisitFunctionCall(name, second);
    pass.Visit(2, ExpressionStatement(name, second));
    toRemove := pass.Finish();
  }

  /**
   * A store `store(arguments)` followed by a call `load(loadArguments)` whose one
   * operation reads the store's location and is not known to miss it: the store
   * is used and nothing is removed, even where pending memory stores would be.
   */
  method PossiblyReadStore(
    env: Environment, store: Name, arguments: seq<Expression>, load: Name, loadArguments: seq<Expression>,
    op: Operation, read: Operation)
    returns (toRemove: set<StmtId>)
    requires op.effect == Write && read.effect == Read && read.location == op.location
    requires !KnownUnrelated(env.knowledge, op, read)
    requires store in env.dialect.builtins && CalleeControlFlow(env, store) == ControlFlowSideEffects(false, true)
    requires load in env.dialect.builtins && CalleeControlFlow(env, load) == ControlFlowSideEffects(false, true)
    requires CallWellFormed(env, store, arguments) && OperationsFromFunctionCall(env, store, arguments) == [op]
    requires CallWellFormed(env, load, loadArguments) && OperationsFromFunctionCall(env, load, loadArguments) == [read]
    requires StatementWellFormed(env, ExpressionStatement(store, arguments))
    requires CandidateOperation(env, ExpressionStatement(store, arguments)) == Some(op)
    ensures toRemove == {}
  {
    var pass := new UnusedStoreEliminator(env);
    pass.VisitFunctionCall(store, arguments);
    assert pass.Snapshot() == ActiveStores.Bookkeeping({}, {}, {});
    pass.Visit(1, ExpressionStatement(store, arguments));
    ghost var pending := pass.Snapshot();
    assert ActiveStores.ApplyOperations(env.knowledge, map[1 := op], pending, [read]).used == {1};
    pass.VisitFunctionCall(load, loadArguments);
    toRemove := pass.Finish();
  }

  /**
   * A function body holding only the store `name(arguments)`: at the end of the
   * body the caller may still read it, so it is used and kept, even a memory store
   * under object access, which a pending store at the end of the pass would not be.
   */
  method StoreAtFunctionEnd(env: Environment, name: Name, arguments: seq<Expression>, op: Operation)
    returns (toRemove: set<StmtId>)
    requires op.effect == Write
    requires name in env.dialect.builtins && CalleeControlFlow(env, name) == ControlFlowSideEffects(false, true)
    requires CallWellFormed(env, name, arguments) && OperationsFromFunctionCall(env, name, arguments) == [op]
    requires StatementWellFormed(env, ExpressionStatement(name, arguments))
    requires CandidateOperation(env, ExpressionStatement(name, arguments)) == Some(op)
    ensures toRemove == {}
  {
    var pass := new UnusedStoreEliminator(env);
    var outer := pass.EnterFunctionDefinition();
    pass.VisitFunctionCall(name, arguments);
    assert pass.Snapshot() == ActiveStores.Bookkeeping({}, {}, {});
    pass.Visit(1, ExpressionStatement(name, arguments));
    pass.FinalizeFunctionDefinition();
    pass.ExitFunctionDefinition(outer);
    toRemove := pass.Finish();
  }

  /** `function f() { mstore(p, a) }` with object access: the store stays. */
  method MemoryStoreAtFunctionEnd() returns (toRemove: set<StmtId>)
    ensures toRemove == {}
  {
    var env := ExampleEnvironment(true);
    var op := Operation(Memory, Write, Some("p"), Some(ThirtyTwoName));
    ExampleCall(true, env.knowledge, "mstore", "a", op);
    toRemove := StoreAtFunctionEnd(env, "mstore", [Identifier("p"), Identifier("a")], op);
  }

  /** `mstore(p, a) mstore(p, b)` in the example dialect: the first store goes. */
  method OverwrittenMemoryStore() returns (toRemove: set<StmtId>)
    ensures toRemove == {1}
  {
    var env := ExampleEnvironment(false);
    var op := Operation(Memory, Write, Some("p"), Some(ThirtyTwoName));
    ExampleCall(false, env.knowledge, "mstore", "a", op);
    ExampleCall(false, env.knowledge, "mstore", "b", op);
    assert KnownCovered(env.knowledge, op, op);
    toRemove := OverwrittenStore(env, "mstore", [Identifier("p"), Identifier("a")], [Identifier("p"), Identifier("b")], op);
  }

  /** `sstore(p, a) sstore(p, b)` with object access: the first slot write goes. */
  method OverwrittenStorageStore() returns (toRemove: set<StmtId>)
    ensures toRemove == {1}
  {
    var env := ExampleEnvironment(true);
    var op := Operation(Storage, Write, Some("p"), Some(OneName));
    ExampleCall(true, env.knowledge, "sstore", "a", op);
    ExampleCall(true, env.knowledge, "sstore", "b", op);
    assert KnownCovered(env.knowledge, op, op);
    toRemove := OverwrittenStore(env, "sstore", [Identifier("p"), Identifier("a")], [Identifier("p"), Identifier("b")], op);
  }

  /** `mstore(p, a)` followed by `mload(q)` with object access: nothing shows `q` misses `p`, so the store stays. */
  method PossiblyReadMemoryStore() returns (toRemove: set<StmtId>)
    ensures toRemove == {}
  {
    var env := ExampleEnvironment(true);
    var op := Operation(Memory, Write, Some("p"), Some(ThirtyTwoName));
    var read := Operation(Memory, Read, Some("q"), Some(ThirtyTwoName));
    ExampleCall(true, env.knowledge, "mstore", "a", op);
    ExampleLoad(true, env.knowledge);
    assert !KnownUnrelated(env.knowledge, op, read);
    toRemove := PossiblyReadStore(env, "mstore", [Identifier("p"), Identifier("a")], "mload", [Identifier("q")], op, read);
  }

  /** `x := a  x := b  f(x)`: the first assignment is overwritten unused and goes. */
  method OverwrittenAssignment() returns (toRemove: set<StmtId>)
    ensures toRemove == {1}
  {
    var pass := new UnusedAssignEliminator();
    pass.VisitAssignment(1, ["x"], Identifier("a"), true);
    pass.VisitAssignment(2, ["x"], Identifier("b"), true);
    assert pass.activeStores["x"] == {2};
    pass.VisitExpression(FunctionCall("f", [Identifier("x")]));
    assert pass.usedStores == {2};
    toRemove := pass.Finish();
  }

  /** `function f() -> r { r := 7 }`: the assignment to the return variable is used at the end of the body. */
  method ReturnVariableAssignment() returns (toRemove: set<StmtId>)
    ensures toRemove == {}
  {
    var pass := new UnusedAssignEliminator();
    var outer := pass.EnterFunctionDefinition(["r"]);
    pass.VisitAssignment(1, ["r"], Literal("7"), true);
    pass.FinalizeFunctionDefinition(["r"]);
    assert NamesOf(["r"]) == {"r"};
    CollectOne(map["r" := {1}], "r");
    pass.ExitFunctionDefinition(outer);
    toRemove := pass.Finish();
  }

  /** `{ let x x := 7 }`: the assignment goes out of scope unused with its block and goes. */
  method OutOfScopeAssignment() returns (toRemove: set<StmtId>)
    ensures toRemove == {1}
  {
    var pass := new UnusedAssignEliminator();
    var block := [VariableDeclaration(["x"], None), Assignment(["x"], Literal("7"))];
    pass.VisitAssignment(1, ["x"], Literal("7"), true);
    pass.EndBlock(block);
    toRemove := pass.Finish();
  }
}
