/**
 * How the unused-store pass turns calls into operations and which expression
 * statements it takes as store candidates.  The outputs of the whole-program
 * analyses it relies on (side effects per user function, control-flow side
 * effects, SSA values, the knowledge base, and whether `msize` occurs) are the
 * immutable fields of an `Environment`.
 */
module StoreOperations {
  import opened Yul
  import opened Evm
  import opened StoreAlias

  /** Names of the constants 0, 1 and 32; they cannot occur in Yul source text. */
  const ZeroName: Name := "@ 0"
  const OneName: Name := "@ 1"
  const ThirtyTwoName: Name := "@ 32"

  datatype Environment = Environment(
    dialect: Dialect,
    functionSideEffects: map<Name, SideEffects>,
    controlFlowSideEffects: map<Name, ControlFlowSideEffects>,
    ssaValues: map<Name, Expression>,
    knowledge: Knowledge,
    ignoreMemory: bool)

  /**
   * The SSA values of the program with the three constant names added, each bound
   * to its literal.
   */
  function SeedSsaValues(values: map<Name, Expression>): (r: map<Name, Expression>)
    ensures r.Keys == values.Keys + {ZeroName, OneName, ThirtyTwoName}
    ensures r[ZeroName] == Literal("0") && r[OneName] == Literal("1") && r[ThirtyTwoName] == Literal("32")
    ensures forall n :: n in values && n !in {ZeroName, OneName, ThirtyTwoName} ==> r[n] == values[n]
  {
    values[ZeroName := Literal("0")][OneName := Literal("1")][ThirtyTwoName := Literal("32")]
  }

  /**
   * What the pass's setup guarantees of its environment: the SSA values contain the
   * three constant names bound to their literals, and the knowledge base, built on
   * those values, resolves them to 0, 1 and 32.
   */
  predicate EnvironmentWellFormed(env: Environment)
  {
    && ZeroName in env.ssaValues && env.ssaValues[ZeroName] == Literal("0")
    && OneName in env.ssaValues && env.ssaValues[OneName] == Literal("1")
    && ThirtyTwoName in env.ssaValues && env.ssaValues[ThirtyTwoName] == Literal("32")
    && env.knowledge.valueIfKnownConstant(ZeroName) == Some(0)
    && env.knowledge.valueIfKnownConstant(OneName) == Some(1)
    && env.knowledge.valueIfKnownConstant(ThirtyTwoName) == Some(32)
  }

  /** Seeding the SSA values gives a well-formed environment once the knowledge base resolves the constants. */
  lemma SeededEnvironmentWellFormed(env: Environment, values: map<Name, Expression>)
    requires env.ssaValues == SeedSsaValues(values)
    requires env.knowledge.valueIfKnownConstant(ZeroName) == Some(0)
    requires env.knowledge.valueIfKnownConstant(OneName) == Some(1)
    requires env.knowledge.valueIfKnownConstant(ThirtyTwoName) == Some(32)
    ensures EnvironmentWellFormed(env)
  {
  }

  /** The name of `e` when it is an identifier that has an SSA value. */
  function IdentifierNameIfSsa(ssaValues: map<Name, Expression>, e: Expression): (r: Option<Name>)
    ensures r.Some? <==> e.Identifier? && e.name in ssaValues
    ensures r.Some? ==> r.value == e.name && r.value in ssaValues
  {
    if e.Identifier? && e.name in ssaValues then Some(e.name) else None
  }

  /** The side-effect summary of a callee exists: it is a builtin or a known user function. */
  predicate KnownCallee(env: Environment, name: Name)
  {
    name in env.dialect.builtins || name in env.functionSideEffects
  }

  function CalleeSideEffects(env: Environment, name: Name): SideEffects
    requires KnownCallee(env, name)
  {
    if name in env.dialect.builtins then env.dialect.builtins[name].sideEffects
    else env.functionSideEffects[name]
  }

  /**
   * The assertions the source makes while turning a call into operations hold:
   * the callee's summary exists and, for an instruction, each signature fits the
   * arguments of the call.
   */
  predicate CallWellFormed(env: Environment, name: Name, arguments: seq<Expression>)
  {
    && KnownCallee(env, name)
    && var instruction := ToEvmInstruction(env.dialect, name);
       (instruction.Some? ==>
          var sigs := env.dialect.semantics.readWriteOperations(instruction.value);
          forall i :: 0 <= i < |sigs| ==> SignatureFits(sigs[i], |arguments|))
  }

  /** The operation one signature of an instruction describes for a given call. */
  function OperationFromSignature(env: Environment, sig: OperationSignature, arguments: seq<Expression>): (op: Operation)
    requires SignatureFits(sig, |arguments|)
    ensures op.location == sig.location && op.effect == sig.effect && op.effect != NoEffect
    ensures op.start.Some? <==>
      sig.startParameter.Some? && arguments[sig.startParameter.value].Identifier?
      && arguments[sig.startParameter.value].name in env.ssaValues
    ensures op.start.Some? ==> op.start.value == arguments[sig.startParameter.value].name
    ensures sig.lengthConstant == Some(1) ==> op.length == Some(OneName)
    ensures sig.lengthConstant == Some(32) ==> op.length == Some(ThirtyTwoName)
    ensures sig.lengthConstant.None? ==>
      (op.length.Some? <==>
        sig.lengthParameter.Some? && arguments[sig.lengthParameter.value].Identifier?
        && arguments[sig.lengthParameter.value].name in env.ssaValues)
    ensures sig.lengthConstant.None? && op.length.Some? ==>
      op.length.value == arguments[sig.lengthParameter.value].name
  {
    var start := if sig.startParameter.Some? then IdentifierNameIfSsa(env.ssaValues, arguments[sig.startParameter.value]) else None;
    var length :=
      if sig.lengthParameter.Some? then IdentifierNameIfSsa(env.ssaValues, arguments[sig.lengthParameter.value])
      else if sig.lengthConstant == Some(1) then Some(OneName)
      else if sig.lengthConstant == Some(32) then Some(ThirtyTwoName)
      else None;
    Operation(sig.location, sig.effect, start, length)
  }

  /**
   * In a well-formed environment a fixed length is known to the knowledge base:
   * a one-slot or one-word access has a length of known constant value.
   */
  lemma ConstantLengthKnown(env: Environment, sig: OperationSignature, arguments: seq<Expression>)
    requires EnvironmentWellFormed(env)
    requires SignatureFits(sig, |arguments|) && sig.lengthConstant.Some?
    ensures var op := OperationFromSignature(env, sig, arguments);
      && op.length.Some? && op.length.value in env.ssaValues
      && env.knowledge.valueIfKnownConstant(op.length.value) == Some(sig.lengthConstant.value)
  {
  }

  /** The operations in a sequence are unlocated reads: no start, no length. */
  predicate UnlocatedReads(ops: seq<Operation>)
  {
    forall i :: 0 <= i < |ops| ==> ops[i].effect == Read && ops[i].start.None? && ops[i].length.None?
  }

  /**
   * The reads and writes of a call.  A call of something that is not an
   * instruction yields at most one unlocated read per location it has any effect
   * on, memory first; an instruction yields one operation per signature in its table.
   */
  function OperationsFromFunctionCall(env: Environment, name: Name, arguments: seq<Expression>): (ops: seq<Operation>)
    requires CallWellFormed(env, name, arguments)
    ensures ToEvmInstruction(env.dialect, name).None? ==>
      && |ops| <= 2
      && UnlocatedReads(ops)
      && (Operation(Memory, Read, None, None) in ops <==> CalleeSideEffects(env, name).memory != NoEffect)
      && (Operation(Storage, Read, None, None) in ops <==> CalleeSideEffects(env, name).storage != NoEffect)
      && (forall i, j :: 0 <= i < j < |ops| ==> ops[i].location == Memory && ops[j].location == Storage)
    ensures ToEvmInstruction(env.dialect, name).Some? ==>
      var sigs := env.dialect.semantics.readWriteOperations(ToEvmInstruction(env.dialect, name).value);
      && |ops| == |sigs|
      && forall i :: 0 <= i < |ops| ==> ops[i] == OperationFromSignature(env, sigs[i], arguments)
    ensures forall i :: 0 <= i < |ops| ==> ops[i].effect != NoEffect
  {
    var sideEffects := CalleeSideEffects(env, name);
    var instruction := ToEvmInstruction(env.dialect, name);
    if instruction.None? then
      (if sideEffects.memory != NoEffect then [Operation(Memory, Read, None, None)] else [])
      + (if sideEffects.storage != NoEffect then [Operation(Storage, Read, None, None)] else [])
    else
      var sigs := env.dialect.semantics.readWriteOperations(instruction.value);
      seq(|sigs|, i requires 0 <= i < |sigs| => OperationFromSignature(env, sigs[i], arguments))
  }

  /** Every start or length of an operation is an SSA name or one of the constant names. */
  lemma OperationNamesAreSsa(env: Environment, name: Name, arguments: seq<Expression>, i: nat)
    requires CallWellFormed(env, name, arguments)
    requires i < |OperationsFromFunctionCall(env, name, arguments)|
    ensures var op := OperationsFromFunctionCall(env, name, arguments)[i];
      && (op.start.Some? ==> op.start.value in env.ssaValues)
      && (op.length.Some? ==> op.length.value in env.ssaValues || op.length.value in {OneName, ThirtyTwoName})
  {
  }

  // ---------------------------------------------------------------------------
  // Store candidates.

  /** The instructions the pass lists by name as removable stores. */
  predicate IsNamedStoreInstruction(instruction: Instruction, ignoreMemory: bool)
    ensures ignoreMemory ==> (IsNamedStoreInstruction(instruction, ignoreMemory) <==> instruction == SSTORE)
    ensures IsNamedStoreInstruction(instruction, ignoreMemory) ==>
      instruction != RETURNDATASIZE && !instruction.OtherInstruction?
  {
    || instruction == SSTORE
    || (!ignoreMemory &&
         (|| instruction == EXTCODECOPY || instruction == CODECOPY || instruction == CALLDATACOPY
          || instruction == RETURNDATACOPY || instruction == MSTORE || instruction == MSTORE8))
  }

  /**
   * The same decision from the instruction tables: no write to other state, and a
   * write to storage, or to memory unless memory is ignored.
   */
  predicate IsCandidateForRemoval(env: Environment, instruction: Instruction)
    ensures IsCandidateForRemoval(env, instruction) ==> env.dialect.semantics.otherState(instruction) != Write
    ensures env.ignoreMemory ==>
      (IsCandidateForRemoval(env, instruction) <==>
        env.dialect.semantics.otherState(instruction) != Write && env.dialect.semantics.storage(instruction) == Write)
    ensures env.dialect.semantics.storage(instruction) != Write && env.dialect.semantics.memory(instruction) != Write ==>
      !IsCandidateForRemoval(env, instruction)
  {
    var sem := env.dialect.semantics;
    sem.otherState(instruction) != Write
    && (sem.storage(instruction) == Write || (!env.ignoreMemory && sem.memory(instruction) == Write))
  }

  predicate SimpleArguments(arguments: seq<Expression>)
  {
    forall i :: 0 <= i < |arguments| ==> arguments[i].Identifier? || arguments[i].Literal?
  }

  /**
   * `returndatacopy` may only go when it cannot run out of bounds: its source
   * offset (argument 1) is an SSA name known to be zero and its length (argument 2)
   * an SSA name bound to a call of `returndatasize`.
   */
  predicate ReturndatacopyRemovable(env: Environment, arguments: seq<Expression>)
    requires |arguments| > 2
    ensures ReturndatacopyRemovable(env, arguments) ==>
      && arguments[1].Identifier? && arguments[1].name in env.ssaValues
      && env.knowledge.knownToBeZero(arguments[1].name)
      && arguments[2].Identifier? && arguments[2].name in env.ssaValues
      && env.ssaValues[arguments[2].name].FunctionCall?
      && ToEvmInstruction(env.dialect, env.ssaValues[arguments[2].name].functionName) == Some(RETURNDATASIZE)
    ensures !arguments[1].Identifier? || !arguments[2].Identifier? ==> !ReturndatacopyRemovable(env, arguments)
  {
    var startOffset := IdentifierNameIfSsa(env.ssaValues, arguments[1]);
    var length := IdentifierNameIfSsa(env.ssaValues, arguments[2]);
    && length.Some? && startOffset.Some?
    && env.knowledge.knownToBeZero(startOffset.value)
    && env.ssaValues[length.value].FunctionCall?
    && ToEvmInstruction(env.dialect, env.ssaValues[length.value].functionName) == Some(RETURNDATASIZE)
  }

  /** The call reaches the cross-check of the two eligibility derivations. */
  predicate ReachesCrossCheck(env: Environment, name: Name, arguments: seq<Expression>)
  {
    ToEvmInstruction(env.dialect, name).Some? && SimpleArguments(arguments)
  }

  predicate StoreAccepted(env: Environment, name: Name, arguments: seq<Expression>)
    requires ToEvmInstruction(env.dialect, name) == Some(RETURNDATACOPY) ==> |arguments| > 2
  {
    && ReachesCrossCheck(env, name, arguments)
    && var instruction := ToEvmInstruction(env.dialect, name).value;
       IsCandidateForRemoval(env, instruction)
       && (instruction == RETURNDATACOPY ==> ReturndatacopyRemovable(env, arguments))
  }

  /**
   * The assertions the source makes while recognising a candidate hold for this
   * statement: `returndatacopy` has its three arguments, the table-derived and the
   * name-derived eligibility agree, and an accepted store has exactly one operation.
   */
  predicate StatementWellFormed(env: Environment, stmt: Statement)
  {
    stmt.ExpressionStatement? ==>
      var name, arguments := stmt.functionName, stmt.arguments;
      && (ToEvmInstruction(env.dialect, name) == Some(RETURNDATACOPY) ==> |arguments| > 2)
      && (ReachesCrossCheck(env, name, arguments) ==>
            var instruction := ToEvmInstruction(env.dialect, name).value;
            IsCandidateForRemoval(env, instruction) == IsNamedStoreInstruction(instruction, env.ignoreMemory))
      && (StoreAccepted(env, name, arguments) ==>
            CallWellFormed(env, name, arguments) && |OperationsFromFunctionCall(env, name, arguments)| == 1)
  }

  /**
   * The operation of `stmt` if it is a store candidate: a call of an instruction
   * listed as a removable store, with only identifiers and literals as arguments,
   * and for `returndatacopy` only in its bounds-safe shape.
   */
  function CandidateOperation(env: Environment, stmt: Statement): (r: Option<Operation>)
    requires StatementWellFormed(env, stmt)
    ensures r.Some? <==> stmt.ExpressionStatement? && StoreAccepted(env, stmt.functionName, stmt.arguments)
    ensures r.Some? ==>
      var instruction := ToEvmInstruction(env.dialect, stmt.functionName);
      && instruction.Some?
      && SimpleArguments(stmt.arguments)
      && IsNamedStoreInstruction(instruction.value, env.ignoreMemory)
      && (instruction.value != SSTORE ==> !env.ignoreMemory)
      && r.value == OperationsFromFunctionCall(env, stmt.functionName, stmt.arguments)[0]
    ensures r.Some? && ToEvmInstruction(env.dialect, stmt.functionName) == Some(RETURNDATACOPY) ==>
      && stmt.arguments[1].Identifier? && stmt.arguments[1].name in env.ssaValues
      && env.knowledge.knownToBeZero(stmt.arguments[1].name)
      && stmt.arguments[2].Identifier? && stmt.arguments[2].name in env.ssaValues
      && env.ssaValues[stmt.arguments[2].name].FunctionCall?
      && ToEvmInstruction(env.dialect, env.ssaValues[stmt.arguments[2].name].functionName) == Some(RETURNDATASIZE)
  {
    match stmt
    case ExpressionStatement(name, arguments) =>
      if StoreAccepted(env, name, arguments) then Some(OperationsFromFunctionCall(env, name, arguments)[0])
      else None
    case _ => None
  }

  /** The control-flow side effects of a callee: the builtin's, else the collected ones. */
  function CalleeControlFlow(env: Environment, name: Name): (r: ControlFlowSideEffects)
    requires name in env.dialect.builtins || name in env.controlFlowSideEffects
    ensures name in env.dialect.builtins ==> r == env.dialect.builtins[name].controlFlowSideEffects
    ensures name !in env.dialect.builtins ==> r == env.controlFlowSideEffects[name]
  {
    if name in env.dialect.builtins then env.dialect.builtins[name].controlFlowSideEffects
    else env.controlFlowSideEffects[name]
  }
}
