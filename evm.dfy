/**
 * The facts about EVM instructions and the dialect that the store pass consults:
 * which builtin is which instruction, what it reads and writes, and its
 * control-flow behaviour.  The tables themselves belong to the instruction
 * semantics of the compiler and are inputs here.
 */
module Evm {
  import opened Yul

  /** The instructions the store pass names; every other opcode is `OtherInstruction`. */
  datatype Instruction =
    | SSTORE
    | MSTORE
    | MSTORE8
    | EXTCODECOPY
    | CODECOPY
    | CALLDATACOPY
    | RETURNDATACOPY
    | RETURNDATASIZE
    | OtherInstruction(opcode: nat)

  datatype Location = Memory | Storage

  /** Effect of an instruction on a location (`None` in the instruction semantics). */
  datatype Effect = NoEffect | Read | Write

  /**
   * One read or write of an instruction: which argument holds the start, and either
   * which argument holds the length or a fixed length.
   */
  datatype OperationSignature = OperationSignature(
    location: Location,
    effect: Effect,
    startParameter: Option<nat>,
    lengthParameter: Option<nat>,
    lengthConstant: Option<nat>)

  /** Per-instruction semantic tables. */
  datatype InstructionSemantics = InstructionSemantics(
    readWriteOperations: Instruction -> seq<OperationSignature>,
    memory: Instruction -> Effect,
    storage: Instruction -> Effect,
    otherState: Instruction -> Effect)

  /** The part of a function's side-effect summary the store pass reads. */
  datatype SideEffects = SideEffects(memory: Effect, storage: Effect)

  datatype ControlFlowSideEffects = ControlFlowSideEffects(canTerminate: bool, canContinue: bool)

  datatype BuiltinFunction = BuiltinFunction(
    sideEffects: SideEffects,
    controlFlowSideEffects: ControlFlowSideEffects,
    instruction: Option<Instruction>)

  /**
   * The dialect: its builtins, the instruction tables, and whether it is an EVM
   * dialect that provides object access.
   */
  datatype Dialect = Dialect(
    builtins: map<Name, BuiltinFunction>,
    semantics: InstructionSemantics,
    evmWithObjectAccess: bool)

  /** The EVM instruction a function name denotes in the dialect, if any. */
  function ToEvmInstruction(dialect: Dialect, name: Name): (r: Option<Instruction>)
    ensures r.Some? ==> name in dialect.builtins && dialect.builtins[name].instruction == r
    ensures name !in dialect.builtins ==> r.None?
  {
    if name in dialect.builtins then dialect.builtins[name].instruction else None
  }

  /**
   * Well-formedness of one signature for a call with `arity` arguments, as the
   * instruction semantics guarantee: a real effect, argument indices in range,
   * never both a length argument and a fixed length, and fixed lengths 1 or 32.
   */
  predicate SignatureFits(sig: OperationSignature, arity: nat)
  {
    && sig.effect != NoEffect
    && !(sig.lengthParameter.Some? && sig.lengthConstant.Some?)
    && (sig.startParameter.Some? ==> sig.startParameter.value < arity)
    && (sig.lengthParameter.Some? ==> sig.lengthParameter.value < arity)
    && (sig.lengthConstant.Some? ==> sig.lengthConstant.value == 1 || sig.lengthConstant.value == 32)
  }
}
