/**
 * The bookkeeping of the unused-store pass as values: the active stores of each
 * location and the stores proven used.  These functions state what each update of
 * the pass does; the methods of `UnusedStoreEliminator` are proved to perform them.
 */
module ActiveStores {
  import opened Yul
  import opened Evm
  import opened StoreAlias

  datatype Bookkeeping = Bookkeeping(activeMemory: set<StmtId>, activeStorage: set<StmtId>, used: set<StmtId>)
  {
    function Active(location: Location): set<StmtId>
    {
      if location == Memory then activeMemory else activeStorage
    }

    function WithActive(location: Location, s: set<StmtId>): (r: Bookkeeping)
      ensures r.Active(location) == s && r.Active(OtherLocation(location)) == Active(OtherLocation(location))
      ensures r.used == used
    {
      if location == Memory then this.(activeMemory := s) else this.(activeStorage := s)
    }
  }

  function OtherLocation(location: Location): Location
  {
    if location == Memory then Storage else Memory
  }

  /**
   * Every active store has a recorded operation, and it sits in the active set of
   * that operation's location.
   */
  predicate Recorded(b: Bookkeeping, storeOperations: map<StmtId, Operation>)
  {
    && b.activeMemory + b.activeStorage <= storeOperations.Keys
    && (forall s :: s in b.activeMemory ==> storeOperations[s].location == Memory)
    && (forall s :: s in b.activeStorage ==> storeOperations[s].location == Storage)
  }

  /** No store is active on both locations. */
  lemma RecordedStoresHaveOneLocation(b: Bookkeeping, storeOperations: map<StmtId, Operation>, s: StmtId)
    requires Recorded(b, storeOperations)
    requires s in b.Active(Memory) + b.Active(Storage)
    ensures s in b.Active(storeOperations[s].location)
    ensures s !in b.Active(OtherLocation(storeOperations[s].location))
  {
  }

  /** The active stores `op` reads from: those not known to be unrelated to a read. */
  function ReadFrom(k: Knowledge, storeOperations: map<StmtId, Operation>, active: set<StmtId>, op: Operation): set<StmtId>
    requires active <= storeOperations.Keys
  {
    set s | s in active && op.effect == Read && !KnownUnrelated(k, storeOperations[s], op)
  }

  /** The active stores `op` overwrites: those known to be covered by a write. */
  function Overwritten(k: Knowledge, storeOperations: map<StmtId, Operation>, active: set<StmtId>, op: Operation): set<StmtId>
    requires active <= storeOperations.Keys
  {
    set s | s in active && op.effect == Write && KnownCovered(k, storeOperations[s], op)
  }

  /**
   * The effect of one operation on the active stores of its location: a read
   * moves every store it may observe into used; a write retires every store it
   * covers without using it.  Only the active set of the operation's own location
   * changes, and that set only shrinks.
   */
  function ApplyOperation(k: Knowledge, storeOperations: map<StmtId, Operation>, b: Bookkeeping, op: Operation): (r: Bookkeeping)
    requires Recorded(b, storeOperations)
    ensures Recorded(r, storeOperations)
    ensures r.Active(op.location) <= b.Active(op.location)
    ensures r.Active(OtherLocation(op.location)) == b.Active(OtherLocation(op.location))
    ensures op.effect == Read ==> r.used == b.used + (b.Active(op.location) - r.Active(op.location))
    ensures op.effect != Read ==> r.used == b.used
    ensures op.effect == NoEffect ==> r == b
    ensures forall s :: s in b.Active(op.location) ==>
      (s in r.Active(op.location) <==>
        !(op.effect == Read && !KnownUnrelated(k, storeOperations[s], op))
        && !(op.effect == Write && KnownCovered(k, storeOperations[s], op)))
  {
    var active := b.Active(op.location);
    var read := ReadFrom(k, storeOperations, active, op);
    var overwritten := Overwritten(k, storeOperations, active, op);
    b.WithActive(op.location, active - read - overwritten).(used := b.used + read)
  }

  /**
   * After a read, every store still active on the read's location is disjoint
   * from it at run time: a read never lets a store it may observe stay unused.
   */
  lemma ReadLeavesOnlyDisjointStores(
    k: Knowledge, val: Valuation, storeOperations: map<StmtId, Operation>, b: Bookkeeping, op: Operation, s: StmtId)
    requires Sound(k, val)
    requires Recorded(b, storeOperations)
    requires op.effect == Read
    requires s in ApplyOperation(k, storeOperations, b, op).Active(op.location)
    ensures storeOperations[s].location == op.location
    ensures Disjoint(val, storeOperations[s], op)
  {
    assert s in b.Active(op.location);
    assert storeOperations[s].location == op.location;
    assert KnownUnrelated(k, storeOperations[s], op);
    KnownUnrelatedSound(k, val, storeOperations[s], op);
  }

  /**
   * A store a write retires is entirely overwritten at run time: every byte or
   * slot it may have written is written again.
   */
  lemma WriteRetiresOnlyCoveredStores(
    k: Knowledge, val: Valuation, storeOperations: map<StmtId, Operation>, b: Bookkeeping, op: Operation, s: StmtId)
    requires Sound(k, val)
    requires Recorded(b, storeOperations)
    requires op.effect == Write
    requires s in b.Active(op.location) && s !in ApplyOperation(k, storeOperations, b, op).Active(op.location)
    ensures s !in ApplyOperation(k, storeOperations, b, op).used || s in b.used
    ensures Covers(val, op, storeOperations[s])
  {
    assert KnownCovered(k, storeOperations[s], op);
    KnownCoveredSound(k, val, storeOperations[s], op);
  }

  /** The operations of one call applied in order. */
  function ApplyOperations(k: Knowledge, storeOperations: map<StmtId, Operation>, b: Bookkeeping, ops: seq<Operation>): (r: Bookkeeping)
    requires Recorded(b, storeOperations)
    ensures Recorded(r, storeOperations)
    ensures r.activeMemory <= b.activeMemory && r.activeStorage <= b.activeStorage
    ensures b.used <= r.used
    ensures r.used - b.used <= b.activeMemory + b.activeStorage
    decreases |ops|
  {
    if ops == [] then b
    else ApplyOperation(k, storeOperations, ApplyOperations(k, storeOperations, b, ops[..|ops| - 1]), ops[|ops| - 1])
  }

  /** `only` selects `location`: no location given means both. */
  predicate Selects(only: Option<Location>, location: Location)
  {
    only.None? || only == Some(location)
  }

  function Selected(b: Bookkeeping, only: Option<Location>): (r: set<StmtId>)
    ensures r <= b.activeMemory + b.activeStorage
  {
    (if Selects(only, Memory) then b.activeMemory else {}) + (if Selects(only, Storage) then b.activeStorage else {})
  }

  /** Forgets the active stores of the selected locations without using them. */
  function ClearActive(b: Bookkeeping, only: Option<Location>): (r: Bookkeeping)
    ensures r.used == b.used
    ensures forall location :: r.Active(location) == if Selects(only, location) then {} else b.Active(location)
  {
    Bookkeeping(
      if Selects(only, Memory) then {} else b.activeMemory,
      if Selects(only, Storage) then {} else b.activeStorage,
      b.used)
  }

  /** Uses exactly the active stores of the selected locations, then forgets them. */
  function MarkActiveAsUsed(b: Bookkeeping, only: Option<Location>): (r: Bookkeeping)
    ensures forall s :: s in r.used <==> s in b.used || exists location :: Selects(only, location) && s in b.Active(location)
    ensures forall location :: r.Active(location) == if Selects(only, location) then {} else b.Active(location)
  {
    ClearActive(b.(used := b.used + Selected(b, only)), only)
  }

  /**
   * The flush after a call: a callee that can terminate uses the pending storage
   * stores; one that cannot continue forgets the pending memory stores, and if it
   * cannot terminate either (it always reverts) also the pending storage stores.
   */
  function AfterCall(b: Bookkeeping, cf: ControlFlowSideEffects): (r: Bookkeeping)
    ensures r.used == b.used + (if cf.canTerminate then b.activeStorage else {})
    ensures r.activeMemory == if cf.canContinue then b.activeMemory else {}
    ensures r.activeStorage == if cf.canContinue && !cf.canTerminate then b.activeStorage else {}
  {
    var b1 := if cf.canTerminate then MarkActiveAsUsed(b, Some(Storage)) else b;
    if cf.canContinue then b1
    else
      var b2 := ClearActive(b1, Some(Memory));
      if cf.canTerminate then b2 else ClearActive(b2, Some(Storage))
  }

  /**
   * The flush at the end of the program: pending storage stores are used; pending
   * memory stores are forgotten for an EVM dialect with object access and used
   * otherwise.
   */
  function Finalize(b: Bookkeeping, evmWithObjectAccess: bool): (r: Bookkeeping)
    ensures r.activeMemory == {} && r.activeStorage == {}
    ensures r.used == b.used + b.activeStorage + (if evmWithObjectAccess then {} else b.activeMemory)
  {
    var b1 := if evmWithObjectAccess then ClearActive(b, Some(Memory)) else MarkActiveAsUsed(b, Some(Memory));
    MarkActiveAsUsed(b1, Some(Storage))
  }
}
