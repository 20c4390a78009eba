/**
 * The unused-store pass as the object the walker drives: its fields are the
 * pass's bookkeeping, its methods the hooks the walker calls.  The operation,
 * flush and finalisation methods are proved to perform the corresponding update
 * of module `ActiveStores`; `Visit`, the function-definition hooks and the
 * constructor state their new state directly.
 *
 * The walker itself (statement order, branches, loops and their joins) is not
 * modelled: a caller invokes `VisitFunctionCall` for every call in evaluation
 * order, `Visit` after each statement, `VisitLeave` at `leave`,
 * `ShortcutNestedLoop` where it cuts a nested loop short, brackets each function
 * body with `EnterFunctionDefinition` / `ExitFunctionDefinition` and calls
 * `FinalizeFunctionDefinition` at the end of the body before leaving it, and
 * calls `Finish` once at the end.
 */
module StoreEliminator {
  import opened Yul
  import opened Evm
  import opened StoreAlias
  import opened StoreOperations
  import ActiveStores

  /** What is saved while a function body is walked. */
  datatype Frame = Frame(activeMemory: set<StmtId>, activeStorage: set<StmtId>, storeOperations: map<StmtId, Operation>)
  {
    /** The saved active stores are recorded, each in the set of its own location. */
    predicate Recorded()
    {
      ActiveStores.Recorded(ActiveStores.Bookkeeping(activeMemory, activeStorage, {}), storeOperations)
    }
  }

  /**
   * In every consistent state of the pass, each active store's recorded operation
   * is on the location of its set, so no store is active on both locations.
   */
  lemma ActiveStoresSitOnTheirLocation(pass: UnusedStoreEliminator, s: StmtId)
    requires pass.Valid()
    ensures s in pass.activeMemory ==> pass.storeOperations[s].location == Memory
    ensures s in pass.activeStorage ==> pass.storeOperations[s].location == Storage
    ensures !(s in pass.activeMemory && s in pass.activeStorage)
  {
  }

  class UnusedStoreEliminator {
    const env: Environment
    var activeMemory: set<StmtId>
    var activeStorage: set<StmtId>
    var allStores: set<StmtId>
    var usedStores: set<StmtId>
    var storeOperations: map<StmtId, Operation>

    /**
     * Active stores are recorded stores with an operation on the location of
     * their set; used stores are recorded stores.
     */
    ghost predicate Valid()
      reads this
    {
      && ActiveStores.Recorded(Snapshot(), storeOperations)
      && activeMemory + activeStorage <= allStores
      && usedStores <= allStores
    }

    function Snapshot(): ActiveStores.Bookkeeping
      reads this
    {
      ActiveStores.Bookkeeping(activeMemory, activeStorage, usedStores)
    }

    constructor (env: Environment)
      ensures Valid() && this.env == env
      ensures activeMemory == {} && activeStorage == {} && allStores == {} && usedStores == {}
      ensures storeOperations == map[]
    {
      this.env := env;
      activeMemory, activeStorage := {}, {};
      allStores, usedStores := {}, {};
      storeOperations := map[];
    }

    /**
     * Resolves one operation against the active stores of its location, collecting
     * the stores to retire in a loop and removing them afterwards.
     */
    method ApplyOperation(op: Operation)
      requires Valid()
      modifies this
      ensures Valid()
      ensures allStores == old(allStores) && storeOperations == old(storeOperations)
      ensures Snapshot() == ActiveStores.ApplyOperation(env.knowledge, storeOperations, old(Snapshot()), op)
    {
      var k := env.knowledge;
      var active := if op.location == Storage then activeStorage else activeMemory;
      var toRemove: set<StmtId> := {};
      var todo := active;
      while todo != {}
        invariant todo <= active
        invariant activeMemory == old(activeMemory) && activeStorage == old(activeStorage)
        invariant allStores == old(allStores) && storeOperations == old(storeOperations)
        invariant toRemove == ActiveStores.ReadFrom(k, storeOperations, active - todo, op)
                              + ActiveStores.Overwritten(k, storeOperations, active - todo, op)
        invariant usedStores == old(usedStores) + ActiveStores.ReadFrom(k, storeOperations, active - todo, op)
        decreases todo
      {
        var s :| s in todo;
        var storeOperation := storeOperations[s];
        ghost var done := active - todo;
        assert active - (todo - {s}) == done + {s};
        if op.effect == Read && !KnownUnrelated(k, storeOperation, op) {
          usedStores := usedStores + {s};
          toRemove := toRemove + {s};
        } else if op.effect == Write && KnownCovered(k, storeOperation, op) {
          toRemove := toRemove + {s};
        }
        todo := todo - {s};
      }
      assert active - todo == active;
      if op.location == Storage {
        activeStorage := activeStorage - toRemove;
      } else {
        activeMemory := activeMemory - toRemove;
      }
    }

    /** Moves the active stores of the selected locations into used, then forgets them. */
    method MarkActiveAsUsed(only: Option<Location>)
      requires Valid()
      modifies this
      ensures Valid()
      ensures Snapshot() == ActiveStores.MarkActiveAsUsed(old(Snapshot()), only)
      ensures allStores == old(allStores) && storeOperations == old(storeOperations)
    {
      if ActiveStores.Selects(only, Memory) {
        var todo := activeMemory;
        while todo != {}
          invariant todo <= activeMemory
          invariant usedStores == old(usedStores) + (activeMemory - todo)
          invariant activeMemory == old(activeMemory) && activeStorage == old(activeStorage)
          invariant allStores == old(allStores) && storeOperations == old(storeOperations)
          decreases todo
        {
          var s :| s in todo;
          usedStores := usedStores + {s};
          todo := todo - {s};
        }
      }
      ghost var afterMemory := usedStores;
      if ActiveStores.Selects(only, Storage) {
        var todo := activeStorage;
        while todo != {}
          invariant todo <= activeStorage
          invariant usedStores == afterMemory + (activeStorage - todo)
          invariant activeMemory == old(activeMemory) && activeStorage == old(activeStorage)
          invariant allStores == old(allStores) && storeOperations == old(storeOperations)
          decreases todo
        {
          var s :| s in todo;
          usedStores := usedStores + {s};
          todo := todo - {s};
        }
      }
      ClearActive(only);
    }

    /** Forgets the active stores of the selected locations without using them. */
    method ClearActive(only: Option<Location>)
      requires Valid()
      modifies this
      ensures Valid()
      ensures Snapshot() == ActiveStores.ClearActive(old(Snapshot()), only)
      ensures allStores == old(allStores) && storeOperations == old(storeOperations)
    {
      if ActiveStores.Selects(only, Memory) {
        activeMemory := {};
      }
      if ActiveStores.Selects(only, Storage) {
        activeStorage := {};
      }
    }

    /**
     * The hook after a call's arguments have been walked: apply each of its
     * operations, then flush according to the callee's control-flow side effects.
     */
    method VisitFunctionCall(name: Name, arguments: seq<Expression>)
      requires Valid()
      requires CallWellFormed(env, name, arguments)
      requires name in env.dialect.builtins || name in env.controlFlowSideEffects
      modifies this
      ensures Valid()
      ensures allStores == old(allStores) && storeOperations == old(storeOperations)
      ensures Snapshot() == ActiveStores.AfterCall(
        ActiveStores.ApplyOperations(env.knowledge, storeOperations, old(Snapshot()),
          OperationsFromFunctionCall(env, name, arguments)),
        CalleeControlFlow(env, name))
    {
      var ops := OperationsFromFunctionCall(env, name, arguments);
      for i := 0 to |ops|
        invariant Valid()
        invariant allStores == old(allStores) && storeOperations == old(storeOperations)
        invariant Snapshot() == ActiveStores.ApplyOperations(env.knowledge, storeOperations, old(Snapshot()), ops[..i])
      {
        assert ops[..i + 1][..i] == ops[..i];
        ApplyOperation(ops[i]);
      }
      assert ops[..|ops|] == ops;
      var sideEffects := CalleeControlFlow(env, name);
      if sideEffects.canTerminate {
        MarkActiveAsUsed(Some(Storage));
      }
      if !sideEffects.canContinue {
        ClearActive(Some(Memory));
        if !sideEffects.canTerminate {
          ClearActive(Some(Storage));
        }
      }
    }

    /**
     * The hook after a statement has been walked: record it if it is a store
     * candidate, as an active store of its location.
     */
    method Visit(id: StmtId, stmt: Statement)
      requires Valid()
      requires StatementWellFormed(env, stmt)
      // A statement's identity is its node: a statement visited again while still
      // active is the same store, with an operation on the same location.
      requires id in activeMemory + activeStorage && CandidateOperation(env, stmt).Some? ==>
        CandidateOperation(env, stmt).value.location == storeOperations[id].location
      modifies this
      ensures Valid()
      ensures usedStores == old(usedStores)
      ensures var candidate := CandidateOperation(env, stmt);
        if candidate.Some? then
          && allStores == old(allStores) + {id}
          && storeOperations == old(storeOperations)[id := candidate.value]
          && Snapshot() == old(Snapshot()).WithActive(candidate.value.location,
               old(Snapshot()).Active(candidate.value.location) + {id})
        else
          allStores == old(allStores) && storeOperations == old(storeOperations) && Snapshot() == old(Snapshot())
    {
      var candidate := CandidateOperation(env, stmt);
      if candidate.Some? {
        var op := candidate.value;
        allStores := allStores + {id};
        if op.location == Storage {
          activeStorage := activeStorage + {id};
        } else {
          activeMemory := activeMemory + {id};
        }
        storeOperations := storeOperations[id := op];
      }
    }

    /** `leave`: every pending store, on both locations, is used. */
    method VisitLeave()
      requires Valid()
      modifies this
      ensures Valid()
      ensures Snapshot() == ActiveStores.MarkActiveAsUsed(old(Snapshot()), None)
      ensures activeMemory == {} && activeStorage == {}
      ensures usedStores == old(usedStores) + old(activeMemory) + old(activeStorage)
      ensures allStores == old(allStores) && storeOperations == old(storeOperations)
    {
      MarkActiveAsUsed(None);
    }

    /**
     * The end of a function body: the caller may read whatever is still pending,
     * so every active store of both locations is used.
     */
    method FinalizeFunctionDefinition()
      requires Valid()
      modifies this
      ensures Valid()
      ensures Snapshot() == ActiveStores.MarkActiveAsUsed(old(Snapshot()), None)
      ensures activeMemory == {} && activeStorage == {}
      ensures usedStores == old(usedStores) + old(activeMemory) + old(activeStorage)
      ensures allStores == old(allStores) && storeOperations == old(storeOperations)
    {
      MarkActiveAsUsed(None);
    }

    /**
     * The shortcut for nested loops: instead of iterating the loop again, every
     * pending store of both locations is taken as used.
     */
    method ShortcutNestedLoop()
      requires Valid()
      modifies this
      ensures Valid()
      ensures Snapshot() == ActiveStores.MarkActiveAsUsed(old(Snapshot()), None)
      ensures activeMemory == {} && activeStorage == {}
      ensures usedStores == old(usedStores) + old(activeMemory) + old(activeStorage)
      ensures allStores == old(allStores) && storeOperations == old(storeOperations)
    {
      MarkActiveAsUsed(None);
    }

    /** Entering a function body: save and clear the active stores and their operations. */
    method EnterFunctionDefinition() returns (outer: Frame)
      requires Valid()
      modifies this
      ensures Valid()
      ensures outer == Frame(old(activeMemory), old(activeStorage), old(storeOperations)) && outer.Recorded()
      ensures activeMemory == {} && activeStorage == {} && storeOperations == map[]
      ensures allStores == old(allStores) && usedStores == old(usedStores)
    {
      outer := Frame(activeMemory, activeStorage, storeOperations);
      activeMemory, activeStorage := {}, {};
      storeOperations := map[];
    }

    /** Leaving a function body: restore what was saved on entry. */
    method ExitFunctionDefinition(outer: Frame)
      requires Valid()
      requires outer.Recorded()
      requires outer.activeMemory + outer.activeStorage <= allStores
      modifies this
      ensures Valid()
      ensures activeMemory == outer.activeMemory && activeStorage == outer.activeStorage
      ensures storeOperations == outer.storeOperations
      ensures allStores == old(allStores) && usedStores == old(usedStores)
    {
      activeMemory, activeStorage := outer.activeMemory, outer.activeStorage;
      storeOperations := outer.storeOperations;
    }

    /**
     * The end of the pass: flush the pending stores and return the stores to remove,
     * every recorded store that was never used.  A pending storage store, and a
     * pending memory store unless the dialect provides object access, is never removed.
     */
    method Finish() returns (toRemove: set<StmtId>)
      requires Valid()
      modifies this
      ensures Valid()
      ensures Snapshot() == ActiveStores.Finalize(old(Snapshot()), env.dialect.evmWithObjectAccess)
      ensures toRemove == allStores - usedStores
      ensures toRemove !! usedStores && toRemove <= allStores
      ensures toRemove !! old(usedStores) && toRemove !! old(activeStorage)
      ensures !env.dialect.evmWithObjectAccess ==> toRemove !! old(activeMemory)
      ensures allStores == old(allStores) && storeOperations == old(storeOperations)
    {
      if env.dialect.evmWithObjectAccess {
        ClearActive(Some(Memory));
      } else {
        MarkActiveAsUsed(Some(Memory));
      }
      MarkActiveAsUsed(Some(Storage));
      toRemove := allStores - usedStores;
    }
  }
}
