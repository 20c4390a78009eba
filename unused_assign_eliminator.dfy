/**
 * The unused-assignment pass: it tracks, per variable, the assignments whose value
 * may still be read, and removes every movable assignment that was never used
 * before being overwritten or going out of scope.
 *
 * As for the store pass, only the pass's own hooks are modelled; the walker that
 * calls them (and its handling of branches and loops) is not.
 */
module AssignEliminator {
  import opened Yul

  /** Every assignment any of `names` has active in `active`. */
  function Collect(active: map<Name, set<StmtId>>, names: set<Name>): (r: set<StmtId>)
    ensures forall s :: s in r <==> exists v :: v in names && v in active && s in active[v]
  {
    set v, s | v in names && v in active && s in active[v] :: s
  }

  /** What `active` holds for `v`, empty when `v` has no entry. */
  function ActiveOf(active: map<Name, set<StmtId>>, v: Name): set<StmtId>
  {
    if v in active then active[v] else {}
  }

  /** The identifiers an expression refers to; a call's function name is not one of them. */
  function ReferencedNames(e: Expression): set<Name>
    decreases e
  {
    match e
    case Identifier(name) => {name}
    case Literal(_) => {}
    case FunctionCall(_, arguments) => ReferencedNamesFrom(arguments, 0)
  }

  /** The identifiers the arguments from index `i` on refer to. */
  function ReferencedNamesFrom(arguments: seq<Expression>, i: nat): set<Name>
    requires i <= |arguments|
    decreases arguments, |arguments| - i
  {
    if i == |arguments| then {}
    else ReferencedNames(arguments[i]) + ReferencedNamesFrom(arguments, i + 1)
  }

  /** The names occurring in a sequence. */
  function NamesOf(names: seq<Name>): set<Name>
  {
    set v | v in names
  }

  lemma NamesOfAppend(names: seq<Name>, x: Name)
    ensures NamesOf(names + [x]) == NamesOf(names) + {x}
  {
    assert forall v :: v in names + [x] <==> v in names || v == x;
  }

  /** The map with every name of `variables` bound to `stores`. */
  function Overwrite(active: map<Name, set<StmtId>>, variables: seq<Name>, stores: set<StmtId>): (r: map<Name, set<StmtId>>)
    ensures r.Keys == active.Keys + NamesOf(variables)
    ensures forall v :: v in variables ==> r[v] == stores
    ensures forall v :: v in active && v !in variables ==> r[v] == active[v]
  {
    map v | v in active.Keys + NamesOf(variables) :: if v in variables then stores else active[v]
  }

  /** Binding one more variable. */
  lemma OverwriteAppend(active: map<Name, set<StmtId>>, variables: seq<Name>, x: Name, stores: set<StmtId>)
    ensures Overwrite(active, variables + [x], stores) == Overwrite(active, variables, stores)[x := stores]
  {
    NamesOfAppend(variables, x);
    var l, r := Overwrite(active, variables + [x], stores), Overwrite(active, variables, stores)[x := stores];
    assert l.Keys == r.Keys;
    forall v | v in l.Keys ensures l[v] == r[v] {
      if v != x && v !in variables {
        assert v !in variables + [x];
      }
    }
  }

  /** The names declared by the variable declarations directly in `statements`. */
  function DeclaredNames(statements: seq<Statement>): (r: set<Name>)
    ensures forall i, v ::
      (0 <= i < |statements| && statements[i].VariableDeclaration? && v in statements[i].variables) ==> v in r
  {
    set i, v | 0 <= i < |statements| && statements[i].VariableDeclaration? && v in statements[i].variables :: v
  }

  /** The active assignments that are not also active for the same variable in `zeroRuns`. */
  function NewInLoop(active: map<Name, set<StmtId>>, zeroRuns: map<Name, set<StmtId>>): (r: set<StmtId>)
    ensures forall v, s :: v in active && s in active[v] && !(v in zeroRuns && s in zeroRuns[v]) ==> s in r
    ensures r <= Collect(active, active.Keys)
  {
    set v, s | v in active && s in active[v] && !(v in zeroRuns && s in zeroRuns[v]) :: s
  }

  /** Using the assignments of `a` and then of `b` uses those of both. */
  lemma CollectSplit(active: map<Name, set<StmtId>>, a: set<Name>, b: set<Name>)
    ensures Collect(active - a, b) + Collect(active, a) == Collect(active, a + b)
  {
    forall s | s in Collect(active, a + b)
      ensures s in Collect(active - a, b) + Collect(active, a)
    {
      var v :| v in a + b && v in active && s in active[v];
      if v !in a {
        assert v in active - a && s in (active - a)[v];
      }
    }
  }

  lemma CollectOne(active: map<Name, set<StmtId>>, v: Name)
    ensures Collect(active, {v}) == ActiveOf(active, v)
  {
  }

  class UnusedAssignEliminator {
    var activeStores: map<Name, set<StmtId>>
    var usedStores: set<StmtId>
    var allStores: set<StmtId>
    var storesToRemove: set<StmtId>
    var returnVariables: set<Name>

    /** Active and used assignments are recorded assignments. */
    ghost predicate Valid()
      reads this
    {
      && usedStores <= allStores
      && forall v :: v in activeStores ==> activeStores[v] <= allStores
    }

    constructor ()
      ensures Valid()
      ensures activeStores == map[] && usedStores == {} && allStores == {}
      ensures storesToRemove == {} && returnVariables == {}
    {
      activeStores := map[];
      usedStores, allStores := {}, {};
      storesToRemove, returnVariables := {}, {};
    }

    /** Uses every assignment active for `v` and drops the entry of `v`. */
    method MarkUsed(v: Name)
      requires Valid()
      modifies this
      ensures Valid()
      ensures usedStores == old(usedStores) + ActiveOf(old(activeStores), v)
      ensures activeStores == old(activeStores) - {v}
      ensures allStores == old(allStores) && storesToRemove == old(storesToRemove)
      ensures returnVariables == old(returnVariables)
    {
      var assignments := ActiveOf(activeStores, v);
      var todo := assignments;
      while todo != {}
        invariant todo <= assignments
        invariant usedStores == old(usedStores) + (assignments - todo)
        invariant activeStores == old(activeStores) && allStores == old(allStores)
        invariant storesToRemove == old(storesToRemove) && returnVariables == old(returnVariables)
        decreases todo
      {
        var a :| a in todo;
        usedStores := usedStores + {a};
        todo := todo - {a};
      }
      activeStores := activeStores - {v};
    }

    /** A reference to an identifier uses its active assignments. */
    method VisitIdentifier(name: Name)
      requires Valid()
      modifies this
      ensures Valid()
      ensures usedStores == old(usedStores) + ActiveOf(old(activeStores), name)
      ensures activeStores == old(activeStores) - {name}
      ensures allStores == old(allStores) && storesToRemove == old(storesToRemove)
      ensures returnVariables == old(returnVariables)
    {
      MarkUsed(name);
    }

    /**
     * The walk of an expression: every identifier it refers to is used; the name
     * of a called function is not visited.  Arguments are walked right to left.
     */
    method VisitExpression(e: Expression)
      requires Valid()
      modifies this
      ensures Valid()
      ensures usedStores == old(usedStores) + Collect(old(activeStores), ReferencedNames(e))
      ensures activeStores == old(activeStores) - ReferencedNames(e)
      ensures allStores == old(allStores) && storesToRemove == old(storesToRemove)
      ensures returnVariables == old(returnVariables)
      decreases e
    {
      match e
      case Identifier(name) =>
        CollectOne(activeStores, name);
        VisitIdentifier(name);
      case Literal(_) =>
      case FunctionCall(_, arguments) =>
        var i := |arguments|;
        while i > 0
          invariant 0 <= i <= |arguments|
          invariant Valid()
          invariant usedStores == old(usedStores) + Collect(old(activeStores), ReferencedNamesFrom(arguments, i))
          invariant activeStores == old(activeStores) - ReferencedNamesFrom(arguments, i)
          invariant allStores == old(allStores) && storesToRemove == old(storesToRemove)
          invariant returnVariables == old(returnVariables)
          decreases i
        {
          ghost var done := ReferencedNamesFrom(arguments, i);
          ghost var next := ReferencedNames(arguments[i - 1]);
          VisitExpression(arguments[i - 1]);
          CollectSplit(old(activeStores), done, next);
          assert ReferencedNamesFrom(arguments, i - 1) == next + done;
          assert old(activeStores) - done - next == old(activeStores) - (done + next);
          i := i - 1;
        }
    }

    /**
     * An assignment statement: its value is walked (its targets are not uses);
     * then a movable assignment becomes the only active assignment of each
     * target, and a non-movable one leaves each target with none.  Either way the
     * targets' earlier assignments are dropped without being used.
     */
    method VisitAssignment(id: StmtId, variableNames: seq<Name>, value: Expression, movable: bool)
      requires Valid()
      modifies this
      ensures Valid()
      ensures allStores == old(allStores) + (if movable then {id} else {})
      ensures usedStores == old(usedStores) + Collect(old(activeStores), ReferencedNames(value))
      ensures activeStores ==
        Overwrite(old(activeStores) - ReferencedNames(value), variableNames, if movable then {id} else {})
      ensures storesToRemove == old(storesToRemove) && returnVariables == old(returnVariables)
    {
      VisitExpression(value);
      ghost var afterValue := activeStores;
      var stores: set<StmtId> := {};
      if movable {
        allStores := allStores + {id};
        stores := {id};
      }
      for i := 0 to |variableNames|
        invariant Valid()
        invariant activeStores == Overwrite(afterValue, variableNames[..i], stores)
        invariant allStores == old(allStores) + stores
        invariant usedStores == old(usedStores) + Collect(old(activeStores), ReferencedNames(value))
        invariant storesToRemove == old(storesToRemove) && returnVariables == old(returnVariables)
      {
        assert variableNames[..i + 1] == variableNames[..i] + [variableNames[i]];
        OverwriteAppend(afterValue, variableNames[..i], variableNames[i], stores);
        activeStores := activeStores[variableNames[i] := stores];
      }
      assert variableNames[..|variableNames|] == variableNames;
    }

    /** `leave` uses the active assignments of every return variable of the current function. */
    method VisitLeave()
      requires Valid()
      modifies this
      ensures Valid()
      ensures usedStores == old(usedStores) + Collect(old(activeStores), returnVariables)
      ensures activeStores == old(activeStores) - returnVariables
      ensures allStores == old(allStores) && storesToRemove == old(storesToRemove)
      ensures returnVariables == old(returnVariables)
    {
      var todo := returnVariables;
      while todo != {}
        invariant todo <= returnVariables
        invariant Valid()
        invariant usedStores == old(usedStores) + Collect(old(activeStores), returnVariables - todo)
        invariant activeStores == old(activeStores) - (returnVariables - todo)
        invariant allStores == old(allStores) && storesToRemove == old(storesToRemove)
        invariant returnVariables == old(returnVariables)
        decreases todo
      {
        var name :| name in todo;
        ghost var done := returnVariables - todo;
        CollectOne(activeStores, name);
        MarkUsed(name);
        CollectSplit(old(activeStores), done, {name});
        assert returnVariables - (todo - {name}) == done + {name};
        assert old(activeStores) - done - {name} == old(activeStores) - (done + {name});
        todo := todo - {name};
      }
    }

    /**
     * Entering a function definition: save the enclosing function's return
     * variables and make the new function's the current ones.
     */
    method EnterFunctionDefinition(functionReturnVariables: seq<Name>) returns (outer: set<Name>)
      requires Valid()
      modifies this
      ensures Valid()
      ensures outer == old(returnVariables)
      ensures returnVariables == NamesOf(functionReturnVariables)
      ensures activeStores == old(activeStores) && usedStores == old(usedStores)
      ensures allStores == old(allStores) && storesToRemove == old(storesToRemove)
    {
      outer := returnVariables;
      returnVariables := {};
      for i := 0 to |functionReturnVariables|
        invariant returnVariables == NamesOf(functionReturnVariables[..i])
        invariant activeStores == old(activeStores) && usedStores == old(usedStores)
        invariant allStores == old(allStores) && storesToRemove == old(storesToRemove)
      {
        assert functionReturnVariables[..i + 1] == functionReturnVariables[..i] + [functionReturnVariables[i]];
        NamesOfAppend(functionReturnVariables[..i], functionReturnVariables[i]);
        returnVariables := returnVariables + {functionReturnVariables[i]};
      }
      assert functionReturnVariables[..|functionReturnVariables|] == functionReturnVariables;
    }

    /** Leaving a function definition: the enclosing function's return variables are current again. */
    method ExitFunctionDefinition(outer: set<Name>)
      requires Valid()
      modifies this
      ensures Valid()
      ensures returnVariables == outer
      ensures activeStores == old(activeStores) && usedStores == old(usedStores)
      ensures allStores == old(allStores) && storesToRemove == old(storesToRemove)
    {
      returnVariables := outer;
    }

    /** At the end of a function body, its return variables' active assignments are used. */
    method FinalizeFunctionDefinition(functionReturnVariables: seq<Name>)
      requires Valid()
      modifies this
      ensures Valid()
      ensures usedStores == old(usedStores) + Collect(old(activeStores), NamesOf(functionReturnVariables))
      ensures activeStores == old(activeStores) - NamesOf(functionReturnVariables)
      ensures allStores == old(allStores) && storesToRemove == old(storesToRemove)
      ensures returnVariables == old(returnVariables)
    {
      for i := 0 to |functionReturnVariables|
        invariant Valid()
        invariant usedStores == old(usedStores) + Collect(old(activeStores), NamesOf(functionReturnVariables[..i]))
        invariant activeStores == old(activeStores) - NamesOf(functionReturnVariables[..i])
        invariant allStores == old(allStores) && storesToRemove == old(storesToRemove)
        invariant returnVariables == old(returnVariables)
      {
        ghost var done := NamesOf(functionReturnVariables[..i]);
        var name := functionReturnVariables[i];
        CollectOne(activeStores, name);
        MarkUsed(name);
        CollectSplit(old(activeStores), done, {name});
        assert functionReturnVariables[..i + 1] == functionReturnVariables[..i] + [name];
        NamesOfAppend(functionReturnVariables[..i], name);
        assert old(activeStores) - done - {name} == old(activeStores) - (done + {name});
      }
      assert functionReturnVariables[..|functionReturnVariables|] == functionReturnVariables;
    }

    /**
     * After a block: the variables it declares directly go out of scope, so their
     * active assignments are dropped without being used.
     */
    method EndBlock(statements: seq<Statement>)
      requires Valid()
      modifies this
      ensures Valid()
      ensures activeStores == old(activeStores) - DeclaredNames(statements)
      ensures usedStores == old(usedStores) && allStores == old(allStores)
      ensures storesToRemove == old(storesToRemove) && returnVariables == old(returnVariables)
    {
      for i := 0 to |statements|
        invariant Valid()
        invariant activeStores == old(activeStores) - DeclaredNames(statements[..i])
        invariant usedStores == old(usedStores) && allStores == old(allStores)
        invariant storesToRemove == old(storesToRemove) && returnVariables == old(returnVariables)
      {
        assert statements[..i + 1] == statements[..i] + [statements[i]];
        ghost var before := DeclaredNames(statements[..i]);
        if statements[i].VariableDeclaration? {
          var variables := statements[i].variables;
          for j := 0 to |variables|
            invariant Valid()
            invariant activeStores == old(activeStores) - (before + NamesOf(variables[..j]))
            invariant usedStores == old(usedStores) && allStores == old(allStores)
            invariant storesToRemove == old(storesToRemove) && returnVariables == old(returnVariables)
          {
            assert variables[..j + 1] == variables[..j] + [variables[j]];
            NamesOfAppend(variables[..j], variables[j]);
            activeStores := activeStores - {variables[j]};
          }
          assert variables[..|variables|] == variables;
          assert DeclaredNames(statements[..i + 1]) == before + NamesOf(variables);
        } else {
          assert DeclaredNames(statements[..i + 1]) == before;
        }
      }
      assert statements[..|statements|] == statements;
    }

    /**
     * The shortcut for nested loops: every active assignment that is not also
     * active for the same variable in `zeroRuns` is used.  The active map is kept.
     */
    method ShortcutNestedLoop(zeroRuns: map<Name, set<StmtId>>)
      requires Valid()
      modifies this
      ensures Valid()
      ensures usedStores == old(usedStores) + NewInLoop(activeStores, zeroRuns)
      ensures activeStores == old(activeStores) && allStores == old(allStores)
      ensures storesToRemove == old(storesToRemove) && returnVariables == old(returnVariables)
    {
      var variables := activeStores.Keys;
      while variables != {}
        invariant variables <= activeStores.Keys
        invariant Valid()
        invariant usedStores == old(usedStores) + NewInLoop(activeStores - variables, zeroRuns)
        invariant activeStores == old(activeStores) && allStores == old(allStores)
        invariant storesToRemove == old(storesToRemove) && returnVariables == old(returnVariables)
        decreases variables
      {
        var variable :| variable in variables;
        ghost var doneVariables := activeStores - variables;
        var stores := activeStores[variable];
        var todo := stores;
        while todo != {}
          invariant todo <= stores
          invariant Valid()
          invariant usedStores == old(usedStores) + NewInLoop(doneVariables, zeroRuns)
            + (set s | s in stores - todo && !(variable in zeroRuns && s in zeroRuns[variable]))
          invariant activeStores == old(activeStores) && allStores == old(allStores)
          invariant storesToRemove == old(storesToRemove) && returnVariables == old(returnVariables)
          decreases todo
        {
          var assignment :| assignment in todo;
          if !(variable in zeroRuns && assignment in zeroRuns[variable]) {
            usedStores := usedStores + {assignment};
          }
          todo := todo - {assignment};
        }
        assert NewInLoop(activeStores - (variables - {variable}), zeroRuns)
          == NewInLoop(doneVariables, zeroRuns)
             + (set s | s in stores && !(variable in zeroRuns && s in zeroRuns[variable]));
        variables := variables - {variable};
      }
      assert activeStores - {} == activeStores;
    }

    /**
     * The end of the pass: every recorded assignment that was never used joins the
     * statements to remove; no used assignment is added.
     */
    method Finish() returns (toRemove: set<StmtId>)
      requires Valid()
      modifies this
      ensures Valid()
      ensures storesToRemove == old(storesToRemove) + (allStores - usedStores)
      ensures toRemove == storesToRemove
      ensures allStores - usedStores <= toRemove
      ensures (toRemove - old(storesToRemove)) !! usedStores
      ensures activeStores == old(activeStores) && usedStores == old(usedStores) && allStores == old(allStores)
      ensures returnVariables == old(returnVariables)
    {
      storesToRemove := storesToRemove + (allStores - usedStores);
      toRemove := storesToRemove;
    }
  }
}
