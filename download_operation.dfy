/** The operation a download hands to the history: the goal and the units the
    download found missing, with `do` (add them in one transaction) and `undo`
    (delete them in one transaction). The TypeScript side captures `newGoal`
    and `newUnits` in two closures; here they are the fields of a value, and
    `do`/`undo` are given meaning twice: as functions on table contents
    (DoSpec, UndoSpec) and as methods that change a Database in place. */
module Operations {
  import opened Records
  import opened LocalStore

  datatype DownloadOperation = DownloadOperation(newGoal: Option<LearningGoal>, newUnits: seq<UnitOfMeaning>)

  /** The outcome of `do` on the tables `t`: `add(newGoal)` if there is one and
      `bulkAdd(newUnits)` if there are any, inside one transaction, so any
      refused write leaves nothing behind (None). */
  function DoSpec(t: Tables, op: DownloadOperation): Option<Tables> {
    var goals := if op.newGoal.Some? then InsertGoal(t.learningGoals, op.newGoal.value) else Some(t.learningGoals);
    var units := if |op.newUnits| > 0 then InsertUnits(t.unitsOfMeaning, op.newUnits) else Some(t.unitsOfMeaning);
    if goals.Some? && units.Some? then Some(Tables(goals.value, units.value)) else None
  }

  /** The outcome of `undo` on the tables `t`: `delete(newGoal.uid)` if there is
      a goal and `bulkDelete` of the new units' uids if there are any. Neither
      refuses an absent key. */
  function UndoSpec(t: Tables, op: DownloadOperation): Tables {
    Tables(
      if op.newGoal.Some? then t.learningGoals - {op.newGoal.value.uid} else t.learningGoals,
      if |op.newUnits| > 0 then t.unitsOfMeaning - Elems(Uids(op.newUnits)) else t.unitsOfMeaning)
  }

  /** Nothing of `op` is stored in `t` yet, and its units carry distinct uids. */
  predicate Applicable(t: Tables, op: DownloadOperation) {
    && (op.newGoal.Some? ==> op.newGoal.value.uid !in t.learningGoals)
    && Distinct(Uids(op.newUnits))
    && (forall k | k in Uids(op.newUnits) :: k !in t.unitsOfMeaning)
  }

  /** `do` succeeds exactly on the tables where its operation is applicable. */
  lemma DoSucceedsIff(t: Tables, op: DownloadOperation)
    ensures DoSpec(t, op).Some? <==> Applicable(t, op)
  {
    InsertUnitsSucceedsIff(t.unitsOfMeaning, op.newUnits);
  }

  /** A successful `do` adds the operation's records under their uids and
      touches no other key. */
  lemma DoAddsExactly(t: Tables, op: DownloadOperation)
    requires DoSpec(t, op).Some?
    ensures var t' := DoSpec(t, op).value;
      && t'.learningGoals.Keys == t.learningGoals.Keys + (if op.newGoal.Some? then {op.newGoal.value.uid} else {})
      && (op.newGoal.Some? ==> t'.learningGoals[op.newGoal.value.uid] == op.newGoal.value)
      && (forall k | k in t.learningGoals :: t'.learningGoals[k] == t.learningGoals[k])
      && t'.unitsOfMeaning.Keys == t.unitsOfMeaning.Keys + Elems(Uids(op.newUnits))
      && (forall i | 0 <= i < |op.newUnits| :: t'.unitsOfMeaning[op.newUnits[i].uid] == op.newUnits[i])
      && (forall k | k in t.unitsOfMeaning :: t'.unitsOfMeaning[k] == t.unitsOfMeaning[k])
  {
    if |op.newUnits| > 0 {
      InsertUnitsContents(t.unitsOfMeaning, op.newUnits);
    } else {
      assert Elems(Uids(op.newUnits)) == {};
    }
  }

  /** `do` keeps every record under its own uid. */
  lemma DoPreservesWellKeyed(t: Tables, op: DownloadOperation)
    requires WellKeyed(t) && DoSpec(t, op).Some?
    ensures WellKeyed(DoSpec(t, op).value)
  {
    DoAddsExactly(t, op);
    var t' := DoSpec(t, op).value;
    forall k | k in t'.unitsOfMeaning ensures t'.unitsOfMeaning[k].uid == k {
      if k !in t.unitsOfMeaning {
        assert k in Uids(op.newUnits);
        var i :| 0 <= i < |op.newUnits| && Uids(op.newUnits)[i] == k;
        assert t'.unitsOfMeaning[op.newUnits[i].uid] == op.newUnits[i];
      }
    }
  }

  /** `undo` right after a successful `do` gives back exactly the tables `do` started from. */
  lemma DoUndoInverse(t: Tables, op: DownloadOperation)
    requires DoSpec(t, op).Some?
    ensures UndoSpec(DoSpec(t, op).value, op) == t
  {
    DoSucceedsIff(t, op);
    DoAddsExactly(t, op);
    var back := UndoSpec(DoSpec(t, op).value, op);
    assert back.learningGoals == t.learningGoals;
    assert back.unitsOfMeaning == t.unitsOfMeaning;
  }

  /** On tables where nothing of the operation is stored yet and its uids are
      distinct, `do` succeeds and `undo` then restores both tables. */
  lemma DoThenUndoRestores(t: Tables, op: DownloadOperation)
    requires Applicable(t, op)
    ensures DoSpec(t, op).Some? && UndoSpec(DoSpec(t, op).value, op) == t
  {
    DoSucceedsIff(t, op);
    DoUndoInverse(t, op);
  }

  /** `do` again after `undo` (a redo) reproduces the tables of the first `do`. */
  lemma RedoReapplies(t: Tables, op: DownloadOperation)
    requires DoSpec(t, op).Some?
    ensures DoSpec(UndoSpec(DoSpec(t, op).value, op), op) == DoSpec(t, op)
  {
    DoUndoInverse(t, op);
  }

  /** The `do` transaction. The storage engine may abort a transaction for
      reasons outside this model (`engineFails`); like a refused write, that
      leaves both tables as they were. */
  method Do(db: Database, op: DownloadOperation, engineFails: bool) returns (ok: bool)
    requires db.Valid()
    modifies db
    ensures db.Valid()
    ensures ok == (!engineFails && DoSpec(old(db.Snapshot()), op).Some?)
    ensures db.Snapshot() == if ok then DoSpec(old(db.Snapshot()), op).value else old(db.Snapshot())
  {
    var saved := db.Snapshot();
    ok := true;
    if op.newGoal.Some? {
      ok := db.Add(op.newGoal.value);
    }
    if ok && |op.newUnits| > 0 {
      ok := db.BulkAdd(op.newUnits);
    }
    if ok && engineFails {
      ok := false;
    }
    if !ok {
      db.Restore(saved);
    }
  }

  /** The `undo` transaction; only an aborted transaction makes it fail. */
  method Undo(db: Database, op: DownloadOperation, engineFails: bool) returns (ok: bool)
    requires db.Valid()
    modifies db
    ensures db.Valid()
    ensures ok == !engineFails
    ensures db.Snapshot() == if ok then UndoSpec(old(db.Snapshot()), op) else old(db.Snapshot())
  {
    var saved := db.Snapshot();
    if op.newGoal.Some? {
      db.Delete(op.newGoal.value.uid);
    }
    if |op.newUnits| > 0 {
      db.BulkDelete(Uids(op.newUnits));
    }
    ok := !engineFails;
    if !ok {
      db.Restore(saved);
    }
  }
}
