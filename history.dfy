/** The undo/redo history the database plugin provides to the application: the
    database, two in-memory stacks of operations, and `execute`, `undo` and
    `redo`. The top of a stack is its last element (`push`/`pop`). */
module History {
  import opened Records
  import opened LocalStore
  import opened Operations

  class HistoryManager {
    const db: Database
    var undoStack: seq<DownloadOperation>
    var redoStack: seq<DownloadOperation>

    /** The plugin opens the database, which holds what earlier sessions
        stored (`initial`), and starts with two empty stacks. */
    constructor (initial: Tables)
      requires WellKeyed(initial)
      ensures fresh(db) && db.Valid() && db.Snapshot() == initial
      ensures undoStack == [] && redoStack == []
    {
      db := new Database(initial);
      undoStack := [];
      redoStack := [];
    }

    /** `execute(op, undoable)`: runs `op.do()`; only when it succeeds and the
        operation is undoable, pushes it and forgets every redoable operation.
        A failed `do` changes neither stack and is reported to the caller. */
    method Execute(op: DownloadOperation, undoable: bool, engineFails: bool) returns (ok: bool)
      requires db.Valid()
      modifies this, db
      ensures db.Valid()
      ensures ok == (!engineFails && DoSpec(old(db.Snapshot()), op).Some?)
      ensures db.Snapshot() == if ok then DoSpec(old(db.Snapshot()), op).value else old(db.Snapshot())
      ensures if ok && undoable then undoStack == old(undoStack) + [op] && redoStack == []
              else undoStack == old(undoStack) && redoStack == old(redoStack)
    {
      ok := Do(db, op, engineFails);
      if !ok {
        return;
      }
      if undoable {
        undoStack := undoStack + [op];
        redoStack := [];
      }
    }

    /** `undo()`: with an empty undo stack nothing happens. Otherwise the top
        operation is popped and undone, and pushed onto the redo stack only if
        its `undo` succeeded; a failed `undo` loses the operation. */
    method Undo(engineFails: bool) returns (ok: bool)
      requires db.Valid()
      modifies this, db
      ensures db.Valid()
      ensures old(undoStack) == [] ==>
        ok && undoStack == [] && redoStack == old(redoStack) && db.Snapshot() == old(db.Snapshot())
      ensures old(undoStack) != [] ==>
        var op := old(undoStack)[|old(undoStack)| - 1];
        && ok == !engineFails
        && undoStack == old(undoStack)[..|old(undoStack)| - 1]
        && redoStack == (if ok then old(redoStack) + [op] else old(redoStack))
        && db.Snapshot() == (if ok then UndoSpec(old(db.Snapshot()), op) else old(db.Snapshot()))
    {
      if undoStack == [] {
        return true;
      }
      var op := undoStack[|undoStack| - 1];
      undoStack := undoStack[..|undoStack| - 1];
      ok := Operations.Undo(db, op, engineFails);
      if ok {
        redoStack := redoStack + [op];
      }
    }

    /** `redo()`: the mirror image of `undo()`, running the popped operation's
        `do` and pushing it back onto the undo stack if that succeeded. */
    method Redo(engineFails: bool) returns (ok: bool)
      requires db.Valid()
      modifies this, db
      ensures db.Valid()
      ensures old(redoStack) == [] ==>
        ok && redoStack == [] && undoStack == old(undoStack) && db.Snapshot() == old(db.Snapshot())
      ensures old(redoStack) != [] ==>
        var op := old(redoStack)[|old(redoStack)| - 1];
        && ok == (!engineFails && DoSpec(old(db.Snapshot()), op).Some?)
        && redoStack == old(redoStack)[..|old(redoStack)| - 1]
        && undoStack == (if ok then old(undoStack) + [op] else old(undoStack))
        && db.Snapshot() == (if ok then DoSpec(old(db.Snapshot()), op).value else old(db.Snapshot()))
    {
      if redoStack == [] {
        return true;
      }
      var op := redoStack[|redoStack| - 1];
      redoStack := redoStack[..|redoStack| - 1];
      ok := Do(db, op, engineFails);
      if ok {
        undoStack := undoStack + [op];
      }
    }
  }

  /** A successful `undo` or `redo` moves one operation between the stacks, so
      the number of operations held by the history stays the same. */
  method UndoRedoKeepHistorySize(h: HistoryManager, redo: bool, engineFails: bool) returns (ok: bool)
    requires h.db.Valid()
    modifies h, h.db
    ensures h.db.Valid()
    ensures ok ==> |h.undoStack| + |h.redoStack| == |old(h.undoStack)| + |old(h.redoStack)|
    ensures !ok ==> |h.undoStack| + |h.redoStack| == |old(h.undoStack)| + |old(h.redoStack)| - 1
  {
    if redo {
      ok := h.Redo(engineFails);
    } else {
      ok := h.Undo(engineFails);
    }
  }

  /** `undo()` followed by `redo()` on a non-empty undo stack. Whenever both
      calls succeed, both stacks end exactly as they were. If, besides, the
      storage engine aborts neither transaction and the operation on top is
      the one whose `do` turned the tables `before` into the current tables,
      both calls do succeed and both tables end as they were too. */
  method UndoThenRedoRestores(h: HistoryManager, undoFails: bool, redoFails: bool, ghost before: Tables)
    returns (undone: bool, redone: bool)
    requires h.db.Valid() && h.undoStack != []
    modifies h, h.db
    ensures h.db.Valid()
    ensures undone && redone ==> h.undoStack == old(h.undoStack) && h.redoStack == old(h.redoStack)
    ensures !undoFails && !redoFails && DoSpec(before, old(h.undoStack)[|old(h.undoStack)| - 1]) == Some(old(h.db.Snapshot())) ==>
      undone && redone && h.db.Snapshot() == old(h.db.Snapshot())
  {
    ghost var op := h.undoStack[|h.undoStack| - 1];
    ghost var tables := h.db.Snapshot();
    undone := h.Undo(undoFails);
    if DoSpec(before, op) == Some(tables) {
      DoUndoInverse(before, op);
    }
    redone := h.Redo(redoFails);
    assert old(h.undoStack)[..|old(h.undoStack)| - 1] + [op] == old(h.undoStack);
  }

  /** `undo()`, then an undoable `execute(op)`, then `redo()`, with no engine
      abort. The `execute` succeeds exactly when `op`'s `do` succeeds on the
      tables the `undo` left; it then empties the redo stack, so the `redo`
      changes nothing: `op` sits on top of what the `undo` left of the undo
      stack, and the tables are those `op`'s `do` produced. */
  method ExecuteAfterUndoDropsRedo(h: HistoryManager, op: DownloadOperation) returns (executed: bool)
    requires h.db.Valid()
    modifies h, h.db
    ensures h.db.Valid()
    ensures var u0 := old(h.undoStack);
      var u1 := if u0 == [] then [] else u0[..|u0| - 1];
      var t1 := if u0 == [] then old(h.db.Snapshot()) else UndoSpec(old(h.db.Snapshot()), u0[|u0| - 1]);
      && executed == DoSpec(t1, op).Some?
      && (executed ==> h.undoStack == u1 + [op] && h.redoStack == [] && h.db.Snapshot() == DoSpec(t1, op).value)
  {
    var undone := h.Undo(false);
    executed := h.Execute(op, true, false);
    if executed {
      var redone := h.Redo(false);
    }
  }
}
