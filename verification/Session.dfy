/**
 A database session as the repair scripts use it: statements change the current
 state, savepoints nest, commit makes the current state durable, and rollback
 returns to the last durable state and forgets every savepoint.
 */
module Sessions {

  class Session<S> {
    var current: S
    var durable: S
    var savepoints: seq<S>

    constructor (s: S)
      ensures current == s && durable == s && savepoints == []
    {
      current, durable, savepoints := s, s, [];
    }

    method Write(s: S)
      modifies this`current
      ensures current == s
    {
      current := s;
    }

    /** begin_nested() */
    method BeginNested()
      modifies this`savepoints
      ensures savepoints == old(savepoints) + [current]
    {
      savepoints := savepoints + [current];
    }

    /** savepoint.commit(): keep the work, forget the savepoint. */
    method ReleaseSavepoint()
      requires savepoints != []
      modifies this`savepoints
      ensures savepoints == old(savepoints)[..|old(savepoints)| - 1]
    {
      savepoints := savepoints[..|savepoints| - 1];
    }

    /** savepoint.rollback(): undo the work since the savepoint and forget it. */
    method RollbackToSavepoint()
      requires savepoints != []
      modifies this`current, this`savepoints
      ensures current == old(savepoints)[|old(savepoints)| - 1]
      ensures savepoints == old(savepoints)[..|old(savepoints)| - 1]
    {
      current := savepoints[|savepoints| - 1];
      savepoints := savepoints[..|savepoints| - 1];
    }

    method Commit()
      modifies this
      ensures current == old(current) && durable == current && savepoints == []
    {
      durable, savepoints := current, [];
    }

    method Rollback()
      modifies this
      ensures durable == old(durable) && current == durable && savepoints == []
    {
      current, savepoints := durable, [];
    }
  }
}
