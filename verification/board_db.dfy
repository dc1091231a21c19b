/** The tables and the open transactions as one object; each method is one statement of a transaction. */
module BoardDb {
  import opened Wrappers
  import opened BoardTx

  class Database {
    var projects: Projects
    var boards: Boards
    var txs: Txs
    ghost var log: seq<Commit>

    ghost function Model(): State
      reads this
    {
      State(projects, boards, txs, log)
    }

    constructor ()
      ensures Model() == EMPTY && Inv(Model())
    {
      projects, boards, txs, log := map[], map[], map[], [];
      new;
      EmptyInv();
    }

    method Open(t: TxId, op: Op)
      requires Inv(Model())
      modifies this
      ensures Model() == Begin(old(Model()), t, op) && Inv(Model())
    {
      hide Inv;
      BeginKeeps(Model(), t, op);
      if t in txs || (op.NewBoard? && op.status == Deleting) { return; }
      txs := txs[t := Tx(op, None, None, false, None)];
    }

    method Abort(t: TxId)
      requires Inv(Model())
      modifies this`txs
      ensures Model() == Rollback(old(Model()), t) && Inv(Model())
    {
      hide Inv;
      RollbackKeeps(Model(), t);
      txs := txs - {t};
    }

    method MustWait(t: TxId) returns (wait: bool)
      ensures wait == Blocked(txs, t)
    {
      hide WaitsFor;
      var todo := txs.Keys;
      while todo != {}
        invariant todo <= txs.Keys
        invariant forall u :: u in txs && u !in todo ==> !WaitsFor(txs, t, u)
        decreases todo
      {
        var u :| u in todo;
        todo := todo - {u};
        if WaitsFor(txs, t, u) { return true; }
      }
      return false;
    }

    // SELECT ... FOR UPDATE of a live project of the workspace.
    method LockProject(t: TxId, id: Id)
      requires Inv(Model()) && t in txs && !Blocked(txs, t) && NextLock(txs[t]) == Some(ProjectRow(id))
      modifies this`txs
      ensures Model() == Lock(old(Model()), t) && Inv(Model())
    {
      hide Inv, Blocked;
      LockKeeps(Model(), t);
      var op := txs[t].op;
      if id !in projects || projects[id].workspace != op.workspace || projects[id].deleted {
        txs := txs - {t};
        return;
      }
      if (op.RenameProject? || op.DeleteProject?) && projects[id].revision != op.expected {
        txs := txs - {t};
        return;
      }
      txs := txs[t := txs[t].(project := Some(id))];
    }

    // SELECT ... FOR UPDATE of a live board of the workspace, then the revision and the status.
    method LockBoard(t: TxId, id: Id)
      requires Inv(Model()) && t in txs && !Blocked(txs, t) && NextLock(txs[t]) == Some(BoardRow(id))
      modifies this`txs
      ensures Model() == Lock(old(Model()), t) && Inv(Model())
    {
      hide Inv, Blocked;
      LockKeeps(Model(), t);
      var op := txs[t].op;
      if id !in boards || boards[id].workspace != op.workspace || boards[id].deleted {
        txs := txs - {t};
        return;
      }
      if boards[id].revision != op.expected {
        txs := txs - {t};
        return;
      }
      if boards[id].status != Active && boards[id].status != Initializing {
        txs := txs - {t};
        return;
      }
      if op.ChangeBoard? && boards[id].status != Active {
        txs := txs - {t};
        return;
      }
      txs := txs[t := txs[t].(board := Some(id))];
    }

    // SELECT EXISTS of a live board of the workspace in the project.
    method BoardExists(workspace: Id, project: Id) returns (found: bool)
      ensures found == Occupied(boards, workspace, project)
    {
      var todo := boards.Keys;
      while todo != {}
        invariant todo <= boards.Keys
        invariant forall b :: b in boards && b !in todo ==> boards[b].workspace != workspace || boards[b].project != Some(project) || boards[b].deleted
        decreases todo
      {
        var b :| b in todo;
        todo := todo - {b};
        if boards[b].workspace == workspace && boards[b].project == Some(project) && !boards[b].deleted { return true; }
      }
      return false;
    }

    // The next statement of t, if it need not wait.
    method Statement(t: TxId)
      requires Inv(Model()) && t in txs
      modifies this
      ensures Model() == Advance(old(Model()), t) && Inv(Model())
    {
      hide Inv, Blocked, Lock, Change, Committed;
      NextKeeps(Model(), DoAdvance(t));
      var wait := MustWait(t);
      if wait { return; }
      var tx := txs[t];
      var lock := NextLock(tx);
      if lock.Some? {
        match lock.value {
          case ProjectRow(id) => LockProject(t, id);
          case BoardRow(id) => LockBoard(t, id);
        }
      } else if tx.write == None {
        WriteRow(t);
      } else {
        CommitRow(t);
      }
    }

    // The check that a project is empty, or the INSERT or UPDATE.
    method WriteRow(t: TxId)
      requires Inv(Model()) && t in txs && NextLock(txs[t]) == None && txs[t].write == None
      modifies this`txs
      ensures Model() == Change(old(Model()), t) && Inv(Model())
    {
      hide Inv, Occupied, Written, NewId;
      ChangeKeeps(Model(), t);
      var tx := txs[t];
      if tx.op.DeleteProject? && !tx.checked {
        var found := BoardExists(tx.op.workspace, tx.op.id);
        if found {
          txs := txs - {t};
        } else {
          txs := txs[t := tx.(checked := true)];
        }
        return;
      }
      if tx.op.NewProject? || tx.op.NewBoard? {
        var taken := IdTaken(tx.op.id);
        if taken {
          txs := txs - {t};
          return;
        }
      }
      var write := Written(projects, boards, tx.op);
      if write == None {
        txs := txs - {t};
      } else {
        txs := txs[t := tx.(write := write)];
      }
    }

    method IdTaken(id: Id) returns (taken: bool)
      ensures taken == !NewId(Model(), id)
    {
      if id in projects || id in boards { return true; }
      var todo := txs.Keys;
      while todo != {}
        invariant todo <= txs.Keys
        invariant forall t :: t in txs && t !in todo && txs[t].write.Some? ==> txs[t].write.value.id != id
        decreases todo
      {
        var t :| t in todo;
        todo := todo - {t};
        if txs[t].write.Some? && txs[t].write.value.id == id { return true; }
      }
      return false;
    }

    method CommitRow(t: TxId)
      requires Inv(Model()) && t in txs && txs[t].write.Some?
      modifies this
      ensures Model() == Committed(old(Model()), t) && Inv(Model())
    {
      hide Inv;
      CommitKeeps(Model(), t);
      var tx := txs[t];
      match tx.write.value {
        case PutProject(id, p) => projects := projects[id := p];
        case PutBoard(id, b) => boards := boards[id := b];
      }
      log := log + LogOf(tx.op);
      txs := txs - {t};
    }
  }
}
