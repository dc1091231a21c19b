/** That operations go through. Run by itself, each does what it says exactly if the rows are as it
    expects, and otherwise leaves them as they were; under any schedule a statement gives up only
    because of the rows. */
module BoardAlone {
  import opened Wrappers
  import opened BoardTx

  // ---------------------------------------------------------------- what operations expect of the rows

  predicate LiveProject(s: State, id: Id, workspace: Id) {
    id in s.projects && !s.projects[id].deleted && s.projects[id].workspace == workspace
  }

  predicate LiveBoard(s: State, id: Id, workspace: Id, expected: nat) {
    id in s.boards && !s.boards[id].deleted && s.boards[id].workspace == workspace && s.boards[id].revision == expected
  }

  // No live board of the workspace is in the project.
  predicate Empty(s: State, id: Id, workspace: Id) {
    forall b :: b in s.boards && s.boards[b].workspace == workspace && s.boards[b].project == Some(id) ==> s.boards[b].deleted
  }

  predicate Expects(s: State, op: Op) {
    match op
    case NewProject(id, _, _) => id !in s.projects && id !in s.boards
    case NewBoard(id, workspace, home, _, status) =>
      && id !in s.projects && id !in s.boards && status != Deleting
      && (home.Some? ==> LiveProject(s, home.value, workspace))
    case ChangeBoard(id, workspace, _, move, expected) =>
      && LiveBoard(s, id, workspace, expected) && s.boards[id].status == Active
      && (move.Some? && move.value.Some? ==> LiveProject(s, move.value.value, workspace))
    case DeleteBoard(id, workspace, expected) =>
      LiveBoard(s, id, workspace, expected) && s.boards[id].status in {Active, Initializing}
    case RenameProject(id, workspace, _, expected) => LiveProject(s, id, workspace) && s.projects[id].revision == expected
    case DeleteProject(id, workspace, expected) =>
      LiveProject(s, id, workspace) && s.projects[id].revision == expected && Empty(s, id, workspace)
  }

  // ---------------------------------------------------------------- run alone

  // Five statements are enough for every operation: two locks, a check, a write and the commit.
  function Five(t: TxId): seq<Step> {
    [DoAdvance(t), DoAdvance(t), DoAdvance(t), DoAdvance(t), DoAdvance(t)]
  }

  function Alone(s: State, t: TxId, op: Op): State {
    Run(s, [DoBegin(t, op)] + Five(t))
  }

  predicate SameTables(s: State, t: State) {
    t.projects == s.projects && t.boards == s.boards && t.log == s.log
  }

  lemma NobodyBlocks(s: State, t: TxId)
    requires s.txs.Keys <= {t}
    ensures !Blocked(s.txs, t)
  {
  }

  lemma AloneUnrolled(s: State, t: TxId, op: Op)
    ensures var a := Begin(s, t, op);
      Alone(s, t, op) == Advance(Advance(Advance(Advance(Advance(a, t), t), t), t), t)
  {
    hide Advance, Begin, Run;
    var a := Begin(s, t, op);
    assert ([DoBegin(t, op)] + Five(t))[1..] == Five(t);
    RunStep(s, [DoBegin(t, op)] + Five(t));
    RunAdvances(a, t);
  }

  lemma RunStep(s: State, run: seq<Step>)
    requires run != []
    ensures Run(s, run) == Run(Next(s, run[0]), run[1..])
  {
  }

  lemma RunAdvances(s: State, t: TxId)
    ensures Run(s, Five(t)) == Advance(Advance(Advance(Advance(Advance(s, t), t), t), t), t)
  {
    hide Advance, Run;
    var run := Five(t);
    RunStep(s, run);
    RunStep(Advance(s, t), run[1..]);
    RunStep(Advance(Advance(s, t), t), run[1..][1..]);
    RunStep(Advance(Advance(Advance(s, t), t), t), run[1..][1..][1..]);
    RunStep(Advance(Advance(Advance(Advance(s, t), t), t), t), run[1..][1..][1..][1..]);
    assert run[1..][1..][1..][1..][1..] == [];
    RunNothing(Advance(Advance(Advance(Advance(Advance(s, t), t), t), t), t));
  }

  lemma RunNothing(s: State)
    ensures Run(s, []) == s
  {
  }

  // ---------------------------------------------------------------- one statement at a time

  function Solo(s: State, t: TxId, tx: Tx): State {
    s.(txs := map[t := tx])
  }

  lemma SoloBegins(s: State, t: TxId, op: Op)
    requires s.txs == map[]
    ensures Begin(s, t, op) == if op.NewBoard? && op.status == Deleting then s else Solo(s, t, Tx(op, None, None, false, None))
  {
  }

  lemma NothingToDo(s: State, t: TxId)
    requires s.txs == map[]
    ensures Advance(s, t) == s
  {
  }

  lemma SoloLocks(s: State, t: TxId, tx: Tx)
    requires s.txs == map[] && NextLock(tx).Some?
    ensures Advance(Solo(s, t, tx), t) ==
      match NextLock(tx).value
      case ProjectRow(id) => if ProjectMatches(s.projects, tx.op, id) then Solo(s, t, tx.(project := Some(id))) else s
      case BoardRow(id) => if BoardMatches(s.boards, tx.op, id) then Solo(s, t, tx.(board := Some(id))) else s
  {
    hide ProjectMatches, BoardMatches;
    NobodyBlocks(Solo(s, t, tx), t);
    assert map[t := tx] - {t} == map[];
  }

  lemma SoloChecks(s: State, t: TxId, tx: Tx)
    requires s.txs == map[] && NextLock(tx) == None && tx.write == None && tx.op.DeleteProject? && !tx.checked
    ensures Advance(Solo(s, t, tx), t) ==
      if Occupied(s.boards, tx.op.workspace, tx.op.id) then s else Solo(s, t, tx.(checked := true))
  {
    hide Occupied;
    NobodyBlocks(Solo(s, t, tx), t);
    assert map[t := tx] - {t} == map[];
  }

  lemma SoloWrites(s: State, t: TxId, tx: Tx)
    requires s.txs == map[] && NextLock(tx) == None && tx.write == None && (tx.op.DeleteProject? ==> tx.checked)
    ensures Advance(Solo(s, t, tx), t) ==
      if (tx.op.NewProject? || tx.op.NewBoard?) && (tx.op.id in s.projects || tx.op.id in s.boards) then s
      else if Written(s.projects, s.boards, tx.op) == None then s
      else Solo(s, t, tx.(write := Written(s.projects, s.boards, tx.op)))
  {
    hide Written;
    NobodyBlocks(Solo(s, t, tx), t);
    assert map[t := tx] - {t} == map[];
  }

  lemma SoloCommits(s: State, t: TxId, tx: Tx)
    requires s.txs == map[] && NextLock(tx) == None && tx.write.Some?
    ensures Advance(Solo(s, t, tx), t) ==
      match tx.write.value
      case PutProject(id, p) => State(s.projects[id := p], s.boards, map[], s.log + LogOf(tx.op))
      case PutBoard(id, b) => State(s.projects, s.boards[id := b], map[], s.log + LogOf(tx.op))
  {
    NobodyBlocks(Solo(s, t, tx), t);
    assert map[t := tx] - {t} == map[];
  }

  // ---------------------------------------------------------------- each operation

  // It is over, and did what it says exactly if the rows were as it expects.
  ghost predicate WentThrough(s: State, op: Op, t: State) {
    && t.txs == map[]
    && (if Expects(s, op)
        then Applied(op, s, t) && t.log == s.log + LogOf(op) && (if WritesProject(op) then t.boards == s.boards else t.projects == s.projects)
        else SameTables(s, t))
  }

  predicate WritesProject(op: Op) {
    op.NewProject? || op.RenameProject? || op.DeleteProject?
  }

  lemma NewProjectAlone(s: State, t: TxId, op: Op)
    requires s.txs == map[] && op.NewProject?
    ensures WentThrough(s, op, Alone(s, t, op))
  {
    hide Advance, Begin, Alone;
    AloneUnrolled(s, t, op);
    SoloBegins(s, t, op);
    var tx := Tx(op, None, None, false, None);
    SoloWrites(s, t, tx);
    NothingToDo(s, t);
    if Expects(s, op) {
      var tx' := tx.(write := Written(s.projects, s.boards, op));
      SoloCommits(s, t, tx');
      NothingToDo(Advance(Solo(s, t, tx'), t), t);
    }
  }

  lemma NewBoardAlone(s: State, t: TxId, op: Op)
    requires s.txs == map[] && op.NewBoard?
    ensures WentThrough(s, op, Alone(s, t, op))
  {
    hide Advance, Begin, Alone;
    AloneUnrolled(s, t, op);
    SoloBegins(s, t, op);
    NothingToDo(s, t);
    var tx := Tx(op, None, None, false, None);
    var locked := tx.(project := op.home);
    if op.home.Some? { SoloLocks(s, t, tx); }
    SoloWrites(s, t, locked);
    if Expects(s, op) {
      var tx' := locked.(write := Written(s.projects, s.boards, op));
      SoloCommits(s, t, tx');
      NothingToDo(Advance(Solo(s, t, tx'), t), t);
    }
  }

  lemma ChangeBoardAlone(s: State, t: TxId, op: Op)
    requires s.txs == map[] && op.ChangeBoard?
    ensures WentThrough(s, op, Alone(s, t, op))
  {
    hide Advance, Begin, Alone;
    AloneUnrolled(s, t, op);
    SoloBegins(s, t, op);
    NothingToDo(s, t);
    var tx := Tx(op, None, None, false, None);
    var held := tx.(project := ProjectOf(op));
    if ProjectOf(op).Some? { SoloLocks(s, t, tx); }
    SoloLocks(s, t, held);
    var locked := held.(board := Some(op.id));
    SoloWrites(s, t, locked);
    if Expects(s, op) {
      var tx' := locked.(write := Written(s.projects, s.boards, op));
      SoloCommits(s, t, tx');
      NothingToDo(Advance(Solo(s, t, tx'), t), t);
    }
  }

  lemma DeleteBoardAlone(s: State, t: TxId, op: Op)
    requires s.txs == map[] && op.DeleteBoard?
    ensures WentThrough(s, op, Alone(s, t, op))
  {
    hide Advance, Begin, Alone;
    AloneUnrolled(s, t, op);
    SoloBegins(s, t, op);
    NothingToDo(s, t);
    var tx := Tx(op, None, None, false, None);
    SoloLocks(s, t, tx);
    var locked := tx.(board := Some(op.id));
    SoloWrites(s, t, locked);
    if Expects(s, op) {
      var tx' := locked.(write := Written(s.projects, s.boards, op));
      SoloCommits(s, t, tx');
      NothingToDo(Advance(Solo(s, t, tx'), t), t);
    }
  }

  lemma RenameProjectAlone(s: State, t: TxId, op: Op)
    requires s.txs == map[] && op.RenameProject?
    ensures WentThrough(s, op, Alone(s, t, op))
  {
    hide Advance, Begin, Alone;
    AloneUnrolled(s, t, op);
    SoloBegins(s, t, op);
    NothingToDo(s, t);
    var tx := Tx(op, None, None, false, None);
    SoloLocks(s, t, tx);
    var locked := tx.(project := Some(op.id));
    SoloWrites(s, t, locked);
    if Expects(s, op) {
      var tx' := locked.(write := Written(s.projects, s.boards, op));
      SoloCommits(s, t, tx');
      NothingToDo(Advance(Solo(s, t, tx'), t), t);
    }
  }

  lemma DeleteProjectAlone(s: State, t: TxId, op: Op)
    requires s.txs == map[] && op.DeleteProject?
    ensures WentThrough(s, op, Alone(s, t, op))
  {
    hide Advance, Begin, Alone;
    AloneUnrolled(s, t, op);
    SoloBegins(s, t, op);
    NothingToDo(s, t);
    var tx := Tx(op, None, None, false, None);
    SoloLocks(s, t, tx);
    var locked := tx.(project := Some(op.id));
    SoloChecks(s, t, locked);
    var checked := locked.(checked := true);
    SoloWrites(s, t, checked);
    if Expects(s, op) {
      var tx' := checked.(write := Written(s.projects, s.boards, op));
      SoloCommits(s, t, tx');
      NothingToDo(Advance(Solo(s, t, tx'), t), t);
    }
  }

  // Whatever the tables hold: an operation that runs alone is over after five statements. It has done
  // exactly what it says, if the rows were as it expects, and nothing at all otherwise.
  lemma AloneGoesThrough(s: State, t: TxId, op: Op)
    requires s.txs == map[]
    ensures var u := Alone(s, t, op);
      && u.txs == map[]
      && (Expects(s, op) ==> Applied(op, s, u) && (if WritesProject(op) then u.boards == s.boards else u.projects == s.projects))
      && (!Expects(s, op) ==> u.projects == s.projects && u.boards == s.boards && u.log == s.log)
  {
    hide Alone, Expects, Applied;
    match op
    case NewProject(_, _, _) => NewProjectAlone(s, t, op);
    case NewBoard(_, _, _, _, _) => NewBoardAlone(s, t, op);
    case ChangeBoard(_, _, _, _, _) => ChangeBoardAlone(s, t, op);
    case DeleteBoard(_, _, _) => DeleteBoardAlone(s, t, op);
    case RenameProject(_, _, _, _) => RenameProjectAlone(s, t, op);
    case DeleteProject(_, _, _) => DeleteProjectAlone(s, t, op);
  }

  // ---------------------------------------------------------------- under any schedule

  // The row that a transaction locks next is not as it expects, the project it deletes is not empty, or
  // the identifier it inserts is taken.
  predicate Unmet(s: State, tx: Tx) {
    match NextLock(tx)
    case Some(ProjectRow(id)) =>
      !LiveProject(s, id, tx.op.workspace) || ((tx.op.RenameProject? || tx.op.DeleteProject?) && s.projects[id].revision != tx.op.expected)
    case Some(BoardRow(id)) =>
      !((tx.op.ChangeBoard? || tx.op.DeleteBoard?) && LiveBoard(s, id, tx.op.workspace, tx.op.expected) &&
        (s.boards[id].status == Active || (tx.op.DeleteBoard? && s.boards[id].status == Initializing)))
    case None =>
      (tx.op.DeleteProject? && !tx.checked && !Empty(s, tx.op.id, tx.op.workspace)) ||
      ((tx.op.NewProject? || tx.op.NewBoard?) && !NewId(s, tx.op.id))
  }

  // Under every schedule a statement that need not wait gives its transaction up exactly for such a
  // reason; in particular never at the update, once the rows are locked.
  lemma GivesUpExactly(run: seq<Step>, t: TxId)
    requires var s := Run(EMPTY, run); t in s.txs && !Blocked(s.txs, t) && s.txs[t].write == None
    ensures var s := Run(EMPTY, run);
      && (t !in Advance(s, t).txs <==> Unmet(s, s.txs[t]))
      && Advance(s, t).projects == s.projects && Advance(s, t).boards == s.boards
  {
    hide Run, Inv, Blocked, NewId;
    EmptyInv();
    RunKeeps(EMPTY, run);
    var s := Run(EMPTY, run);
    TxOf(s, t);
    if NextLock(s.txs[t]) == None { UpdatesUnderLockMatch(run, t); }
  }

  // And a transaction with its write commits as soon as it may go on.
  lemma CommitsNext(s: State, t: TxId)
    requires t in s.txs && !Blocked(s.txs, t) && s.txs[t].write.Some? && NextLock(s.txs[t]) == None
    ensures var u := Advance(s, t);
      t !in u.txs && u.log == s.log + LogOf(s.txs[t].op) &&
      match s.txs[t].write.value
      case PutProject(id, p) => u.projects == s.projects[id := p] && u.boards == s.boards
      case PutBoard(id, b) => u.boards == s.boards[id := b] && u.projects == s.projects
  {
  }
}
