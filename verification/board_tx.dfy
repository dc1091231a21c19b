/** Project and board rows under concurrent transactions. A transaction is a sequence of statements;
    others run in between. It sees the latest committed rows, keeps the rows it locked until it ends,
    and its one write becomes visible when it commits. */
module BoardTx {
  import opened Wrappers

  type Id = string
  type TxId = nat

  datatype Status = Active | Initializing | Deleting

  datatype Project = Project(workspace: Id, name: string, revision: nat, deleted: bool)

  datatype Board = Board(workspace: Id, project: Option<Id>, name: string, status: Status, revision: nat, deleted: bool)

  // What a transaction is to do. `project` of a change is whether and to what it moves the board.
  datatype Op =
    | NewProject(id: Id, workspace: Id, name: string)
    | NewBoard(id: Id, workspace: Id, home: Option<Id>, name: string, status: Status)
    | ChangeBoard(id: Id, workspace: Id, rename: Option<string>, move: Option<Option<Id>>, expected: nat)
    | DeleteBoard(id: Id, workspace: Id, expected: nat)
    | RenameProject(id: Id, workspace: Id, name: string, expected: nat)
    | DeleteProject(id: Id, workspace: Id, expected: nat)

  datatype Row = ProjectRow(id: Id) | BoardRow(id: Id)

  datatype Write = PutProject(id: Id, project: Project) | PutBoard(id: Id, board: Board)

  // A transaction: the rows it has locked, whether it found its project empty, and its write.
  datatype Tx = Tx(op: Op, project: Option<Id>, board: Option<Id>, checked: bool, write: Option<Write>)

  // A committed change of a row that compared the revision it expected.
  datatype Commit = Commit(row: Row, expected: nat)

  type Projects = map<Id, Project>
  type Boards = map<Id, Board>
  type Txs = map<TxId, Tx>

  datatype State = State(projects: Projects, boards: Boards, txs: Txs, log: seq<Commit>)

  // ---------------------------------------------------------------- locks

  // The project an operation locks first, and the board it locks afterwards.
  function ProjectOf(op: Op): Option<Id> {
    match op
    case NewProject(_, _, _) => None
    case NewBoard(_, _, home, _, _) => home
    case ChangeBoard(_, _, _, move, _) => if move.Some? then move.value else None
    case DeleteBoard(_, _, _) => None
    case RenameProject(id, _, _, _) => Some(id)
    case DeleteProject(id, _, _) => Some(id)
  }

  function BoardOf(op: Op): Option<Id> {
    if op.ChangeBoard? || op.DeleteBoard? then Some(op.id) else None
  }

  function NextLock(tx: Tx): Option<Row> {
    if ProjectOf(tx.op).Some? && tx.project == None then Some(ProjectRow(ProjectOf(tx.op).value))
    else if BoardOf(tx.op).Some? && tx.board == None then Some(BoardRow(BoardOf(tx.op).value))
    else None
  }

  predicate Holds(tx: Tx, row: Row) {
    match row
    case ProjectRow(id) => tx.project == Some(id)
    case BoardRow(id) => tx.board == Some(id)
  }

  predicate WaitsFor(txs: Txs, t: TxId, u: TxId) {
    t in txs && u in txs && t != u && NextLock(txs[t]).Some? && Holds(txs[u], NextLock(txs[t]).value)
  }

  predicate Blocked(txs: Txs, t: TxId) {
    exists u :: u in txs && WaitsFor(txs, t, u)
  }

  // ---------------------------------------------------------------- statements

  predicate ProjectMatches(projects: Projects, op: Op, id: Id) {
    && id in projects && projects[id].workspace == op.workspace && !projects[id].deleted
    && (op.RenameProject? || op.DeleteProject? ==> projects[id].revision == op.expected)
  }

  predicate BoardMatches(boards: Boards, op: Op, id: Id) {
    && id in boards && boards[id].workspace == op.workspace && !boards[id].deleted
    && (op.ChangeBoard? || op.DeleteBoard? ==> boards[id].revision == op.expected)
    && (boards[id].status == Active || (boards[id].status == Initializing && !op.ChangeBoard?))
  }

  predicate Occupied(boards: Boards, workspace: Id, project: Id) {
    exists b :: b in boards && boards[b].workspace == workspace && boards[b].project == Some(project) && !boards[b].deleted
  }

  // Identifiers are new: no row has it and no transaction is about to insert it.
  predicate NewId(s: State, id: Id) {
    && id !in s.projects && id !in s.boards
    && forall t :: t in s.txs && s.txs[t].write.Some? ==> s.txs[t].write.value.id != id
  }

  // The row an operation writes, computed from the latest version of the row it locked.
  function Written(projects: Projects, boards: Boards, op: Op): Option<Write> {
    match op
    case NewProject(id, workspace, name) => Some(PutProject(id, Project(workspace, name, 1, false)))
    case NewBoard(id, workspace, home, name, status) => Some(PutBoard(id, Board(workspace, home, name, status, 1, false)))
    case ChangeBoard(id, _, rename, move, _) =>
      if !BoardMatches(boards, op, id) then None
      else
        var b := boards[id];
        Some(PutBoard(id, b.(name := if rename.Some? then rename.value else b.name,
                             project := if move.Some? then move.value else b.project,
                             revision := b.revision + 1)))
    case DeleteBoard(id, _, _) =>
      if !BoardMatches(boards, op, id) then None
      else Some(PutBoard(id, boards[id].(status := Deleting, revision := boards[id].revision + 1)))
    case RenameProject(id, _, name, _) =>
      if !ProjectMatches(projects, op, id) then None
      else Some(PutProject(id, projects[id].(name := name, revision := projects[id].revision + 1)))
    case DeleteProject(id, _, _) =>
      if !ProjectMatches(projects, op, id) then None
      else Some(PutProject(id, projects[id].(deleted := true, revision := projects[id].revision + 1)))
  }

  // ---------------------------------------------------------------- steps

  function Begin(s: State, t: TxId, op: Op): State {
    if t in s.txs || (op.NewBoard? && op.status == Deleting) then s
    else s.(txs := s.txs[t := Tx(op, None, None, false, None)])
  }

  function Rollback(s: State, t: TxId): State {
    s.(txs := s.txs - {t})
  }

  function Lock(s: State, t: TxId): State
    requires t in s.txs && NextLock(s.txs[t]).Some?
  {
    var tx := s.txs[t];
    match NextLock(tx).value
    case ProjectRow(id) =>
      if ProjectMatches(s.projects, tx.op, id) then s.(txs := s.txs[t := tx.(project := Some(id))]) else Rollback(s, t)
    case BoardRow(id) =>
      if BoardMatches(s.boards, tx.op, id) then s.(txs := s.txs[t := tx.(board := Some(id))]) else Rollback(s, t)
  }

  function Change(s: State, t: TxId): State
    requires t in s.txs
  {
    var tx := s.txs[t];
    if tx.op.DeleteProject? && !tx.checked then
      if Occupied(s.boards, tx.op.workspace, tx.op.id) then Rollback(s, t) else s.(txs := s.txs[t := tx.(checked := true)])
    else if (tx.op.NewProject? || tx.op.NewBoard?) && !NewId(s, tx.op.id) then Rollback(s, t)
    else
      var write := Written(s.projects, s.boards, tx.op);
      if write == None then Rollback(s, t) else s.(txs := s.txs[t := tx.(write := write)])
  }

  function LogOf(op: Op): seq<Commit> {
    match op
    case NewProject(_, _, _) => []
    case NewBoard(_, _, _, _, _) => []
    case ChangeBoard(id, _, _, _, expected) => [Commit(BoardRow(id), expected)]
    case DeleteBoard(id, _, expected) => [Commit(BoardRow(id), expected)]
    case RenameProject(id, _, _, expected) => [Commit(ProjectRow(id), expected)]
    case DeleteProject(id, _, expected) => [Commit(ProjectRow(id), expected)]
  }

  function Committed(s: State, t: TxId): State
    requires t in s.txs && s.txs[t].write.Some?
  {
    var tx := s.txs[t];
    var log := s.log + LogOf(tx.op);
    match tx.write.value
    case PutProject(id, p) => State(s.projects[id := p], s.boards, s.txs - {t}, log)
    case PutBoard(id, b) => State(s.projects, s.boards[id := b], s.txs - {t}, log)
  }

  // The next statement of a transaction, unless it must wait for a lock.
  function Advance(s: State, t: TxId): State {
    if t !in s.txs || Blocked(s.txs, t) then s
    else if NextLock(s.txs[t]).Some? then Lock(s, t)
    else if s.txs[t].write == None then Change(s, t)
    else Committed(s, t)
  }

  datatype Step = DoBegin(t: TxId, op: Op) | DoAdvance(t: TxId) | DoRollback(t: TxId)

  function Next(s: State, step: Step): State {
    match step
    case DoBegin(t, op) => Begin(s, t, op)
    case DoAdvance(t) => Advance(s, t)
    case DoRollback(t) => Rollback(s, t)
  }

  function Run(s: State, run: seq<Step>): State
    decreases |run|
  {
    if run == [] then s else Run(Next(s, run[0]), run[1..])
  }

  // ---------------------------------------------------------------- the invariant

  // A live board's project exists, is live and belongs to the same workspace.
  predicate Housed(projects: Projects, b: Board) {
    !b.deleted && b.project.Some? ==>
      b.project.value in projects && !projects[b.project.value].deleted && projects[b.project.value].workspace == b.workspace
  }

  predicate Referential(projects: Projects, boards: Boards) {
    forall b :: b in boards ==> Housed(projects, boards[b])
  }

  predicate Exclusive(txs: Txs) {
    forall t, u :: t in txs && u in txs && t != u ==>
      (txs[t].project.Some? ==> txs[t].project != txs[u].project) && (txs[t].board.Some? ==> txs[t].board != txs[u].board)
  }

  // What a transaction has locked is still as it found it.
  predicate LocksMatch(tx: Tx, projects: Projects, boards: Boards) {
    && (tx.project.Some? ==> tx.project == ProjectOf(tx.op) && ProjectMatches(projects, tx.op, tx.project.value))
    && (tx.board.Some? ==> tx.board == BoardOf(tx.op) && BoardMatches(boards, tx.op, tx.board.value))
    && (tx.board.Some? && ProjectOf(tx.op).Some? ==> tx.project.Some?)
  }

  // A write is what the operation would write now, and a project found empty still is.
  predicate WriteMatches(tx: Tx, projects: Projects, boards: Boards) {
    && (tx.write.Some? ==> NextLock(tx) == None && tx.write == Written(projects, boards, tx.op) && (tx.op.DeleteProject? ==> tx.checked))
    && (tx.checked ==> tx.op.DeleteProject? && tx.project.Some? && !Occupied(boards, tx.op.workspace, tx.op.id))
    && (tx.write.Some? && (tx.op.NewProject? || tx.op.NewBoard?) ==> tx.op.id !in projects && tx.op.id !in boards)
    && (tx.op.NewBoard? ==> tx.op.status != Deleting)
  }

  predicate Matching(txs: Txs, projects: Projects, boards: Boards) {
    forall t :: t in txs ==> LocksMatch(txs[t], projects, boards) && WriteMatches(txs[t], projects, boards)
  }

  predicate Inserting(tx: Tx) {
    tx.write.Some? && (tx.op.NewProject? || tx.op.NewBoard?)
  }

  // Inserted rows are told apart.
  predicate Apart(txs: Txs) {
    forall t, u :: t in txs && u in txs && t != u && Inserting(txs[t]) && txs[u].write.Some? ==>
      txs[t].write.value.id != txs[u].write.value.id
  }

  function RevisionOf(projects: Projects, boards: Boards, row: Row): nat {
    match row
    case ProjectRow(id) => if id in projects then projects[id].revision else 0
    case BoardRow(id) => if id in boards then boards[id].revision else 0
  }

  predicate Logged(log: seq<Commit>, projects: Projects, boards: Boards) {
    && (forall i :: 0 <= i < |log| ==> log[i].expected < RevisionOf(projects, boards, log[i].row))
    && (forall i, j :: 0 <= i < j < |log| && log[i].row == log[j].row ==> log[i].expected < log[j].expected)
  }

  ghost predicate Inv(s: State) {
    && Referential(s.projects, s.boards)
    && Exclusive(s.txs)
    && Matching(s.txs, s.projects, s.boards)
    && Apart(s.txs)
    && Logged(s.log, s.projects, s.boards)
  }

  const EMPTY := State(map[], map[], map[], [])

  // ---------------------------------------------------------------- steps that write no row

  lemma RollbackKeeps(s: State, t: TxId)
    requires Inv(s)
    ensures Inv(Rollback(s, t))
  {
    hide Referential, LocksMatch, WriteMatches, Logged, Inserting;
  }

  // One transaction changes; it holds nothing that others hold, and its insert is its own.
  lemma TxKeeps(s: State, t: TxId, tx: Tx)
    requires Inv(s) && LocksMatch(tx, s.projects, s.boards) && WriteMatches(tx, s.projects, s.boards)
    requires forall u :: u in s.txs && u != t ==>
      (tx.project.Some? ==> tx.project != s.txs[u].project) && (tx.board.Some? ==> tx.board != s.txs[u].board)
    requires forall u :: u in s.txs && u != t && tx.write.Some? && s.txs[u].write.Some? && (Inserting(tx) || Inserting(s.txs[u])) ==>
      tx.write.value.id != s.txs[u].write.value.id
    ensures Inv(s.(txs := s.txs[t := tx]))
  {
    hide Referential, LocksMatch, WriteMatches, Logged;
  }

  lemma BeginKeeps(s: State, t: TxId, op: Op)
    requires Inv(s)
    ensures Inv(Begin(s, t, op))
  {
    hide Inv;
    if t !in s.txs && !(op.NewBoard? && op.status == Deleting) {
      TxKeeps(s, t, Tx(op, None, None, false, None));
    }
  }

  lemma NotHeld(s: State, t: TxId)
    requires t in s.txs && !Blocked(s.txs, t) && NextLock(s.txs[t]).Some?
    ensures forall u :: u in s.txs && u != t ==> !Holds(s.txs[u], NextLock(s.txs[t]).value)
  {
    forall u | u in s.txs && u != t ensures !Holds(s.txs[u], NextLock(s.txs[t]).value) {
      assert !WaitsFor(s.txs, t, u);
    }
  }

  lemma TxOf(s: State, t: TxId)
    requires Inv(s) && t in s.txs
    ensures LocksMatch(s.txs[t], s.projects, s.boards) && WriteMatches(s.txs[t], s.projects, s.boards)
    ensures forall u :: u in s.txs && u != t ==>
      (s.txs[t].project.Some? ==> s.txs[t].project != s.txs[u].project) && (s.txs[t].board.Some? ==> s.txs[t].board != s.txs[u].board)
  {
    hide Referential, Apart, Logged;
  }

  lemma LockKeeps(s: State, t: TxId)
    requires Inv(s) && t in s.txs && !Blocked(s.txs, t) && NextLock(s.txs[t]).Some?
    ensures Inv(Lock(s, t))
  {
    hide Inv, Blocked, ProjectMatches, BoardMatches;
    NotHeld(s, t);
    TxOf(s, t);
    RollbackKeeps(s, t);
    if t in Lock(s, t).txs { TxKeeps(s, t, Lock(s, t).txs[t]); }
  }

  lemma NewWrite(s: State, t: TxId, id: Id)
    requires NewId(s, id)
    ensures id !in s.projects && id !in s.boards
    ensures forall u :: u in s.txs && s.txs[u].write.Some? ==> s.txs[u].write.value.id != id
  {
  }

  lemma WrittenId(projects: Projects, boards: Boards, op: Op)
    ensures Written(projects, boards, op).Some? ==> Written(projects, boards, op).value.id == op.id
    ensures Written(projects, boards, op).Some? ==>
      (Written(projects, boards, op).value.PutProject? <==> op.NewProject? || op.RenameProject? || op.DeleteProject?)
  {
  }

  // An update writes a row that is there, an insert one that is not.
  lemma WritesApart(s: State, t: TxId, u: TxId)
    requires Inv(s) && t in s.txs && u in s.txs && Inserting(s.txs[u]) && NextLock(s.txs[t]) == None
    requires !(s.txs[t].op.NewProject? || s.txs[t].op.NewBoard?) && Written(s.projects, s.boards, s.txs[t].op).Some?
    ensures s.txs[u].write.value.id != s.txs[t].op.id
  {
    hide Referential, Exclusive, Apart, Logged;
    TxOf(s, u);
    WrittenId(s.projects, s.boards, s.txs[u].op);
  }

  lemma ChangeKeeps(s: State, t: TxId)
    requires Inv(s) && t in s.txs && NextLock(s.txs[t]) == None && s.txs[t].write == None
    ensures Inv(Change(s, t))
  {
    hide Inv, Blocked, NewId, Occupied, Written;
    var tx := s.txs[t];
    TxOf(s, t);
    RollbackKeeps(s, t);
    WrittenId(s.projects, s.boards, tx.op);
    if tx.op.DeleteProject? && !tx.checked {
      if !Occupied(s.boards, tx.op.workspace, tx.op.id) { TxKeeps(s, t, tx.(checked := true)); }
    } else if tx.op.NewProject? || tx.op.NewBoard? {
      if NewId(s, tx.op.id) {
        NewWrite(s, t, tx.op.id);
        if Written(s.projects, s.boards, tx.op).Some? { TxKeeps(s, t, tx.(write := Written(s.projects, s.boards, tx.op))); }
      }
    } else if Written(s.projects, s.boards, tx.op).Some? {
      forall u | u in s.txs && Inserting(s.txs[u]) ensures s.txs[u].write.value.id != tx.op.id { WritesApart(s, t, u); }
      TxKeeps(s, t, tx.(write := Written(s.projects, s.boards, tx.op)));
    }
  }

  // ---------------------------------------------------------------- commits

  predicate Committable(s: State, t: TxId) {
    t in s.txs && s.txs[t].write.Some?
  }

  lemma WriteOf(s: State, t: TxId)
    requires Inv(s) && Committable(s, t)
    ensures var tx := s.txs[t];
      && LocksMatch(tx, s.projects, s.boards) && WriteMatches(tx, s.projects, s.boards)
      && NextLock(tx) == None && tx.write == Written(s.projects, s.boards, tx.op) && tx.write.value.id == tx.op.id
  {
    hide Referential, Exclusive, Apart, Logged;
    TxOf(s, t);
    WrittenId(s.projects, s.boards, s.txs[t].op);
  }

  // The check looks at one workspace only; no live board of another one can be in the project.
  lemma EmptyEverywhere(projects: Projects, boards: Boards, op: Op)
    requires op.DeleteProject? && Referential(projects, boards) && ProjectMatches(projects, op, op.id)
    requires !Occupied(boards, op.workspace, op.id)
    ensures forall b :: b in boards && boards[b].project == Some(op.id) ==> boards[b].deleted
  {
    forall b | b in boards && boards[b].project == Some(op.id) ensures boards[b].deleted {
      assert Housed(projects, boards[b]);
    }
  }

  lemma CommitReferential(s: State, t: TxId)
    requires Inv(s) && Committable(s, t)
    ensures Referential(Committed(s, t).projects, Committed(s, t).boards)
  {
    hide Exclusive, Matching, Apart, Logged;
    WriteOf(s, t);
    var tx := s.txs[t];
    if tx.op.DeleteProject? {
      EmptyEverywhere(s.projects, s.boards, tx.op);
      forall b | b in s.boards ensures Housed(Committed(s, t).projects, s.boards[b]) {
        assert Housed(s.projects, s.boards[b]);
      }
    }
  }

  // No other transaction's locked row is the one written, and no project found empty is filled.
  lemma CommitMatchesOne(s: State, t: TxId, u: TxId)
    requires Inv(s) && Committable(s, t) && u in s.txs && u != t
    ensures LocksMatch(s.txs[u], Committed(s, t).projects, Committed(s, t).boards)
  {
    hide Referential, Apart, Logged, Written, Matching, Exclusive, Occupied;
    WriteOf(s, t);
    WrittenId(s.projects, s.boards, s.txs[t].op);
    TxOf(s, t);
    TxOf(s, u);
  }

  lemma CommitWritesOne(s: State, t: TxId, u: TxId)
    requires Inv(s) && Committable(s, t) && u in s.txs && u != t
    ensures WriteMatches(s.txs[u], Committed(s, t).projects, Committed(s, t).boards)
  {
    hide Referential, Logged, Exclusive, Matching, Occupied;
    WriteOf(s, t);
    TxOf(s, t);
    TxOf(s, u);
    if s.txs[u].checked { CommitVacancy(s, t, u); }
    if Inserting(s.txs[u]) { WriteOf(s, u); }
  }

  lemma CommitVacancy(s: State, t: TxId, u: TxId)
    requires Inv(s) && Committable(s, t) && u in s.txs && u != t && s.txs[u].checked
    ensures !Occupied(Committed(s, t).boards, s.txs[u].op.workspace, s.txs[u].op.id)
  {
    hide Referential, Logged, Exclusive, Matching, Apart;
    WriteOf(s, t);
    TxOf(s, t);
    TxOf(s, u);
  }

  lemma CommitMatching(s: State, t: TxId)
    requires Inv(s) && Committable(s, t)
    ensures Matching(Committed(s, t).txs, Committed(s, t).projects, Committed(s, t).boards)
  {
    hide Inv, LocksMatch, WriteMatches;
    forall u | u in s.txs && u != t
      ensures LocksMatch(s.txs[u], Committed(s, t).projects, Committed(s, t).boards)
      ensures WriteMatches(s.txs[u], Committed(s, t).projects, Committed(s, t).boards)
    {
      CommitMatchesOne(s, t, u);
      CommitWritesOne(s, t, u);
    }
  }

  // The write raises the row's revision past the one expected, or the row is new.
  lemma CommitLogged(s: State, t: TxId)
    requires Inv(s) && Committable(s, t)
    ensures Logged(Committed(s, t).log, Committed(s, t).projects, Committed(s, t).boards)
  {
    hide Referential, Exclusive, Matching, Apart, Occupied;
    WriteOf(s, t);
  }

  lemma CommitKeeps(s: State, t: TxId)
    requires Inv(s) && Committable(s, t)
    ensures Inv(Committed(s, t))
  {
    hide Referential, LocksMatch, WriteMatches, Logged, Inserting, Matching;
    CommitReferential(s, t);
    CommitMatching(s, t);
    CommitLogged(s, t);
  }

  lemma NextKeeps(s: State, step: Step)
    requires Inv(s)
    ensures Inv(Next(s, step))
  {
    hide Inv, Lock, Change, Committed, Rollback, Begin, Blocked, NextLock;
    match step
    case DoBegin(t, op) => BeginKeeps(s, t, op);
    case DoRollback(t) => RollbackKeeps(s, t);
    case DoAdvance(t) =>
      if t in s.txs && !Blocked(s.txs, t) {
        if NextLock(s.txs[t]).Some? { LockKeeps(s, t); }
        else if s.txs[t].write == None { ChangeKeeps(s, t); }
        else { CommitKeeps(s, t); }
      }
  }

  lemma {:induction false} RunKeeps(s: State, run: seq<Step>)
    requires Inv(s)
    ensures Inv(Run(s, run))
    decreases |run|
  {
    hide Inv, Next;
    if run != [] {
      NextKeeps(s, run[0]);
      RunKeeps(Next(s, run[0]), run[1..]);
    }
  }

  lemma EmptyInv()
    ensures Inv(EMPTY)
  {
  }

  // ---------------------------------------------------------------- theorems over every schedule

  // No live board refers to a project that is missing, deleted or of another workspace.
  lemma ProjectsOfLiveBoards(run: seq<Step>, b: Id)
    requires b in Run(EMPTY, run).boards
    ensures Housed(Run(EMPTY, run).projects, Run(EMPTY, run).boards[b])
  {
    hide Exclusive, Matching, Apart, Logged, Housed, Run;
    EmptyInv();
    RunKeeps(EMPTY, run);
  }

  // Of the transactions that expected one revision of a row, at most one committed.
  lemma NoRevisionCommitsTwice(run: seq<Step>, i: nat, j: nat)
    requires var log := Run(EMPTY, run).log; i < j < |log| && log[i].row == log[j].row
    ensures Run(EMPTY, run).log[i].expected < Run(EMPTY, run).log[j].expected
  {
    hide Exclusive, Matching, Apart, Referential, Run;
    EmptyInv();
    RunKeeps(EMPTY, run);
  }

  // What an operation promises to do to the row it changes, given the latest committed version of it.
  predicate Applied(op: Op, before: State, after: State) {
    match op
    case NewProject(id, workspace, name) => id !in before.projects && after.projects == before.projects[id := Project(workspace, name, 1, false)]
    case NewBoard(id, workspace, home, name, status) =>
      id !in before.boards && after.boards == before.boards[id := Board(workspace, home, name, status, 1, false)]
    case ChangeBoard(id, workspace, rename, move, expected) =>
      && id in before.boards && id in after.boards && after.boards - {id} == before.boards - {id}
      && var was, now := before.boards[id], after.boards[id];
         now.name == (if rename.Some? then rename.value else was.name) && now.project == (if move.Some? then move.value else was.project) &&
         now.workspace == was.workspace == workspace && now.status == was.status == Active && !now.deleted && !was.deleted &&
         was.revision == expected && now.revision == expected + 1
    case DeleteBoard(id, workspace, expected) =>
      && id in before.boards && id in after.boards && after.boards - {id} == before.boards - {id}
      && after.boards[id] == before.boards[id].(status := Deleting, revision := expected + 1) && before.boards[id].revision == expected
    case RenameProject(id, workspace, name, expected) =>
      && id in before.projects && id in after.projects && after.projects - {id} == before.projects - {id}
      && after.projects[id] == before.projects[id].(name := name, revision := expected + 1) && before.projects[id].revision == expected
    case DeleteProject(id, workspace, expected) =>
      && id in before.projects && id in after.projects && after.projects - {id} == before.projects - {id}
      && after.projects[id] == before.projects[id].(deleted := true, revision := expected + 1) && before.projects[id].revision == expected
  }

  // No update is lost: under every schedule a commit changes one row, from its latest committed
  // version, which still has the revision expected, in exactly the way the operation says.
  lemma NoLostUpdate(run: seq<Step>, t: TxId)
    requires Committable(Run(EMPTY, run), t)
    ensures Applied(Run(EMPTY, run).txs[t].op, Run(EMPTY, run), Committed(Run(EMPTY, run), t))
    ensures var s := Run(EMPTY, run);
      if s.txs[t].write.value.PutProject? then Committed(s, t).boards == s.boards else Committed(s, t).projects == s.projects
  {
    hide Run, Exclusive, Apart, Referential, Logged, Matching, Occupied;
    EmptyInv();
    RunKeeps(EMPTY, run);
    WriteOf(Run(EMPTY, run), t);
  }

  // While it holds its locks, a transaction's update finds the row as it expects: an update after the
  // lock always writes.
  lemma UpdatesUnderLockMatch(run: seq<Step>, t: TxId)
    requires var s := Run(EMPTY, run); t in s.txs && NextLock(s.txs[t]) == None
    ensures var s := Run(EMPTY, run); Written(s.projects, s.boards, s.txs[t].op).Some?
  {
    hide Exclusive, Apart, Referential, Logged, Run;
    EmptyInv();
    RunKeeps(EMPTY, run);
    TxOf(Run(EMPTY, run), t);
  }

  predicate Frozen(b: Board) {
    b.status == Deleting || b.deleted
  }

  lemma FrozenKept(s: State, step: Step, b: Id)
    requires Inv(s) && b in s.boards && Frozen(s.boards[b])
    ensures b in Next(s, step).boards && Next(s, step).boards[b] == s.boards[b]
  {
    hide Referential, Exclusive, Apart, Logged, Matching, Blocked, Occupied, LocksMatch;
    match step
    case DoBegin(t, op) =>
    case DoRollback(t) =>
    case DoAdvance(t) =>
      if Committable(s, t) { WriteOf(s, t); }
  }

  // A board marked for deletion never changes again: no later operation leaves that state.
  lemma {:induction false} DeletingIsFinal(s: State, run: seq<Step>, b: Id)
    requires Inv(s) && b in s.boards && Frozen(s.boards[b])
    ensures b in Run(s, run).boards && Run(s, run).boards[b] == s.boards[b]
    decreases |run|
  {
    hide Inv, Next, Frozen;
    if run != [] {
      FrozenKept(s, run[0], b);
      NextKeeps(s, run[0]);
      DeletingIsFinal(Next(s, run[0]), run[1..], b);
    }
  }

  lemma DeletedProjectKept(s: State, step: Step, p: Id)
    requires Inv(s) && p in s.projects && s.projects[p].deleted
    ensures p in Next(s, step).projects && Next(s, step).projects[p] == s.projects[p]
  {
    hide Referential, Exclusive, Apart, Logged, Matching, Blocked, Occupied, LocksMatch;
    match step
    case DoBegin(t, op) =>
    case DoRollback(t) =>
    case DoAdvance(t) =>
      if Committable(s, t) { WriteOf(s, t); }
  }

  // So is the deletion of a project.
  lemma {:induction false} ProjectDeletionIsFinal(s: State, run: seq<Step>, p: Id)
    requires Inv(s) && p in s.projects && s.projects[p].deleted
    ensures p in Run(s, run).projects && Run(s, run).projects[p] == s.projects[p]
    decreases |run|
  {
    hide Inv, Next;
    if run != [] {
      DeletedProjectKept(s, run[0], p);
      NextKeeps(s, run[0]);
      ProjectDeletionIsFinal(Next(s, run[0]), run[1..], p);
    }
  }

  // ---------------------------------------------------------------- waiting

  // How far a transaction is in the order in which locks are taken.
  function Rank(tx: Tx): nat {
    match NextLock(tx)
    case None => 2
    case Some(row) => if row.BoardRow? then 1 else 0
  }

  // Who is waited for is further on.
  lemma WaitsGoUp(s: State, t: TxId, u: TxId)
    requires Inv(s) && WaitsFor(s.txs, t, u)
    ensures Rank(s.txs[t]) < Rank(s.txs[u])
  {
    hide Referential, Exclusive, Apart, Logged;
    TxOf(s, u);
  }

  // Each of a cycle of transactions waits for the next.
  predicate WaitCycle(txs: Txs, cycle: seq<TxId>) {
    && |cycle| > 0 && WaitsFor(txs, cycle[|cycle| - 1], cycle[0])
    && forall i :: 0 < i < |cycle| ==> WaitsFor(txs, cycle[i - 1], cycle[i])
  }

  lemma {:induction false} RankAlong(s: State, cycle: seq<TxId>, i: nat)
    requires Inv(s) && WaitCycle(s.txs, cycle) && i < |cycle|
    ensures cycle[0] in s.txs && cycle[i] in s.txs && Rank(s.txs[cycle[0]]) + i <= Rank(s.txs[cycle[i]])
    decreases i
  {
    hide Inv, NextLock, Rank;
    if i > 0 {
      RankAlong(s, cycle, i - 1);
      WaitsGoUp(s, cycle[i - 1], cycle[i]);
    }
  }

  // Locking the project before the board excludes cyclic waits.
  lemma NoCyclicWait(run: seq<Step>, cycle: seq<TxId>)
    ensures !WaitCycle(Run(EMPTY, run).txs, cycle)
  {
    hide Inv, Run, Rank;
    EmptyInv();
    RunKeeps(EMPTY, run);
    var s := Run(EMPTY, run);
    if WaitCycle(s.txs, cycle) {
      var n := |cycle| - 1;
      RankAlong(s, cycle, n);
      WaitsGoUp(s, cycle[n], cycle[0]);
    }
  }

  // A transaction of the highest rank can go on.
  lemma {:induction false} SomeoneIsNotBlocked(s: State, t: TxId) returns (u: TxId)
    requires Inv(s) && t in s.txs
    ensures u in s.txs && !Blocked(s.txs, u)
    decreases 2 - Rank(s.txs[t])
  {
    hide Inv, NextLock, Rank;
    u := t;
    if Blocked(s.txs, t) {
      var v :| v in s.txs && WaitsFor(s.txs, t, v);
      WaitsGoUp(s, t, v);
      RankBound(s.txs[v]);
      u := SomeoneIsNotBlocked(s, v);
    }
  }

  lemma RankBound(tx: Tx)
    ensures Rank(tx) <= 2
  {
  }

  // Under every schedule, as long as a transaction is open some open one need not wait.
  lemma NoDeadlock(run: seq<Step>)
    requires Run(EMPTY, run).txs != map[]
    ensures exists u :: u in Run(EMPTY, run).txs && !Blocked(Run(EMPTY, run).txs, u)
  {
    hide Inv, Run, Blocked;
    EmptyInv();
    RunKeeps(EMPTY, run);
    var t :| t in Run(EMPTY, run).txs;
    var u := SomeoneIsNotBlocked(Run(EMPTY, run), t);
  }
}
