/** The durable collaboration protocol as a transition system: sockets, one serial room per board, and
    the committed history of every board's document, to which other servers commit as well. A CRDT
    state is the set of operations it holds and a merge is a union; an update is a set of operations.
    A step that the source performs while it holds the room's lock is one step here, except that a
    commit is two: other servers may commit between its read and its compare-and-swap. */
module CollabState {
  import opened Wrappers

  type Board = string
  type PeerId = nat
  type RoomId = nat
  type Op = nat
  type Ops = set<Op>

  datatype Document = Document(state: Ops, revision: nat)

  // A commit in progress: the author's update, merged with the version read as `base`.
  datatype Flight = Flight(author: PeerId, update: Ops, base: nat)

  datatype Room = Room(board: Board, doc: Document, members: set<PeerId>, failed: bool, flight: Option<Flight>)

  // `loaded` is the version read before joining. `replica` is what the client's own copy holds,
  // `accepted` what the server acknowledged to it, `synced` whether its first sync step was answered.
  datatype Peer = Peer(board: Board, room: Option<RoomId>, loaded: nat, ready: bool, stopped: bool,
                       synced: bool, replica: Ops, accepted: Ops)

  type Store = map<Board, seq<Ops>>   // version n of a board is entry n - 1
  type Registry = map<Board, RoomId>
  type Rooms = map<RoomId, Room>
  type Peers = map<PeerId, Peer>

  datatype Config = Config(maxConnections: nat, maxPeers: nat)

  predicate ConfigValid(c: Config) {
    1 <= c.maxConnections <= 25 && 1 <= c.maxPeers <= 5
  }

  datatype State = State(config: Config, store: Store, registry: Registry, rooms: Rooms, peers: Peers, closed: bool)

  // ---------------------------------------------------------------- building blocks

  function Stopped(peers: Peers, whom: set<PeerId>): Peers {
    map p | p in peers :: if p in whom then peers[p].(stopped := true) else peers[p]
  }

  // The room fails for good and every member's socket is closed.
  function Abort(s: State, o: RoomId): State
    requires o in s.rooms
  {
    s.(rooms := s.rooms[o := s.rooms[o].(failed := true, flight := None)],
       peers := Stopped(s.peers, s.rooms[o].members))
  }

  function Fail(s: State, p: PeerId): State {
    s.(peers := Stopped(s.peers, {p}))
  }

  // The room a peer joined.
  function RoomOf(s: State, p: PeerId): Option<RoomId> {
    if p in s.peers && s.peers[p].room.Some? && s.peers[p].room.value in s.rooms then s.peers[p].room else None
  }

  // ---------------------------------------------------------------- sockets and rooms

  function Connect(s: State, p: PeerId, board: Board): State {
    if p in s.peers || s.closed || |s.peers| >= s.config.maxConnections then s
    else s.(peers := s.peers[p := Peer(board, None, 0, false, false, false, {}, {})])
  }

  // The authorized read of the current version that precedes a join.
  function Load(s: State, p: PeerId): State {
    if p !in s.peers || s.peers[p].room.Some? || s.peers[p].board !in s.store then s
    else s.(peers := s.peers[p := s.peers[p].(loaded := |s.store[s.peers[p].board]|)])
  }

  // `o` names the room object allocated if the board has none.
  function Join(s: State, p: PeerId, o: RoomId): State {
    if p !in s.peers || s.peers[p].room.Some? || s.peers[p].loaded == 0 || s.peers[p].board !in s.store ||
       s.peers[p].loaded > |s.store[s.peers[p].board]| || o in s.rooms
    then s
    else if s.closed then Fail(s, p)
    else
      var peer := s.peers[p];
      var doc := Document(s.store[peer.board][peer.loaded - 1], peer.loaded);
      if peer.board !in s.registry || s.registry[peer.board] !in s.rooms then
        Entered(s.(registry := s.registry[peer.board := o], rooms := s.rooms[o := Room(peer.board, doc, {}, false, None)]), p, o)
      else
        var r := s.registry[peer.board];
        var room := s.rooms[r];
        if room.flight.Some? then s // the lock is taken
        else if room.failed || |room.members| >= s.config.maxPeers then Fail(s, p)
        else if room.doc.revision < doc.revision then Fail(Abort(s, r), p)
        else Entered(s, p, r)
  }

  function Entered(s: State, p: PeerId, o: RoomId): State
    requires p in s.peers && o in s.rooms
  {
    s.(rooms := s.rooms[o := s.rooms[o].(members := s.rooms[o].members + {p})],
       peers := s.peers[p := s.peers[p].(room := Some(o))])
  }

  // `sent` is whether the session-ready notice was written.
  function MakeReady(s: State, p: PeerId, sent: bool): State {
    var o := RoomOf(s, p);
    if o == None || s.rooms[o.value].flight.Some? then s
    else if s.rooms[o.value].failed || !sent then Fail(s, p)
    else s.(peers := s.peers[p := s.peers[p].(ready := true)])
  }

  function Leave(s: State, p: PeerId): State {
    if p !in s.peers then s
    else
      var o := RoomOf(s, p);
      if o == None then s.(peers := s.peers - {p})
      else
        var room := s.rooms[o.value];
        if room.flight.Some? then s
        else if room.members - {p} == {} then
          s.(registry := s.registry - {s.peers[p].board}, rooms := s.rooms - {o.value}, peers := s.peers - {p})
        else s.(rooms := s.rooms[o.value := room.(members := room.members - {p})], peers := s.peers - {p})
  }

  // ---------------------------------------------------------------- documents

  // The client edits, or learns operations elsewhere.
  function Edit(s: State, p: PeerId, ops: Ops): State {
    if p !in s.peers then s else s.(peers := s.peers[p := s.peers[p].(replica := s.peers[p].replica + ops)])
  }

  // The part of the room's document a client that has `vector` lacks.
  function Diff(state: Ops, vector: Ops): Ops {
    state - vector
  }

  function FirstSync(s: State, p: PeerId): State {
    var o := RoomOf(s, p);
    if o == None || !s.peers[p].ready || s.rooms[o.value].flight.Some? then s
    else if s.rooms[o.value].failed || s.peers[p].stopped then Fail(s, p)
    else
      var peer := s.peers[p];
      s.(peers := s.peers[p := peer.(replica := peer.replica + Diff(s.rooms[o.value].doc.state, peer.replica), synced := true)])
  }

  // The transaction of an update reads the committed version and compares it with the room's.
  function Begin(s: State, p: PeerId, update: Ops): State {
    var o := RoomOf(s, p);
    if o == None || !s.peers[p].ready || !(update <= s.peers[p].replica) || s.rooms[o.value].board !in s.store ||
       s.rooms[o.value].flight.Some?
    then s
    else
      var room := s.rooms[o.value];
      if room.failed then Fail(s, p)
      else if |s.store[room.board]| != room.doc.revision then Abort(s, o.value)
      else s.(rooms := s.rooms[o.value := room.(flight := Some(Flight(p, update, room.doc.revision)))])
  }

  // How the transaction and what follows it turn out. `Failed` is any error but a rejection: the
  // caller cannot tell whether the commit took place. `refused` are the recipients that lost access
  // or whose socket is broken; `noticed` and `acked` are whether the author's notice and
  // acknowledgement were written.
  datatype Outcome =
    | Rejected
    | Failed(committed: bool)
    | Done(noticed: bool, refused: set<PeerId>, acked: bool)

  function Committed(s: State, board: Board, state: Ops): State
    requires board in s.store
  {
    s.(store := s.store[board := s.store[board] + [state]])
  }

  // Who gets the update: ready members other than the author. The others are stopped on failure.
  function FanOut(peers: Peers, room: Room, author: PeerId, update: Ops, refused: set<PeerId>): Peers {
    map q | q in peers ::
      if q in room.members && q != author && peers[q].ready then
        if q in refused || peers[q].stopped then peers[q].(stopped := true)
        else peers[q].(replica := peers[q].replica + update)
      else peers[q]
  }

  function Acknowledge(peers: Peers, p: PeerId, update: Ops, acked: bool): Peers {
    if p !in peers then peers
    else if acked then peers[p := peers[p].(accepted := peers[p].accepted + update)]
    else peers[p := peers[p].(stopped := true)]
  }

  function Finish(s: State, o: RoomId, outcome: Outcome): State {
    if o !in s.rooms || s.rooms[o].flight == None || s.rooms[o].board !in s.store then s
    else
      var room := s.rooms[o];
      var f := room.flight.value;
      var landed := s.(rooms := s.rooms[o := room.(flight := None)]);
      var merged := room.doc.state + f.update;
      match outcome
      case Rejected => Fail(landed, f.author)
      case Failed(committed) =>
        if committed && merged != room.doc.state && |s.store[room.board]| == f.base
        then Abort(Committed(s, room.board, merged), o)
        else Abort(s, o)
      case Done(noticed, refused, acked) =>
        if merged == room.doc.state then
          landed.(peers := Acknowledge(s.peers, f.author, f.update, acked))
        else if |s.store[room.board]| != f.base then Abort(s, o)
        else
          var advanced := room.(doc := Document(merged, f.base + 1), flight := None);
          var t := Committed(s, room.board, merged).(rooms := s.rooms[o := advanced]);
          if !noticed then Fail(t, f.author)
          else t.(peers := Acknowledge(FanOut(s.peers, room, f.author, f.update, refused), f.author, f.update, acked))
  }

  // Another server commits a version.
  function Outside(s: State, board: Board, state: Ops): State {
    if board in s.store then Committed(s, board, state) else s
  }

  // The revision a checkpoint of p is answered with, if the room still serves.
  function Checkpoint(s: State, p: PeerId): Option<nat> {
    var o := RoomOf(s, p);
    if o == None || !s.peers[p].ready || s.rooms[o.value].failed || s.rooms[o.value].flight.Some? then None
    else Some(s.rooms[o.value].doc.revision)
  }

  // ---------------------------------------------------------------- steps

  datatype Step =
    | DoConnect(p: PeerId, board: Board)
    | DoLoad(p: PeerId)
    | DoJoin(p: PeerId, o: RoomId)
    | DoReady(p: PeerId, sent: bool)
    | DoStop(p: PeerId)
    | DoLeave(p: PeerId)
    | DoEdit(p: PeerId, ops: Ops)
    | DoFirstSync(p: PeerId)
    | DoBegin(p: PeerId, update: Ops)
    | DoFinish(o: RoomId, outcome: Outcome)
    | DoOutside(board: Board, state: Ops)
    | DoClose

  function Next(s: State, step: Step): State {
    match step
    case DoConnect(p, board) => Connect(s, p, board)
    case DoLoad(p) => Load(s, p)
    case DoJoin(p, o) => Join(s, p, o)
    case DoReady(p, sent) => MakeReady(s, p, sent)
    case DoStop(p) => Fail(s, p)
    case DoLeave(p) => Leave(s, p)
    case DoEdit(p, ops) => Edit(s, p, ops)
    case DoFirstSync(p) => FirstSync(s, p)
    case DoBegin(p, update) => Begin(s, p, update)
    case DoFinish(o, outcome) => Finish(s, o, outcome)
    case DoOutside(board, state) => Outside(s, board, state)
    case DoClose => s.(closed := true, peers := Stopped(s.peers, s.peers.Keys))
  }
}
