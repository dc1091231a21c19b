/** Commit before publication, and the room registry, over every run of the collaboration protocol. */
module CollabSafety {
  import opened Wrappers
  import opened CollabState

  // ---------------------------------------------------------------- the invariant

  // The room's document is a committed version.
  predicate Versions(store: Store, rooms: Rooms) {
    forall o :: o in rooms ==>
      rooms[o].board in store && 1 <= rooms[o].doc.revision <= |store[rooms[o].board]| &&
      store[rooms[o].board][rooms[o].doc.revision - 1] == rooms[o].doc.state
  }

  // A commit in progress belongs to a ready member of a serving room and started from its document.
  predicate FlightValid(room: Room, peers: Peers) {
    room.flight.Some? ==>
      var f := room.flight.value;
      !room.failed && f.author in room.members && f.author in peers && peers[f.author].ready && f.base == room.doc.revision
  }

  predicate Flights(rooms: Rooms, peers: Peers) {
    forall o :: o in rooms ==> FlightValid(rooms[o], peers)
  }

  // A board has at most one room, with 1 to `limit` members; a peer that joined is a member of the
  // registered room of its board.
  ghost predicate Registered(registry: Registry, rooms: Rooms, limit: nat) {
    && (forall b :: b in registry ==> registry[b] in rooms && rooms[registry[b]].board == b)
    && (forall o :: o in rooms ==> rooms[o].board in registry && registry[rooms[o].board] == o)
    && (forall o :: o in rooms ==> 1 <= |rooms[o].members| <= limit)
  }

  predicate PeerSeated(p: PeerId, peer: Peer, rooms: Rooms) {
    && (peer.room.Some? ==>
          peer.room.value in rooms && p in rooms[peer.room.value].members && rooms[peer.room.value].board == peer.board)
    && (peer.ready ==> peer.room.Some?)
    && (peer.synced ==> peer.ready)
    && (peer.room == None ==> peer.accepted == {})
  }

  predicate Seated(rooms: Rooms, peers: Peers) {
    && (forall o, p :: o in rooms && p in rooms[o].members ==> p in peers && peers[p].room == Some(o))
    && (forall p :: p in peers ==> PeerSeated(p, peers[p], rooms))
  }

  // What each peer may rely on from its room: no service after a failure, and every acknowledged
  // update is in the document.
  predicate Served(peer: Peer, room: Room) {
    && (room.failed ==> peer.stopped)
    && peer.accepted <= room.doc.state
  }

  predicate AllServed(rooms: Rooms, peers: Peers) {
    forall p :: p in peers && peers[p].room.Some? && peers[p].room.value in rooms ==> Served(peers[p], rooms[peers[p].room.value])
  }

  ghost predicate Inv(s: State) {
    && ConfigValid(s.config)
    && Versions(s.store, s.rooms)
    && Flights(s.rooms, s.peers)
    && Registered(s.registry, s.rooms, s.config.maxPeers)
    && Seated(s.rooms, s.peers)
    && AllServed(s.rooms, s.peers)
    && |s.peers| <= s.config.maxConnections
  }

  // ---------------------------------------------------------------- edits of peers that keep their seats

  predicate SameSeats(peers: Peers, peers': Peers) {
    && peers'.Keys == peers.Keys
    && (forall p :: p in peers ==>
          peers'[p].board == peers[p].board && peers'[p].room == peers[p].room && (peers[p].ready ==> peers'[p].ready) &&
          (peers'[p].ready ==> peers'[p].room.Some?) && (peers'[p].synced ==> peers'[p].ready) &&
          (peers[p].room == None ==> peers'[p].accepted == peers[p].accepted))
  }

  lemma SeatsKept(rooms: Rooms, peers: Peers, peers': Peers)
    requires Seated(rooms, peers) && Flights(rooms, peers) && SameSeats(peers, peers')
    ensures Seated(rooms, peers') && Flights(rooms, peers')
  {
  }

  // A new state of one room that keeps its board and members.
  lemma RoomKept(rooms: Rooms, peers: Peers, o: RoomId, room: Room)
    requires Seated(rooms, peers) && Flights(rooms, peers) && o in rooms
    requires room.board == rooms[o].board && room.members == rooms[o].members && FlightValid(room, peers)
    ensures Seated(rooms[o := room], peers) && Flights(rooms[o := room], peers)
  {
  }

  lemma RegistryKept(registry: Registry, rooms: Rooms, limit: nat, o: RoomId, room: Room)
    requires Registered(registry, rooms, limit) && o in rooms
    requires room.board == rooms[o].board && 1 <= |room.members| <= limit
    ensures Registered(registry, rooms[o := room], limit)
  {
  }

  lemma VersionsGrow(store: Store, rooms: Rooms, board: Board, state: Ops)
    requires Versions(store, rooms) && board in store
    ensures Versions(store[board := store[board] + [state]], rooms)
  {
  }

  lemma SamePeerCount(peers: Peers, peers': Peers)
    requires peers'.Keys == peers.Keys
    ensures |peers'| == |peers|
  {
    assert |peers'| == |peers'.Keys| && |peers| == |peers.Keys|;
  }

  lemma StoppedKeeps(peers: Peers, whom: set<PeerId>, rooms: Rooms)
    requires Seated(rooms, peers)
    ensures SameSeats(peers, Stopped(peers, whom))
    ensures AllServed(rooms, peers) ==> AllServed(rooms, Stopped(peers, whom))
  {
  }

  // ---------------------------------------------------------------- steps

  lemma FailKeeps(s: State, p: PeerId)
    requires Inv(s)
    ensures Inv(Fail(s, p))
  {
    hide Versions, Flights, Registered, Seated, AllServed;
    StopKeeps(s, {p});
  }

  lemma StopKeeps(s: State, whom: set<PeerId>)
    requires Inv(s)
    ensures Inv(s.(peers := Stopped(s.peers, whom)))
  {
    hide Versions, Flights, Registered, Seated, AllServed;
    StoppedKeeps(s.peers, whom, s.rooms);
    SeatsKept(s.rooms, s.peers, Stopped(s.peers, whom));
    SamePeerCount(s.peers, Stopped(s.peers, whom));
  }

  lemma AbortKeeps(s: State, o: RoomId)
    requires Inv(s) && o in s.rooms
    ensures Inv(Abort(s, o))
  {
    hide Versions, Flights, Registered, Seated, AllServed, FlightValid;
    var room := s.rooms[o].(failed := true, flight := None);
    var peers := Stopped(s.peers, s.rooms[o].members);
    StoppedKeeps(s.peers, s.rooms[o].members, s.rooms);
    SeatsKept(s.rooms, s.peers, peers);
    NoFlight(room, peers);
    RoomKept(s.rooms, peers, o, room);
    MembersOf(s, o);
    RegistryKept(s.registry, s.rooms, s.config.maxPeers, o, room);
    SamePeerCount(s.peers, peers);
    VersionsKept(s.store, s.rooms, o, room);
    AbortServes(s.rooms, s.peers, o, room);
  }

  lemma NoFlight(room: Room, peers: Peers)
    ensures room.flight == None ==> FlightValid(room, peers)
  {
  }

  lemma MembersOf(s: State, o: RoomId)
    requires Inv(s) && o in s.rooms
    ensures 1 <= |s.rooms[o].members| <= s.config.maxPeers && s.rooms[o].board in s.store
    ensures s.rooms[o].board in s.registry && s.registry[s.rooms[o].board] == o
    ensures 1 <= s.rooms[o].doc.revision <= |s.store[s.rooms[o].board]|
    ensures s.store[s.rooms[o].board][s.rooms[o].doc.revision - 1] == s.rooms[o].doc.state
    ensures FlightValid(s.rooms[o], s.peers)
  {
    hide Seated, AllServed;
  }

  lemma VersionsKept(store: Store, rooms: Rooms, o: RoomId, room: Room)
    requires Versions(store, rooms) && o in rooms && room.board == rooms[o].board && room.doc == rooms[o].doc
    ensures Versions(store, rooms[o := room])
  {
  }

  lemma AbortServes(rooms: Rooms, peers: Peers, o: RoomId, room: Room)
    requires Seated(rooms, peers) && AllServed(rooms, peers) && o in rooms
    requires room.board == rooms[o].board && room.members == rooms[o].members && room.doc == rooms[o].doc
    ensures AllServed(rooms[o := room], Stopped(peers, rooms[o].members))
  {
  }

  lemma ConnectKeeps(s: State, p: PeerId, board: Board)
    requires Inv(s)
    ensures Inv(Connect(s, p, board))
  {
    hide Versions, Registered, Flights, Seated, AllServed;
    var peers := s.peers[p := Peer(board, None, 0, false, false, false, {}, {})];
    assert peers.Keys == s.peers.Keys + {p};
    assert |peers| == |peers.Keys| && |s.peers| == |s.peers.Keys|;
    if p !in s.peers { NewPeerSeated(s.rooms, s.peers, p, board); }
  }

  lemma NewPeerSeated(rooms: Rooms, peers: Peers, p: PeerId, board: Board)
    requires Seated(rooms, peers) && Flights(rooms, peers) && AllServed(rooms, peers) && p !in peers
    ensures Seated(rooms, peers[p := Peer(board, None, 0, false, false, false, {}, {})])
    ensures Flights(rooms, peers[p := Peer(board, None, 0, false, false, false, {}, {})])
    ensures AllServed(rooms, peers[p := Peer(board, None, 0, false, false, false, {}, {})])
  {
  }

  // Edits that touch only what a client knows.
  lemma PeerEditKeeps(s: State, p: PeerId, peer: Peer)
    requires Inv(s) && p in s.peers
    requires peer.board == s.peers[p].board && peer.room == s.peers[p].room && (s.peers[p].ready ==> peer.ready)
    requires (peer.ready ==> peer.room.Some?) && (peer.synced ==> peer.ready)
    requires (s.peers[p].stopped ==> peer.stopped) && peer.accepted == s.peers[p].accepted
    ensures Inv(s.(peers := s.peers[p := peer]))
  {
    hide Versions, Flights, Registered, Seated;
    var peers := s.peers[p := peer];
    assert peers.Keys == s.peers.Keys;
    SameSeatsEdit(s.rooms, s.peers, p, peer);
    SeatsKept(s.rooms, s.peers, peers);
    SamePeerCount(s.peers, peers);
  }

  lemma SameSeatsEdit(rooms: Rooms, peers: Peers, p: PeerId, peer: Peer)
    requires Seated(rooms, peers) && p in peers
    requires peer.board == peers[p].board && peer.room == peers[p].room && (peers[p].ready ==> peer.ready)
    requires (peer.ready ==> peer.room.Some?) && (peer.synced ==> peer.ready)
    requires peer.room == None ==> peer.accepted == peers[p].accepted
    ensures SameSeats(peers, peers[p := peer])
  {
  }

  lemma EnteredKeeps(s: State, p: PeerId, o: RoomId)
    requires Inv(s) && p in s.peers && s.peers[p].room == None && o in s.rooms
    requires s.rooms[o].flight == None && !s.rooms[o].failed && |s.rooms[o].members| < s.config.maxPeers
    requires s.rooms[o].board == s.peers[p].board && s.peers[p].accepted == {}
    ensures Inv(Entered(s, p, o))
  {
    hide Versions, Registered, AllServed, Seated, Flights;
    var room := s.rooms[o].(members := s.rooms[o].members + {p});
    MembersOf(s, o);
    assert |room.members| <= |s.rooms[o].members| + 1 && s.rooms[o].members <= room.members;
    AtLeast(s.rooms[o].members, room.members);
    RegistryKept(s.registry, s.rooms, s.config.maxPeers, o, room);
    VersionsKept(s.store, s.rooms, o, room);
    EnteredSeats(s.rooms, s.peers, p, o);
    SamePeerCount(s.peers, s.peers[p := s.peers[p].(room := Some(o))]);
  }

  lemma AtLeast<T>(a: set<T>, b: set<T>)
    requires a <= b
    ensures |a| <= |b|
  {
    assert b == a + (b - a);
  }

  lemma EnteredSeats(rooms: Rooms, peers: Peers, p: PeerId, o: RoomId)
    requires Seated(rooms, peers) && Flights(rooms, peers) && AllServed(rooms, peers)
    requires p in peers && peers[p].room == None && o in rooms && rooms[o].flight == None && !rooms[o].failed
    requires rooms[o].board == peers[p].board && peers[p].accepted == {}
    ensures Seated(rooms[o := rooms[o].(members := rooms[o].members + {p})], peers[p := peers[p].(room := Some(o))])
    ensures Flights(rooms[o := rooms[o].(members := rooms[o].members + {p})], peers[p := peers[p].(room := Some(o))])
    ensures AllServed(rooms[o := rooms[o].(members := rooms[o].members + {p})], peers[p := peers[p].(room := Some(o))])
  {
  }

  // The board's first member brings the room object along.
  lemma FirstMemberKeeps(s: State, p: PeerId, o: RoomId, doc: Document)
    requires Inv(s) && p in s.peers && s.peers[p].room == None && s.peers[p].accepted == {} && o !in s.rooms
    requires s.peers[p].board !in s.registry && s.peers[p].board in s.store
    requires 1 <= doc.revision <= |s.store[s.peers[p].board]| && s.store[s.peers[p].board][doc.revision - 1] == doc.state
    ensures Inv(Entered(s.(registry := s.registry[s.peers[p].board := o],
                           rooms := s.rooms[o := Room(s.peers[p].board, doc, {}, false, None)]), p, o))
  {
    hide Versions, Registered, AllServed, Seated, Flights;
    var room := Room(s.peers[p].board, doc, {p}, false, None);
    FirstMemberSeats(s.rooms, s.peers, p, o, room);
    FirstMemberRegistry(s.registry, s.rooms, s.config.maxPeers, o, room);
    FirstMemberVersions(s.store, s.rooms, o, room);
    SamePeerCount(s.peers, s.peers[p := s.peers[p].(room := Some(o))]);
    assert s.rooms[o := Room(s.peers[p].board, doc, {}, false, None)][o := room] == s.rooms[o := room];
    assert {} + {p} == {p};
  }

  lemma FirstMemberSeats(rooms: Rooms, peers: Peers, p: PeerId, o: RoomId, room: Room)
    requires Seated(rooms, peers) && Flights(rooms, peers) && AllServed(rooms, peers)
    requires p in peers && peers[p].room == None && peers[p].accepted == {} && o !in rooms
    requires room.board == peers[p].board && room.members == {p} && !room.failed && room.flight == None
    ensures Seated(rooms[o := room], peers[p := peers[p].(room := Some(o))])
    ensures Flights(rooms[o := room], peers[p := peers[p].(room := Some(o))])
    ensures AllServed(rooms[o := room], peers[p := peers[p].(room := Some(o))])
  {
  }

  lemma FirstMemberRegistry(registry: Registry, rooms: Rooms, limit: nat, o: RoomId, room: Room)
    requires Registered(registry, rooms, limit) && o !in rooms && room.board !in registry && |room.members| == 1 <= limit
    ensures Registered(registry[room.board := o], rooms[o := room], limit)
  {
  }

  lemma FirstMemberVersions(store: Store, rooms: Rooms, o: RoomId, room: Room)
    requires Versions(store, rooms)
    requires room.board in store && 1 <= room.doc.revision <= |store[room.board]|
    requires store[room.board][room.doc.revision - 1] == room.doc.state
    ensures Versions(store, rooms[o := room])
  {
  }

  lemma Newcomer(s: State, p: PeerId)
    requires Inv(s) && p in s.peers && s.peers[p].room == None
    ensures s.peers[p].accepted == {}
  {
    hide Versions, Registered, Flights, AllServed;
  }

  lemma RegisteredRoom(s: State, board: Board)
    requires Inv(s) && board in s.registry
    ensures s.registry[board] in s.rooms && s.rooms[s.registry[board]].board == board
  {
    hide Versions, Seated, Flights, AllServed;
  }

  lemma JoinKeeps(s: State, p: PeerId, o: RoomId)
    requires Inv(s)
    ensures Inv(Join(s, p, o))
  {
    hide Inv, Entered, Abort, Fail;
    FailKeeps(s, p);
    if p in s.peers && s.peers[p].room == None && s.peers[p].board in s.store && o !in s.rooms &&
       1 <= s.peers[p].loaded <= |s.store[s.peers[p].board]|
    {
      var peer := s.peers[p];
      Newcomer(s, p);
      if peer.board in s.registry {
        RegisteredRoom(s, peer.board);
        var r := s.registry[peer.board];
        AbortKeeps(s, r);
        FailKeeps(Abort(s, r), p);
        if s.rooms[r].flight == None && !s.rooms[r].failed && |s.rooms[r].members| < s.config.maxPeers {
          EnteredKeeps(s, p, r);
        }
      } else {
        FirstMemberKeeps(s, p, o, Document(s.store[peer.board][peer.loaded - 1], peer.loaded));
      }
    }
  }

  lemma SeatOf(s: State, p: PeerId)
    requires Inv(s) && p in s.peers && s.peers[p].room.Some?
    ensures RoomOf(s, p) == s.peers[p].room && p in s.rooms[s.peers[p].room.value].members
    ensures s.rooms[s.peers[p].room.value].board == s.peers[p].board
  {
    hide Versions, Registered, Flights, AllServed;
  }

  lemma ReadyKeeps(s: State, p: PeerId, sent: bool)
    requires Inv(s)
    ensures Inv(MakeReady(s, p, sent))
  {
    hide Inv, Fail;
    FailKeeps(s, p);
    if RoomOf(s, p).Some? { PeerEditKeeps(s, p, s.peers[p].(ready := true)); }
  }

  lemma LeaveKeeps(s: State, p: PeerId)
    requires Inv(s)
    ensures Inv(Leave(s, p))
  {
    hide Versions, Registered, Flights, AllServed, Seated;
    if p in s.peers {
      Fewer(s.peers, p);
      if s.peers[p].room.Some? {
        var o := s.peers[p].room.value;
        SeatOf(s, p);
        MembersOf(s, o);
        var room := s.rooms[o].(members := s.rooms[o].members - {p});
        if s.rooms[o].flight == None {
          if room.members == {} {
            LastOneOut(s.registry, s.rooms, s.peers, s.config.maxPeers, p, o);
            VersionsWithout(s.store, s.rooms, o);
          } else {
            assert |room.members| == |s.rooms[o].members| - 1;
            MemberOut(s.rooms, s.peers, p, o);
            RegistryKept(s.registry, s.rooms, s.config.maxPeers, o, room);
            VersionsKept(s.store, s.rooms, o, room);
          }
        }
      } else {
        StrangerOut(s.rooms, s.peers, p);
      }
    }
  }

  lemma Fewer(peers: Peers, p: PeerId)
    ensures |peers - {p}| <= |peers|
  {
    assert (peers - {p}).Keys == peers.Keys - {p};
    assert |peers - {p}| == |(peers - {p}).Keys| && |peers| == |peers.Keys|;
    AtLeast(peers.Keys - {p}, peers.Keys);
  }

  lemma VersionsWithout(store: Store, rooms: Rooms, o: RoomId)
    requires Versions(store, rooms)
    ensures Versions(store, rooms - {o})
  {
  }

  lemma LastOneOut(registry: Registry, rooms: Rooms, peers: Peers, limit: nat, p: PeerId, o: RoomId)
    requires Registered(registry, rooms, limit) && Seated(rooms, peers) && Flights(rooms, peers) && AllServed(rooms, peers)
    requires p in peers && o in rooms && rooms[o].members == {p} && rooms[o].board == peers[p].board
    ensures Registered(registry - {peers[p].board}, rooms - {o}, limit)
    ensures Seated(rooms - {o}, peers - {p}) && Flights(rooms - {o}, peers - {p}) && AllServed(rooms - {o}, peers - {p})
  {
    forall x, q | x in rooms - {o} && q in rooms[x].members ensures q != p {
      assert peers[q].room == Some(x);
      assert peers[p].room == Some(o);
    }
  }

  lemma MemberOut(rooms: Rooms, peers: Peers, p: PeerId, o: RoomId)
    requires Seated(rooms, peers) && Flights(rooms, peers) && AllServed(rooms, peers)
    requires p in peers && o in rooms && p in rooms[o].members && rooms[o].flight == None
    ensures Seated(rooms[o := rooms[o].(members := rooms[o].members - {p})], peers - {p})
    ensures Flights(rooms[o := rooms[o].(members := rooms[o].members - {p})], peers - {p})
    ensures AllServed(rooms[o := rooms[o].(members := rooms[o].members - {p})], peers - {p})
  {
    forall x, q | x in rooms && x != o && q in rooms[x].members ensures q != p {
      assert peers[q].room == Some(x);
      assert peers[p].room == Some(o);
    }
  }

  lemma StrangerOut(rooms: Rooms, peers: Peers, p: PeerId)
    requires Seated(rooms, peers) && Flights(rooms, peers) && AllServed(rooms, peers) && p in peers && peers[p].room == None
    ensures Seated(rooms, peers - {p}) && Flights(rooms, peers - {p}) && AllServed(rooms, peers - {p})
  {
  }

  lemma LoadKeeps(s: State, p: PeerId)
    requires Inv(s)
    ensures Inv(Load(s, p))
  {
    hide Versions, Registered, Flights, AllServed, Seated;
    if p in s.peers && s.peers[p].board in s.store && s.peers[p].room == None {
      SeatFacts(s, p);
      PeerEditKeeps(s, p, s.peers[p].(loaded := |s.store[s.peers[p].board]|));
    }
  }

  lemma SeatFacts(s: State, p: PeerId)
    requires Inv(s) && p in s.peers
    ensures (s.peers[p].ready ==> s.peers[p].room.Some?) && (s.peers[p].synced ==> s.peers[p].ready)
  {
    hide Versions, Registered, Flights, AllServed;
  }

  lemma EditKeeps(s: State, p: PeerId, ops: Ops)
    requires Inv(s)
    ensures Inv(Edit(s, p, ops))
  {
    hide Inv;
    if p in s.peers {
      SeatFacts(s, p);
      PeerEditKeeps(s, p, s.peers[p].(replica := s.peers[p].replica + ops));
    }
  }

  lemma FirstSyncKeeps(s: State, p: PeerId)
    requires Inv(s)
    ensures Inv(FirstSync(s, p))
  {
    hide Inv, Fail;
    FailKeeps(s, p);
    var o := RoomOf(s, p);
    if o.Some? && s.peers[p].ready {
      var peer := s.peers[p];
      PeerEditKeeps(s, p, peer.(replica := peer.replica + Diff(s.rooms[o.value].doc.state, peer.replica), synced := true));
    }
  }

  lemma BeginKeeps(s: State, p: PeerId, update: Ops)
    requires Inv(s)
    ensures Inv(Begin(s, p, update))
  {
    hide Versions, Registered, AllServed, Seated, Flights, Fail, Abort;
    FailKeeps(s, p);
    var o := RoomOf(s, p);
    if o.Some? {
      SeatOf(s, p);
      AbortKeeps(s, o.value);
      MembersOf(s, o.value);
      var room := s.rooms[o.value].(flight := Some(Flight(p, update, s.rooms[o.value].doc.revision)));
      if s.peers[p].ready && !room.failed {
        RoomKept(s.rooms, s.peers, o.value, room);
        RegistryKept(s.registry, s.rooms, s.config.maxPeers, o.value, room);
        VersionsKept(s.store, s.rooms, o.value, room);
        ServedKept(s.rooms, s.peers, o.value, room);
      }
    }
  }

  lemma ServedKept(rooms: Rooms, peers: Peers, o: RoomId, room: Room)
    requires AllServed(rooms, peers) && o in rooms && room.failed == rooms[o].failed && rooms[o].doc.state <= room.doc.state
    ensures AllServed(rooms[o := room], peers)
  {
  }

  lemma OutsideKeeps(s: State, board: Board, state: Ops)
    requires Inv(s)
    ensures Inv(Outside(s, board, state))
  {
    hide Versions, Registered, AllServed, Seated, Flights;
    if board in s.store { VersionsGrow(s.store, s.rooms, board, state); }
  }

  // ---------------------------------------------------------------- the end of a commit

  lemma LandedKeeps(s: State, o: RoomId)
    requires Inv(s) && o in s.rooms
    ensures Inv(s.(rooms := s.rooms[o := s.rooms[o].(flight := None)]))
  {
    hide Versions, Registered, AllServed, Seated, Flights, FlightValid;
    var room := s.rooms[o].(flight := None);
    MembersOf(s, o);
    NoFlight(room, s.peers);
    RoomKept(s.rooms, s.peers, o, room);
    RegistryKept(s.registry, s.rooms, s.config.maxPeers, o, room);
    VersionsKept(s.store, s.rooms, o, room);
    ServedKept(s.rooms, s.peers, o, room);
  }

  // The new version and the room's document move together, by one revision.
  lemma AdvanceKeeps(s: State, o: RoomId, update: Ops)
    requires Inv(s) && o in s.rooms && s.rooms[o].board in s.store
    requires |s.store[s.rooms[o].board]| == s.rooms[o].doc.revision
    ensures Inv(Committed(s, s.rooms[o].board, s.rooms[o].doc.state + update).(rooms :=
              s.rooms[o := s.rooms[o].(doc := Document(s.rooms[o].doc.state + update, s.rooms[o].doc.revision + 1), flight := None)]))
  {
    hide Versions, Registered, AllServed, Seated, Flights, FlightValid;
    var room := s.rooms[o].(doc := Document(s.rooms[o].doc.state + update, s.rooms[o].doc.revision + 1), flight := None);
    MembersOf(s, o);
    NoFlight(room, s.peers);
    RoomKept(s.rooms, s.peers, o, room);
    RegistryKept(s.registry, s.rooms, s.config.maxPeers, o, room);
    AdvanceVersions(s.store, s.rooms, o, room);
    ServedKept(s.rooms, s.peers, o, room);
  }

  lemma AdvanceVersions(store: Store, rooms: Rooms, o: RoomId, room: Room)
    requires Versions(store, rooms) && o in rooms && room.board == rooms[o].board && room.board in store
    requires room.doc.revision == |store[room.board]| + 1
    ensures Versions(store[room.board := store[room.board] + [room.doc.state]], rooms[o := room])
  {
  }

  lemma FanOutKeeps(s: State, room: Room, author: PeerId, update: Ops, refused: set<PeerId>)
    requires Inv(s)
    ensures Inv(s.(peers := FanOut(s.peers, room, author, update, refused)))
  {
    hide Versions, Registered, Seated, Flights;
    var peers := FanOut(s.peers, room, author, update, refused);
    FanOutSeats(s.rooms, s.peers, room, author, update, refused);
    SeatsKept(s.rooms, s.peers, peers);
    SamePeerCount(s.peers, peers);
  }

  lemma FanOutSeats(rooms: Rooms, peers: Peers, room: Room, author: PeerId, update: Ops, refused: set<PeerId>)
    requires Seated(rooms, peers)
    ensures SameSeats(peers, FanOut(peers, room, author, update, refused))
  {
  }

  lemma AcknowledgeKeeps(s: State, p: PeerId, update: Ops, acked: bool)
    requires Inv(s) && (p in s.peers ==> RoomOf(s, p).Some? && update <= s.rooms[RoomOf(s, p).value].doc.state)
    ensures Inv(s.(peers := Acknowledge(s.peers, p, update, acked)))
  {
    hide Versions, Registered, Seated, Flights;
    if p in s.peers {
      SeatFacts(s, p);
      if acked {
        AcceptedKeeps(s, p, s.peers[p].(accepted := s.peers[p].accepted + update));
      } else {
        PeerEditKeeps(s, p, s.peers[p].(stopped := true));
      }
    }
  }

  lemma AcceptedKeeps(s: State, p: PeerId, peer: Peer)
    requires Inv(s) && p in s.peers && RoomOf(s, p).Some?
    requires peer == s.peers[p].(accepted := peer.accepted) && peer.accepted <= s.rooms[RoomOf(s, p).value].doc.state
    ensures Inv(s.(peers := s.peers[p := peer]))
  {
    hide Versions, Flights, Registered, Seated;
    SeatFacts(s, p);
    SameSeatsEdit(s.rooms, s.peers, p, peer);
    SeatsKept(s.rooms, s.peers, s.peers[p := peer]);
    SamePeerCount(s.peers, s.peers[p := peer]);
  }

  lemma AuthorOf(s: State, o: RoomId)
    requires Inv(s) && o in s.rooms && s.rooms[o].flight.Some?
    ensures var f := s.rooms[o].flight.value;
      f.author in s.peers && s.peers[f.author].room == Some(o) && f.author in s.rooms[o].members &&
      s.peers[f.author].ready && f.base == s.rooms[o].doc.revision && !s.rooms[o].failed
  {
    hide Versions, Registered, AllServed;
  }

  // The peers' seats do not change when the peers do.
  lemma SameRoomOf(s: State, t: State, p: PeerId)
    requires t.rooms.Keys == s.rooms.Keys && p in s.peers && p in t.peers && t.peers[p].room == s.peers[p].room
    ensures RoomOf(t, p) == RoomOf(s, p)
  {
  }

  // The state once the new version is committed and adopted by the room.
  function Advanced(s: State, o: RoomId): State
    requires o in s.rooms && s.rooms[o].flight.Some? && s.rooms[o].board in s.store
  {
    var room := s.rooms[o];
    var merged := room.doc.state + room.flight.value.update;
    Committed(s, room.board, merged).(rooms :=
      s.rooms[o := room.(doc := Document(merged, room.doc.revision + 1), flight := None)])
  }

  lemma PublishKeeps(s: State, o: RoomId, refused: set<PeerId>, acked: bool)
    requires Inv(s) && o in s.rooms && s.rooms[o].flight.Some? && s.rooms[o].board in s.store
    requires |s.store[s.rooms[o].board]| == s.rooms[o].doc.revision
    ensures var f := s.rooms[o].flight.value;
      Inv(Advanced(s, o).(peers := Acknowledge(FanOut(s.peers, s.rooms[o], f.author, f.update, refused), f.author, f.update, acked)))
  {
    hide Inv, Acknowledge;
    var f := s.rooms[o].flight.value;
    AuthorOf(s, o);
    AdvanceKeeps(s, o, f.update);
    var t := Advanced(s, o);
    FanOutKeeps(t, s.rooms[o], f.author, f.update, refused);
    var u := t.(peers := FanOut(s.peers, s.rooms[o], f.author, f.update, refused));
    AcknowledgeKeeps(u, f.author, f.update, acked);
  }

  lemma FinishKeeps(s: State, o: RoomId, outcome: Outcome)
    requires Inv(s)
    ensures Inv(Finish(s, o, outcome))
  {
    hide Inv, Abort, Fail, Acknowledge, FanOut;
    if o in s.rooms && s.rooms[o].flight.Some? && s.rooms[o].board in s.store {
      var f := s.rooms[o].flight.value;
      var merged := s.rooms[o].doc.state + f.update;
      AuthorOf(s, o);
      AbortKeeps(s, o);
      LandedKeeps(s, o);
      var landed := s.(rooms := s.rooms[o := s.rooms[o].(flight := None)]);
      match outcome
      case Rejected => FailKeeps(landed, f.author);
      case Failed(committed) =>
        OutsideKeeps(s, s.rooms[o].board, merged);
        AbortKeeps(Committed(s, s.rooms[o].board, merged), o);
      case Done(noticed, refused, acked) =>
        if merged == s.rooms[o].doc.state {
          SameRoomOf(s, landed, f.author);
          AcknowledgeKeeps(landed, f.author, f.update, acked);
        } else if |s.store[s.rooms[o].board]| == f.base {
          AdvanceKeeps(s, o, f.update);
          FailKeeps(Advanced(s, o), f.author);
          PublishKeeps(s, o, refused, acked);
        }
    }
  }

  // ---------------------------------------------------------------- every step, every run

  lemma NextKeeps(s: State, step: Step)
    requires Inv(s)
    ensures Inv(Next(s, step))
  {
    hide Inv, Connect, Load, Join, MakeReady, Fail, Leave, Edit, FirstSync, Begin, Finish, Outside;
    match step
    case DoConnect(p, board) => ConnectKeeps(s, p, board);
    case DoLoad(p) => LoadKeeps(s, p);
    case DoJoin(p, o) => JoinKeeps(s, p, o);
    case DoReady(p, sent) => ReadyKeeps(s, p, sent);
    case DoStop(p) => FailKeeps(s, p);
    case DoLeave(p) => LeaveKeeps(s, p);
    case DoEdit(p, ops) => EditKeeps(s, p, ops);
    case DoFirstSync(p) => FirstSyncKeeps(s, p);
    case DoBegin(p, update) => BeginKeeps(s, p, update);
    case DoFinish(o, outcome) => FinishKeeps(s, o, outcome);
    case DoOutside(board, state) => OutsideKeeps(s, board, state);
    case DoClose => CloseKeeps(s);
  }

  lemma CloseKeeps(s: State)
    requires Inv(s)
    ensures Inv(s.(closed := true, peers := Stopped(s.peers, s.peers.Keys)))
  {
    hide Versions, Registered, Flights, Seated, AllServed;
    StopKeeps(s, s.peers.Keys);
  }

  function Run(s: State, run: seq<Step>): State
    decreases |run|
  {
    if run == [] then s else Run(Next(s, run[0]), run[1..])
  }

  function Start(config: Config, store: Store): State {
    State(config, store, map[], map[], map[], false)
  }

  // Whatever the schedule, including competing and uncertain commits: every room, failed or not,
  // holds a committed version, every acknowledged update is in its document, and the registry is in
  // order.
  lemma {:induction false} RunKeeps(s: State, run: seq<Step>)
    requires Inv(s)
    ensures Inv(Run(s, run))
    decreases |run|
  {
    hide Inv, Next;
    if run != [] {
      NextKeeps(s, run[0]);
      RunKeeps(Next(s, run[0]), run[1..]);
    }
  }

  lemma CommitBeforePublication(config: Config, store: Store, run: seq<Step>, o: RoomId)
    requires ConfigValid(config) && o in Run(Start(config, store), run).rooms
    ensures var s := Run(Start(config, store), run);
      var room := s.rooms[o];
      room.board in s.store && 1 <= room.doc.revision <= |s.store[room.board]| &&
      room.doc.state == s.store[room.board][room.doc.revision - 1] &&
      room.board in s.registry && s.registry[room.board] == o && 1 <= |room.members| <= s.config.maxPeers
  {
    hide Inv;
    StartInv(config, store);
    RunKeeps(Start(config, store), run);
    MembersOf(Run(Start(config, store), run), o);
  }

  lemma StartInv(config: Config, store: Store)
    requires ConfigValid(config)
    ensures Inv(Start(config, store))
  {
  }

  // ---------------------------------------------------------------- what clients are told

  // `saved` with revision n: everything acknowledged to that client earlier is in version n.
  lemma SavedMeansContained(config: Config, store: Store, run: seq<Step>, p: PeerId)
    requires ConfigValid(config) && Checkpoint(Run(Start(config, store), run), p).Some?
    ensures var s := Run(Start(config, store), run);
      var n := Checkpoint(s, p).value;
      s.peers[p].board in s.store && 1 <= n <= |s.store[s.peers[p].board]| &&
      s.peers[p].accepted <= s.store[s.peers[p].board][n - 1]
  {
    hide Inv;
    StartInv(config, store);
    RunKeeps(Start(config, store), run);
    SavedHere(Run(Start(config, store), run), p);
  }

  lemma SavedHere(s: State, p: PeerId)
    requires Inv(s) && Checkpoint(s, p).Some?
    ensures s.peers[p].board in s.store && 1 <= Checkpoint(s, p).value <= |s.store[s.peers[p].board]|
    ensures s.peers[p].accepted <= s.store[s.peers[p].board][Checkpoint(s, p).value - 1]
  {
    hide Registered, Flights;
    SeatOf(s, p);
  }

  // The end of a commit either leaves the document of its room, or moves it to the version just
  // committed: the merge of the old one with the update, one revision later.
  lemma RevisionMovesByOne(s: State, o: RoomId, outcome: Outcome)
    requires Inv(s) && o in s.rooms && o in Finish(s, o, outcome).rooms
    ensures var t := Finish(s, o, outcome);
      t.rooms[o].doc == s.rooms[o].doc ||
      (s.rooms[o].flight.Some? && !t.rooms[o].failed &&
       t.rooms[o].doc.state == s.rooms[o].doc.state + s.rooms[o].flight.value.update != s.rooms[o].doc.state &&
       t.rooms[o].doc.revision == s.rooms[o].doc.revision + 1 && t.rooms[o].board in s.store &&
       t.store == s.store[t.rooms[o].board := s.store[t.rooms[o].board] + [t.rooms[o].doc.state]])
  {
    hide Registered, AllServed, Seated, FanOut, Acknowledge, Stopped, Versions;
    if s.rooms[o].flight.Some? { AuthorOf(s, o); }
  }

  // The client learned nothing from the server.
  predicate Untold(s: State, t: State, q: PeerId) {
    q in s.peers && q in t.peers && t.peers[q].replica == s.peers[q].replica && t.peers[q].accepted == s.peers[q].accepted
  }

  // All it learned or had acknowledged is part of `update`, which the serving room it is in holds now.
  predicate Sent(s: State, t: State, o: RoomId, q: PeerId, update: Ops) {
    && q in s.peers && q in t.peers && t.peers[q].room == Some(o)
    && o in t.rooms && !t.rooms[o].failed
    && update <= t.rooms[o].doc.state
    && t.peers[q].replica <= s.peers[q].replica + update
    && t.peers[q].accepted <= s.peers[q].accepted + update
  }

  // At the end of a commit nothing is sent but the update, and only once it is in the room's document;
  // a commit that failed, conflicted or was rejected reaches nobody.
  lemma FinishSends(s: State, o: RoomId, outcome: Outcome, q: PeerId)
    requires Inv(s) && q in s.peers
    ensures var t := Finish(s, o, outcome);
      Untold(s, t, q) || (o in s.rooms && s.rooms[o].flight.Some? && Sent(s, t, o, q, s.rooms[o].flight.value.update))
  {
    hide Inv, Stopped, FanOut, Acknowledge, Sent;
    if o in s.rooms && s.rooms[o].flight.Some? && s.rooms[o].board in s.store {
      var room := s.rooms[o];
      var f := room.flight.value;
      AuthorOf(s, o);
      StoppedLearnsNothing(s.peers, room.members, q);
      StoppedLearnsNothing(s.peers, {f.author}, q);
      if outcome.Done? {
        var t := Finish(s, o, outcome);
        if q in room.members { MemberSeated(s, o, q); }
        AcknowledgedTo(s.peers, f.author, f.update, outcome.acked, q);
        FannedOutTo(s.peers, room, f.author, f.update, outcome.refused, q);
        AcknowledgedTo(FanOut(s.peers, room, f.author, f.update, outcome.refused), f.author, f.update, outcome.acked, q);
        if q in room.members && o in t.rooms && !t.rooms[o].failed && q in t.peers && f.update <= t.rooms[o].doc.state {
          SentTo(s, t, o, q, f.update);
        }
      }
    }
  }

  lemma MemberSeated(s: State, o: RoomId, q: PeerId)
    requires Inv(s) && o in s.rooms && q in s.rooms[o].members
    ensures q in s.peers && s.peers[q].room == Some(o)
  {
    hide Versions, Registered, Flights, AllServed;
  }

  lemma SentTo(s: State, t: State, o: RoomId, q: PeerId, update: Ops)
    requires o in t.rooms && !t.rooms[o].failed && update <= t.rooms[o].doc.state && q in s.peers && q in t.peers && t.peers[q].room == Some(o)
    ensures t.peers[q].replica <= s.peers[q].replica + update && t.peers[q].accepted <= s.peers[q].accepted + update ==>
      Sent(s, t, o, q, update)
  {
  }

  lemma StoppedLearnsNothing(peers: Peers, whom: set<PeerId>, q: PeerId)
    requires q in peers
    ensures q in Stopped(peers, whom) && Stopped(peers, whom)[q].room == peers[q].room && Stopped(peers, whom)[q].ready == peers[q].ready
    ensures Stopped(peers, whom)[q].replica == peers[q].replica && Stopped(peers, whom)[q].accepted == peers[q].accepted
  {
  }

  lemma AcknowledgedTo(peers: Peers, p: PeerId, update: Ops, acked: bool, q: PeerId)
    ensures q in peers ==> q in Acknowledge(peers, p, update, acked)
    ensures q in peers ==> Acknowledge(peers, p, update, acked)[q].room == peers[q].room
    ensures q in peers ==> Acknowledge(peers, p, update, acked)[q].ready == peers[q].ready
    ensures q in peers ==> Acknowledge(peers, p, update, acked)[q].replica == peers[q].replica
    ensures q in peers ==> Acknowledge(peers, p, update, acked)[q].accepted <= peers[q].accepted + update
    ensures q in peers && q != p ==> Acknowledge(peers, p, update, acked)[q].accepted == peers[q].accepted
  {
  }

  lemma FannedOutTo(peers: Peers, room: Room, author: PeerId, update: Ops, refused: set<PeerId>, q: PeerId)
    requires q in peers
    ensures q in FanOut(peers, room, author, update, refused) && FanOut(peers, room, author, update, refused)[q].room == peers[q].room
    ensures FanOut(peers, room, author, update, refused)[q].ready == peers[q].ready
    ensures FanOut(peers, room, author, update, refused)[q].replica <= peers[q].replica + update
    ensures q !in room.members ==> FanOut(peers, room, author, update, refused)[q].replica == peers[q].replica
    ensures FanOut(peers, room, author, update, refused)[q].accepted == peers[q].accepted
  {
  }

  lemma FailSendsNothing(s: State, p: PeerId, q: PeerId)
    requires q in s.peers
    ensures Untold(s, Fail(s, p), q)
  {
  }

  lemma AbortSendsNothing(s: State, o: RoomId, q: PeerId)
    requires o in s.rooms && q in s.peers
    ensures Untold(s, Abort(s, o), q)
  {
  }

  lemma JoinSendsNothing(s: State, p: PeerId, o: RoomId, q: PeerId)
    requires q in s.peers
    ensures Untold(s, Join(s, p, o), q)
  {
    hide Fail, Abort;
    FailSendsNothing(s, p, q);
    if p in s.peers && s.peers[p].board in s.registry && s.registry[s.peers[p].board] in s.rooms {
      var r := s.registry[s.peers[p].board];
      AbortSendsNothing(s, r, q);
      FailSendsNothing(Abort(s, r), p, q);
    }
  }

  lemma LeaveSendsNothing(s: State, p: PeerId, q: PeerId)
    requires q in s.peers && q in Leave(s, p).peers
    ensures Untold(s, Leave(s, p), q)
  {
  }

  lemma BeginSendsNothing(s: State, p: PeerId, update: Ops, q: PeerId)
    requires q in s.peers
    ensures Untold(s, Begin(s, p, update), q)
  {
  }

  // The answer to a first sync step is part of the document of the client's room.
  lemma FirstSyncSends(s: State, p: PeerId, q: PeerId)
    requires q in s.peers
    ensures var t := FirstSync(s, p);
      Untold(s, t, q) ||
      (RoomOf(s, p).Some? && RoomOf(s, p).value in t.rooms && Sent(s, t, RoomOf(s, p).value, q, t.rooms[RoomOf(s, p).value].doc.state))
  {
  }

  // What some step told the client is all in one version of its board: the committed one that the
  // client's room, which serves, holds afterwards.
  predicate Learned(s: State, t: State, q: PeerId) {
    && q in s.peers && RoomOf(t, q).Some?
    && var room := t.rooms[RoomOf(t, q).value];
       !room.failed && room.board == t.peers[q].board && room.board in t.store && 1 <= room.doc.revision <= |t.store[room.board]| &&
       t.peers[q].replica <= s.peers[q].replica + t.store[room.board][room.doc.revision - 1] &&
       t.peers[q].accepted <= s.peers[q].accepted + t.store[room.board][room.doc.revision - 1]
  }

  lemma SentIsLearned(s: State, t: State, o: RoomId, q: PeerId, update: Ops)
    requires Inv(t) && Sent(s, t, o, q, update)
    ensures Learned(s, t, q)
  {
    hide Registered, Flights, AllServed;
    assert PeerSeated(q, t.peers[q], t.rooms);
  }

  lemma StepSends(s: State, step: Step, q: PeerId)
    requires Inv(s) && q in s.peers && q in Next(s, step).peers && !(step.DoEdit? && step.p == q)
    ensures Untold(s, Next(s, step), q) || Learned(s, Next(s, step), q)
  {
    hide Inv, Sent, Learned, Stopped, Join, Leave, FirstSync, Begin, Finish;
    var t := Next(s, step);
    NextKeeps(s, step);
    match step
    case DoJoin(p, o) => JoinSendsNothing(s, p, o, q);
    case DoLeave(p) => LeaveSendsNothing(s, p, q);
    case DoFirstSync(p) =>
      FirstSyncSends(s, p, q);
      if !Untold(s, t, q) { SentIsLearned(s, t, RoomOf(s, p).value, q, t.rooms[RoomOf(s, p).value].doc.state); }
    case DoBegin(p, update) => BeginSendsNothing(s, p, update, q);
    case DoFinish(o, outcome) =>
      FinishSends(s, o, outcome, q);
      if !Untold(s, t, q) { SentIsLearned(s, t, o, q, s.rooms[o].flight.value.update); }
    case DoClose => StoppedLearnsNothing(s.peers, s.peers.Keys, q);
    case DoReady(p, sent) => StoppedLearnsNothing(s.peers, {p}, q);
    case DoStop(p) => StoppedLearnsNothing(s.peers, {p}, q);
    case _ =>
  }

  // Over every run: apart from its own edits, a client learns nothing and has nothing acknowledged that
  // is not committed by then.
  lemma OnlyCommittedIsSent(config: Config, store: Store, run: seq<Step>, step: Step, q: PeerId)
    requires ConfigValid(config) && !(step.DoEdit? && step.p == q)
    requires var s := Run(Start(config, store), run); q in s.peers && q in Next(s, step).peers
    ensures var s := Run(Start(config, store), run);
      Untold(s, Next(s, step), q) || Learned(s, Next(s, step), q)
  {
    hide Inv, Next, Untold, Learned;
    StartInv(config, store);
    RunKeeps(Start(config, store), run);
    StepSends(Run(Start(config, store), run), step, q);
  }

  lemma StoreStays(s: State, step: Step)
    requires !step.DoFinish? && !step.DoOutside?
    ensures Next(s, step).store == s.store
  {
    hide Stopped, Diff, RoomOf, Join, Finish;
    if step.DoJoin? { JoinStays(s, step.p, step.o); }
  }

  lemma JoinStays(s: State, p: PeerId, o: RoomId)
    ensures Join(s, p, o).store == s.store
  {
    hide Stopped;
  }

  // Committed versions are never rewritten.
  lemma HistoryGrows(s: State, step: Step, board: Board)
    requires board in s.store
    ensures board in Next(s, step).store && s.store[board] <= Next(s, step).store[board]
  {
    hide Stopped, FanOut, Acknowledge, Connect, Load, Join, MakeReady, Leave, Edit, FirstSync, Begin;
    if !step.DoFinish? && !step.DoOutside? { StoreStays(s, step); }
  }

  lemma FailedThroughJoin(s: State, p: PeerId, q: RoomId, o: RoomId)
    requires o in s.rooms && s.rooms[o].failed
    ensures o in Join(s, p, q).rooms && Join(s, p, q).rooms[o].failed && Join(s, p, q).rooms[o].members <= s.rooms[o].members
  {
    hide Stopped;
  }

  lemma FailedThroughFinish(s: State, q: RoomId, outcome: Outcome, o: RoomId)
    requires o in s.rooms && s.rooms[o].failed
    ensures o in Finish(s, q, outcome).rooms && Finish(s, q, outcome).rooms[o].failed
    ensures Finish(s, q, outcome).rooms[o].members <= s.rooms[o].members
  {
    hide Stopped, FanOut, Acknowledge;
  }

  // A failed room stays failed and gains no member until its last one is gone.
  lemma FailedForGood(s: State, step: Step, o: RoomId)
    requires o in s.rooms && s.rooms[o].failed && o in Next(s, step).rooms
    ensures Next(s, step).rooms[o].failed && Next(s, step).rooms[o].members <= s.rooms[o].members
  {
    hide Stopped, Join, Finish;
    if step.DoJoin? { FailedThroughJoin(s, step.p, step.o, o); }
    if step.DoFinish? { FailedThroughFinish(s, step.o, step.outcome, o); }
  }

  // ---------------------------------------------------------------- failed rooms over whole runs

  // Room objects are allocated: no run names one twice. `used` are those named so far.
  function Allocated(step: Step): set<RoomId> {
    if step.DoJoin? then {step.o} else {}
  }

  predicate NewRooms(used: set<RoomId>, run: seq<Step>)
    decreases |run|
  {
    run == [] || (Allocated(run[0]) !! used && NewRooms(used + Allocated(run[0]), run[1..]))
  }

  function AllAllocated(used: set<RoomId>, run: seq<Step>): set<RoomId>
    decreases |run|
  {
    if run == [] then used else AllAllocated(used + Allocated(run[0]), run[1..])
  }

  lemma JoinRooms(s: State, p: PeerId, o: RoomId)
    ensures Join(s, p, o).rooms.Keys <= s.rooms.Keys + {o}
  {
    hide Stopped;
  }

  lemma FinishRooms(s: State, o: RoomId, outcome: Outcome)
    ensures Finish(s, o, outcome).rooms.Keys <= s.rooms.Keys
  {
    hide Stopped, FanOut, Acknowledge;
  }

  lemma StepRooms(s: State, step: Step)
    ensures Next(s, step).rooms.Keys <= s.rooms.Keys + Allocated(step)
  {
    hide Stopped, Join, Finish;
    if step.DoJoin? { JoinRooms(s, step.p, step.o); }
    if step.DoFinish? { FinishRooms(s, step.o, step.outcome); }
  }

  lemma {:induction false} RunRooms(s: State, used: set<RoomId>, run: seq<Step>)
    requires s.rooms.Keys <= used
    ensures Run(s, run).rooms.Keys <= AllAllocated(used, run)
    decreases |run|
  {
    hide Next, Allocated;
    if run != [] {
      StepRooms(s, run[0]);
      RunRooms(Next(s, run[0]), used + Allocated(run[0]), run[1..]);
    }
  }

  lemma {:induction false} NewRoomsLater(used: set<RoomId>, run: seq<Step>, more: seq<Step>)
    requires NewRooms(used, run + more)
    ensures NewRooms(AllAllocated(used, run), more)
    decreases |run|
  {
    if run == [] {
      assert run + more == more;
    } else {
      assert (run + more)[0] == run[0] && (run + more)[1..] == run[1..] + more;
      NewRoomsLater(used + Allocated(run[0]), run[1..], more);
    }
  }

  // Gone, or failed with no more members than these.
  predicate Dead(s: State, o: RoomId, members: set<PeerId>) {
    o in s.rooms ==> s.rooms[o].failed && s.rooms[o].members <= members
  }

  lemma {:induction false} DeadForGood(s: State, used: set<RoomId>, run: seq<Step>, o: RoomId, members: set<PeerId>)
    requires s.rooms.Keys <= used && NewRooms(used, run) && o in used && Dead(s, o, members)
    ensures Dead(Run(s, run), o, members)
    decreases |run|
  {
    hide Next;
    if run != [] {
      StepRooms(s, run[0]);
      if o in Next(s, run[0]).rooms { FailedForGood(s, run[0], o); }
      DeadForGood(Next(s, run[0]), used + Allocated(run[0]), run[1..], o, members);
    }
  }

  lemma FinishSeats(s: State, o: RoomId, outcome: Outcome, q: PeerId)
    requires q in s.peers
    ensures q in Finish(s, o, outcome).peers
    ensures Finish(s, o, outcome).peers[q].room == s.peers[q].room && Finish(s, o, outcome).peers[q].ready == s.peers[q].ready
  {
    hide Stopped, FanOut, Acknowledge;
    if o in s.rooms && s.rooms[o].flight.Some? {
      var room := s.rooms[o];
      var f := room.flight.value;
      StoppedLearnsNothing(s.peers, room.members, q);
      StoppedLearnsNothing(s.peers, {f.author}, q);
      if outcome.Done? {
        var sent := FanOut(s.peers, room, f.author, f.update, outcome.refused);
        AcknowledgedTo(s.peers, f.author, f.update, outcome.acked, q);
        FannedOutTo(s.peers, room, f.author, f.update, outcome.refused, q);
        AcknowledgedTo(sent, f.author, f.update, outcome.acked, q);
      }
    }
  }

  lemma JoinSeats(s: State, p: PeerId, o: RoomId, q: PeerId)
    requires q in s.peers && s.peers[q].room.Some?
    ensures q in Join(s, p, o).peers
    ensures Join(s, p, o).peers[q].room == s.peers[q].room && Join(s, p, o).peers[q].ready == s.peers[q].ready
  {
  }

  lemma BeginSeats(s: State, p: PeerId, update: Ops, q: PeerId)
    requires q in s.peers
    ensures q in Begin(s, p, update).peers
    ensures Begin(s, p, update).peers[q].room == s.peers[q].room && Begin(s, p, update).peers[q].ready == s.peers[q].ready
  {
  }

  // A peer that joined keeps its room, and nobody is admitted to a failed one.
  lemma StepSeats(s: State, step: Step, q: PeerId, o: RoomId)
    requires q in s.peers && s.peers[q].room == Some(o) && q in Next(s, step).peers && o in s.rooms && s.rooms[o].failed
    ensures Next(s, step).peers[q].room == Some(o) && (Next(s, step).peers[q].ready ==> s.peers[q].ready)
  {
    hide Join, Finish, Begin, Stopped;
    if step.DoStop? || step.DoReady? || step.DoFirstSync? { StoppedLearnsNothing(s.peers, {step.p}, q); }
    if step.DoClose? { StoppedLearnsNothing(s.peers, s.peers.Keys, q); }
    match step
    case DoJoin(p, r) => JoinSeats(s, p, r, q);
    case DoFinish(r, outcome) => FinishSeats(s, r, outcome, q);
    case DoBegin(p, update) => BeginSeats(s, p, update, q);
    case _ =>
  }

  // What a failed room does to a client that is in it: no step tells it anything or admits it.
  predicate Unserved(s: State, step: Step, q: PeerId) {
    var t := Next(s, step);
    && q in s.peers && Checkpoint(s, q) == None
    && (q in t.peers ==> (t.peers[q].ready ==> s.peers[q].ready) && (Untold(s, t, q) || (step.DoEdit? && step.p == q)))
  }

  lemma FailedServesNobody(s: State, step: Step, q: PeerId, o: RoomId)
    requires Inv(s) && q in s.peers && s.peers[q].room == Some(o) && o in s.rooms && s.rooms[o].failed
    ensures Unserved(s, step, q)
  {
    hide Inv, Next;
    if q in Next(s, step).peers {
      StepSeats(s, step, q, o);
      if !(step.DoEdit? && step.p == q) {
        StepSends(s, step, q);
        if o in Next(s, step).rooms { FailedForGood(s, step, o); }
      }
    }
  }

  // Over every run: a room that failed is never seen serving again. It gains no member, and no step
  // sends, acknowledges or checkpoints anything to a client in it or makes it ready.
  lemma FailedRoomStaysFailed(config: Config, store: Store, run: seq<Step>, later: seq<Step>, o: RoomId)
    requires ConfigValid(config) && NewRooms({}, run + later)
    requires var s := Run(Start(config, store), run); o in s.rooms && s.rooms[o].failed
    ensures var s := Run(Start(config, store), run);
      var t := Run(s, later);
      Dead(t, o, s.rooms[o].members) &&
      forall q, step :: q in t.peers && t.peers[q].room == Some(o) ==> Unserved(t, step, q)
  {
    hide Inv, Next, Dead, Unserved, NewRooms;
    var s := Run(Start(config, store), run);
    var t := Run(s, later);
    StartInv(config, store);
    RunKeeps(Start(config, store), run);
    RunKeeps(s, later);
    RunRooms(Start(config, store), {}, run);
    NewRoomsLater({}, run, later);
    NowDead(s, o);
    DeadForGood(s, AllAllocated({}, run), later, o, s.rooms[o].members);
    forall q, step | q in t.peers && t.peers[q].room == Some(o) ensures Unserved(t, step, q) {
      SeatOf(t, q);
      DeadFails(t, o, s.rooms[o].members);
      FailedServesNobody(t, step, q, o);
    }
  }

  lemma NowDead(s: State, o: RoomId)
    requires o in s.rooms && s.rooms[o].failed
    ensures Dead(s, o, s.rooms[o].members)
  {
  }

  lemma DeadFails(s: State, o: RoomId, members: set<PeerId>)
    requires Dead(s, o, members) && o in s.rooms
    ensures s.rooms[o].failed
  {
  }
}
