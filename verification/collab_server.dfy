/** The collaboration server object and the database it commits to. Its methods update the registry,
    the rooms and the peers in place; each is the part of the source that runs under the room's lock,
    and is proved against the step of the same name. */
module CollabServer {
  import opened Wrappers
  import opened CollabState
  import opened CollabSafety

  class Server {
    const config: Config
    var store: Store
    var registry: Registry
    var rooms: Rooms
    var peers: Peers
    var closed: bool

    ghost function Model(): State
      reads this
    {
      State(config, store, registry, rooms, peers, closed)
    }

    constructor (config: Config, store: Store)
      requires ConfigValid(config)
      ensures Model() == Start(config, store) && Inv(Model())
    {
      this.config := config;
      this.store, registry, rooms, peers, closed := store, map[], map[], map[], false;
      new;
      StartInv(config, store);
    }

    // The configured limits: none given means the greatest, and any other must be in range.
    static method Configure(maxConnections: int, maxPeers: int, store: Store) returns (server: Server?)
      ensures server == null <==> !(0 <= maxConnections <= 25 && 0 <= maxPeers <= 5)
      ensures server != null ==>
        fresh(server) && Inv(server.Model()) && 1 <= server.config.maxConnections && 1 <= server.config.maxPeers &&
        server.Model() == Start(Config(if maxConnections == 0 then 25 else maxConnections, if maxPeers == 0 then 5 else maxPeers), store)
    {
      var connections, peers := maxConnections, maxPeers;
      if connections == 0 { connections := 25; }
      if peers == 0 { peers := 5; }
      if connections < 1 || connections > 25 || peers < 1 || peers > 5 { return null; }
      server := new Server(Config(connections, peers), store);
    }

    method Stop(p: PeerId)
      modifies this`peers
      ensures peers == Stopped(old(peers), {p})
    {
      if p in peers {
        peers := peers[p := peers[p].(stopped := true)];
      }
    }

    method StopAll(whom: set<PeerId>)
      modifies this`peers
      ensures peers == Stopped(old(peers), whom)
    {
      var todo := whom;
      while todo != {}
        invariant todo <= whom
        invariant peers == Stopped(old(peers), whom - todo)
        decreases todo
      {
        var p :| p in todo;
        StoppedMore(old(peers), whom - todo, p);
        Stop(p);
        assert whom - (todo - {p}) == (whom - todo) + {p};
        todo := todo - {p};
      }
      assert whom - todo == whom;
    }

    method AbortRoom(o: RoomId)
      requires Inv(Model()) && o in rooms
      modifies this
      ensures Model() == Abort(old(Model()), o) && Inv(Model())
    {
      hide Inv;
      AbortKeeps(Model(), o);
      rooms := rooms[o := rooms[o].(failed := true, flight := None)];
      StopAll(rooms[o].members);
    }

    // A socket is admitted while the server is open and below its limit.
    method Serve(p: PeerId, board: Board)
      requires Inv(Model()) && p !in peers
      modifies this
      ensures Model() == Connect(old(Model()), p, board) && Inv(Model())
    {
      hide Inv;
      ConnectKeeps(Model(), p, board);
      if closed || |peers| >= config.maxConnections { return; }
      peers := peers[p := Peer(board, None, 0, false, false, false, {}, {})];
    }

    // `o` is a room object not in use, allocated when the board has no room.
    method Join(p: PeerId, doc: Document, o: RoomId)
      requires Inv(Model()) && o !in rooms
      requires p in peers && peers[p].room == None && peers[p].board in store
      requires 1 <= peers[p].loaded == doc.revision <= |store[peers[p].board]|
      requires doc.state == store[peers[p].board][doc.revision - 1]
      requires peers[p].board in registry && registry[peers[p].board] in rooms ==> rooms[registry[peers[p].board]].flight == None
      modifies this
      ensures Model() == CollabState.Join(old(Model()), p, o) && Inv(Model())
    {
      hide Inv, Stopped;
      JoinKeeps(Model(), p, o);
      if closed {
        Stop(p);
        return;
      }
      var board := peers[p].board;
      var known := board in registry;
      var r := o;
      if known {
        RegisteredRoom(Model(), board);
        r := registry[board];
      } else {
        rooms := rooms[o := Room(board, doc, {}, false, None)];
        registry := registry[board := o];
      }
      if known && (rooms[r].failed || |rooms[r].members| >= config.maxPeers) {
        Stop(p);
        return;
      }
      if rooms[r].doc.revision < doc.revision {
        AbortRoom(r);
        Stop(p);
        return;
      }
      rooms := rooms[r := rooms[r].(members := rooms[r].members + {p})];
      peers := peers[p := peers[p].(room := Some(r))];
    }

    method Leave(p: PeerId)
      requires Inv(Model()) && p in peers
      requires RoomOf(Model(), p).Some? ==> rooms[RoomOf(Model(), p).value].flight == None
      modifies this
      ensures Model() == CollabState.Leave(old(Model()), p) && Inv(Model())
    {
      hide Inv;
      LeaveKeeps(Model(), p);
      var peer := peers[p];
      peers := peers - {p};
      if peer.room == None { return; }
      SeatOf(old(Model()), p);
      var r := peer.room.value;
      var members := rooms[r].members - {p};
      if |members| == 0 {
        registry := registry - {peer.board};
        rooms := rooms - {r};
      } else {
        rooms := rooms[r := rooms[r].(members := members)];
      }
    }

    // Sync step 1: answer with what the client's state vector lacks.
    method SyncStep(p: PeerId)
      requires Inv(Model()) && p in peers && peers[p].room.Some? && peers[p].ready
      requires RoomOf(Model(), p).Some? ==> rooms[RoomOf(Model(), p).value].flight == None
      modifies this`peers
      ensures Model() == FirstSync(old(Model()), p) && Inv(Model())
    {
      hide Inv;
      FirstSyncKeeps(Model(), p);
      SeatOf(Model(), p);
      var rm := rooms[peers[p].room.value];
      if rm.failed || peers[p].stopped {
        Stop(p);
        return;
      }
      var reply := rm.doc.state - peers[p].replica;
      peers := peers[p := peers[p].(replica := peers[p].replica + reply, synced := true)];
    }

    // An update is applied to the version the room holds; a version that moved aborts the room.
    method StartSync(p: PeerId, update: Ops)
      requires Inv(Model()) && p in peers && peers[p].room.Some? && peers[p].ready && update <= peers[p].replica
      requires RoomOf(Model(), p).Some? ==> rooms[RoomOf(Model(), p).value].flight == None
      modifies this
      ensures Model() == Begin(old(Model()), p, update) && Inv(Model())
    {
      hide Inv;
      BeginKeeps(Model(), p, update);
      SeatOf(Model(), p);
      var o := peers[p].room.value;
      var room := rooms[o];
      MembersOf(Model(), o);
      if room.failed {
        Stop(p);
        return;
      }
      if |store[room.board]| != room.doc.revision {
        AbortRoom(o);
        return;
      }
      rooms := rooms[o := room.(flight := Some(Flight(p, update, room.doc.revision)))];
    }

    // The revision to answer a checkpoint with, or an error.
    method SaveCheckpoint(p: PeerId) returns (saved: Option<nat>)
      requires Inv(Model()) && p in peers && peers[p].room.Some? && peers[p].ready
      requires RoomOf(Model(), p).Some? ==> rooms[RoomOf(Model(), p).value].flight == None
      ensures saved == Checkpoint(Model(), p)
      ensures saved.Some? ==>
        peers[p].board in store && 1 <= saved.value <= |store[peers[p].board]| &&
        peers[p].accepted <= store[peers[p].board][saved.value - 1]
    {
      hide Inv;
      SeatOf(Model(), p);
      var room := rooms[peers[p].room.value];
      if room.failed { return None; }
      SavedHere(Model(), p);
      return Some(room.doc.revision);
    }

    // Close stops every socket and admits none.
    method Close()
      requires Inv(Model())
      modifies this
      ensures Model() == Next(old(Model()), DoClose) && Inv(Model())
    {
      hide Inv;
      CloseKeeps(Model());
      closed := true;
      StopAll(peers.Keys);
    }

    // The database's compare-and-swap: one row updated, or a conflict.
    method Save(board: Board, revision: nat, state: Ops) returns (saved: bool)
      requires board in store
      modifies this`store
      ensures saved == (|old(store)[board]| == revision)
      ensures store == if saved then old(store)[board := old(store)[board] + [state]] else old(store)
    {
      saved := |store[board]| == revision;
      if saved {
        store := store[board := store[board] + [state]];
      }
    }

    // Reauthorize every other ready member, then send it the raw update; stop whoever fails.
    method SendToOthers(room: Room, author: PeerId, update: Ops, refused: set<PeerId>)
      requires room.members <= peers.Keys
      modifies this`peers
      ensures peers == FanOut(old(peers), room, author, update, refused)
    {
      var todo := room.members;
      while todo != {}
        invariant todo <= room.members && peers.Keys == old(peers).Keys
        invariant forall q :: q in peers ==>
          peers[q] == if q in todo then old(peers)[q] else FanOut(old(peers), room, author, update, refused)[q]
        decreases todo
      {
        var q :| q in todo;
        if q != author && peers[q].ready {
          if q in refused || peers[q].stopped {
            peers := peers[q := peers[q].(stopped := true)];
          } else {
            peers := peers[q := peers[q].(replica := peers[q].replica + update)];
          }
        }
        todo := todo - {q};
      }
      assert peers == FanOut(old(peers), room, author, update, refused);
    }

    // The rest of an update's handling after its version was read: merge, compare-and-swap, then
    // publication. The outcome says what fails on the way.
    method FinishSync(o: RoomId, outcome: Outcome)
      requires Inv(Model()) && o in rooms && rooms[o].flight.Some?
      modifies this
      ensures Model() == Finish(old(Model()), o, outcome) && Inv(Model())
    {
      hide Inv, Stopped, FanOut;
      FinishKeeps(Model(), o, outcome);
      AuthorOf(Model(), o);
      MembersOf(Model(), o);
      var room := rooms[o];
      var f := room.flight.value;
      var merged := room.doc.state + f.update;
      if outcome.Rejected? {
        rooms := rooms[o := room.(flight := None)];
        Stop(f.author);
        return;
      }
      if merged == room.doc.state && outcome.Done? {
        rooms := rooms[o := room.(flight := None)];
        Answer(f.author, f.update, outcome.acked);
        return;
      }
      if outcome.Failed? {
        if outcome.committed && merged != room.doc.state {
          OutsideKeeps(Model(), room.board, merged);
          var _ := Save(room.board, f.base, merged);
        }
        AbortRoom(o);
        return;
      }
      OutsideKeeps(Model(), room.board, merged);
      var saved := Save(room.board, f.base, merged);
      if !saved {
        AbortRoom(o);
        return;
      }
      rooms := rooms[o := room.(doc := Document(merged, f.base + 1), flight := None)];
      if !outcome.noticed {
        Stop(f.author);
        return;
      }
      SeatedMembers(old(Model()), o);
      SendToOthers(room, f.author, f.update, outcome.refused);
      Answer(f.author, f.update, outcome.acked);
    }

    method Answer(p: PeerId, update: Ops, acked: bool)
      modifies this`peers
      ensures peers == Acknowledge(old(peers), p, update, acked)
    {
      if p in peers {
        if acked {
          peers := peers[p := peers[p].(accepted := peers[p].accepted + update)];
        } else {
          peers := peers[p := peers[p].(stopped := true)];
        }
      }
    }
  }

  lemma StoppedMore(peers: Peers, whom: set<PeerId>, p: PeerId)
    ensures Stopped(peers, whom + {p}) == Stopped(Stopped(peers, whom), {p})
  {
  }

  lemma SeatedMembers(s: State, o: RoomId)
    requires Inv(s) && o in s.rooms
    ensures s.rooms[o].members <= s.peers.Keys
  {
    hide Versions, Registered, Flights, AllServed;
  }
}
