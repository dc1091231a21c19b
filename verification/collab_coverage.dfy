/** Replica coverage: although only the raw update is sent to the other clients, a running client whose
    first sync step was answered always holds everything its room's document holds. This is false
    when the author's post-commit notice fails: the source then returns before the fan-out. */
module CollabCoverage {
  import opened Wrappers
  import opened CollabState
  import opened CollabSafety

  predicate Covers(peer: Peer, room: Room) {
    !room.failed && !peer.stopped && peer.synced ==> room.doc.state <= peer.replica
  }

  predicate AllCover(rooms: Rooms, peers: Peers) {
    forall p :: p in peers && peers[p].room.Some? && peers[p].room.value in rooms ==> Covers(peers[p], rooms[peers[p].room.value])
  }

  // An author holds the update it sent.
  predicate Authored(rooms: Rooms, peers: Peers) {
    forall o :: o in rooms && rooms[o].flight.Some? && rooms[o].flight.value.author in peers ==>
      rooms[o].flight.value.update <= peers[rooms[o].flight.value.author].replica
  }

  ghost predicate Covered(s: State) {
    Inv(s) && AllCover(s.rooms, s.peers) && Authored(s.rooms, s.peers)
  }

  // A commit that changed the document and whose author could not be notified.
  predicate SkipsFanOut(s: State, step: Step) {
    && step.DoFinish? && step.outcome.Done? && !step.outcome.noticed
    && step.o in s.rooms && s.rooms[step.o].flight.Some? && s.rooms[step.o].board in s.store
    && !(s.rooms[step.o].flight.value.update <= s.rooms[step.o].doc.state)
    && |s.store[s.rooms[step.o].board]| == s.rooms[step.o].doc.revision
  }

  // ---------------------------------------------------------------- frames

  // Peers keep their room, learn more, and do not start or resume syncing.
  predicate Learns(peers: Peers, peers': Peers) {
    && peers'.Keys <= peers.Keys
    && (forall p :: p in peers' ==>
          peers'[p].room == peers[p].room && peers[p].replica <= peers'[p].replica &&
          (peers[p].stopped ==> peers'[p].stopped) && (peers'[p].synced ==> peers[p].synced))
  }

  // Rooms keep their document; commits in progress are not swapped.
  predicate SameDocs(rooms: Rooms, rooms': Rooms) {
    && rooms'.Keys <= rooms.Keys
    && (forall o :: o in rooms' ==>
          rooms'[o].doc.state == rooms[o].doc.state && (rooms[o].failed ==> rooms'[o].failed) &&
          (rooms'[o].flight == None || rooms'[o].flight == rooms[o].flight))
  }

  lemma FrameCovers(rooms: Rooms, peers: Peers, rooms': Rooms, peers': Peers)
    requires AllCover(rooms, peers) && Authored(rooms, peers) && Learns(peers, peers') && SameDocs(rooms, rooms')
    ensures AllCover(rooms', peers') && Authored(rooms', peers')
  {
  }

  // ---------------------------------------------------------------- steps

  lemma StoppedFrame(peers: Peers, whom: set<PeerId>)
    ensures Learns(peers, Stopped(peers, whom))
  {
  }

  lemma EditFrame(s: State, p: PeerId, ops: Ops)
    ensures Learns(s.peers, Edit(s, p, ops).peers) && SameDocs(s.rooms, Edit(s, p, ops).rooms)
  {
    if p in s.peers { OneLearns(s.peers, p, s.peers[p].(replica := s.peers[p].replica + ops)); }
    NoDocChange(s.rooms);
    hide Learns, SameDocs;
  }

  lemma OneLearns(peers: Peers, p: PeerId, peer: Peer)
    requires p in peers && peer.room == peers[p].room && peers[p].replica <= peer.replica
    requires (peers[p].stopped ==> peer.stopped) && (peer.synced ==> peers[p].synced)
    ensures Learns(peers, peers[p := peer])
  {
  }

  lemma LoadFrame(s: State, p: PeerId)
    ensures Learns(s.peers, Load(s, p).peers) && SameDocs(s.rooms, Load(s, p).rooms)
  {
  }

  lemma ReadyFrame(s: State, p: PeerId, sent: bool)
    ensures Learns(s.peers, MakeReady(s, p, sent).peers) && SameDocs(s.rooms, MakeReady(s, p, sent).rooms)
  {
    hide Stopped;
    StoppedFrame(s.peers, {p});
  }

  lemma LeaveFrame(s: State, p: PeerId)
    ensures Learns(s.peers, Leave(s, p).peers) && SameDocs(s.rooms, Leave(s, p).rooms)
  {
    LeaveRooms(s, p);
    EditFrameNone(s.peers);
    OneLeaves(s.peers, p);
    hide Learns, SameDocs;
  }

  lemma LeaveRooms(s: State, p: PeerId)
    ensures SameDocs(s.rooms, Leave(s, p).rooms)
  {
  }

  lemma OneLeaves(peers: Peers, p: PeerId)
    ensures Learns(peers, peers - {p})
  {
  }

  lemma NoDocChange(rooms: Rooms)
    ensures SameDocs(rooms, rooms)
  {
  }

  lemma AbortFrame(s: State, o: RoomId)
    requires o in s.rooms
    ensures Learns(s.peers, Abort(s, o).peers) && SameDocs(s.rooms, Abort(s, o).rooms)
  {
    hide Stopped;
    StoppedFrame(s.peers, s.rooms[o].members);
  }

  lemma FailFrame(s: State, p: PeerId)
    ensures Learns(s.peers, Fail(s, p).peers) && SameDocs(s.rooms, Fail(s, p).rooms)
  {
    hide Stopped;
    StoppedFrame(s.peers, {p});
  }

  lemma QuietStepsCover(s: State, step: Step)
    requires AllCover(s.rooms, s.peers) && Authored(s.rooms, s.peers)
    requires step.DoLoad? || step.DoReady? || step.DoStop? || step.DoLeave? || step.DoEdit? || step.DoOutside? || step.DoClose?
    ensures AllCover(Next(s, step).rooms, Next(s, step).peers) && Authored(Next(s, step).rooms, Next(s, step).peers)
  {
    hide AllCover, Authored, Learns, SameDocs, Load, MakeReady, Fail, Leave, Edit, Stopped, RoomOf;
    var t := Next(s, step);
    NoDocChange(s.rooms);
    StoppedFrame(s.peers, {});
    match step {
      case DoLoad(p) => LoadFrame(s, p);
      case DoReady(p, sent) => ReadyFrame(s, p, sent);
      case DoStop(p) => FailFrame(s, p);
      case DoLeave(p) => LeaveFrame(s, p);
      case DoEdit(p, ops) => EditFrame(s, p, ops);
      case DoOutside(board, state) => EditFrameNone(s.peers);
      case DoClose => StoppedFrame(s.peers, s.peers.Keys);
    }
    FrameCovers(s.rooms, s.peers, t.rooms, t.peers);
  }

  lemma EditFrameNone(peers: Peers)
    ensures Learns(peers, peers)
  {
  }

  lemma ConnectCovers(s: State, p: PeerId, board: Board)
    requires AllCover(s.rooms, s.peers) && Authored(s.rooms, s.peers) && Flights(s.rooms, s.peers)
    ensures AllCover(Connect(s, p, board).rooms, Connect(s, p, board).peers)
    ensures Authored(Connect(s, p, board).rooms, Connect(s, p, board).peers)
  {
  }

  lemma EnteredCovers(s: State, p: PeerId, o: RoomId)
    requires AllCover(s.rooms, s.peers) && Authored(s.rooms, s.peers)
    requires p in s.peers && !s.peers[p].synced && o in s.rooms
    ensures AllCover(Entered(s, p, o).rooms, Entered(s, p, o).peers)
    ensures Authored(Entered(s, p, o).rooms, Entered(s, p, o).peers)
  {
  }

  lemma NewRoomCovers(rooms: Rooms, peers: Peers, o: RoomId, room: Room)
    requires AllCover(rooms, peers) && Authored(rooms, peers) && Seated(rooms, peers) && o !in rooms && room.flight == None
    ensures AllCover(rooms[o := room], peers) && Authored(rooms[o := room], peers)
  {
  }

  lemma JoinCovers(s: State, p: PeerId, o: RoomId)
    requires Covered(s)
    ensures AllCover(Join(s, p, o).rooms, Join(s, p, o).peers) && Authored(Join(s, p, o).rooms, Join(s, p, o).peers)
  {
    hide Inv, AllCover, Authored, Entered, Abort, Fail, Learns, SameDocs;
    FailFrame(s, p);
    FrameCovers(s.rooms, s.peers, Fail(s, p).rooms, Fail(s, p).peers);
    if p in s.peers && s.peers[p].room == None && s.peers[p].board in s.store && o !in s.rooms &&
       1 <= s.peers[p].loaded <= |s.store[s.peers[p].board]|
    {
      var peer := s.peers[p];
      SeatFacts(s, p);
      if peer.board in s.registry {
        RegisteredRoom(s, peer.board);
        var r := s.registry[peer.board];
        EnteredCovers(s, p, r);
        AbortFrame(s, r);
        FrameCovers(s.rooms, s.peers, Abort(s, r).rooms, Abort(s, r).peers);
        FailFrame(Abort(s, r), p);
        FrameCovers(Abort(s, r).rooms, Abort(s, r).peers, Fail(Abort(s, r), p).rooms, Fail(Abort(s, r), p).peers);
      } else {
        var room := Room(peer.board, Document(s.store[peer.board][peer.loaded - 1], peer.loaded), {}, false, None);
        var t := s.(registry := s.registry[peer.board := o], rooms := s.rooms[o := room]);
        SeatsOf(s);
        NewRoomCovers(s.rooms, s.peers, o, room);
        EnteredCovers(t, p, o);
      }
    }
  }

  lemma SeatsOf(s: State)
    requires Inv(s)
    ensures Seated(s.rooms, s.peers) && Flights(s.rooms, s.peers)
  {
  }

  // Answering the first sync step is what makes a client cover the document.
  lemma FirstSyncCovers(s: State, p: PeerId)
    requires AllCover(s.rooms, s.peers) && Authored(s.rooms, s.peers)
    ensures AllCover(FirstSync(s, p).rooms, FirstSync(s, p).peers) && Authored(FirstSync(s, p).rooms, FirstSync(s, p).peers)
  {
    hide Fail;
    FailFrame(s, p);
    FrameCovers(s.rooms, s.peers, Fail(s, p).rooms, Fail(s, p).peers);
  }

  lemma BeginCovers(s: State, p: PeerId, update: Ops)
    requires AllCover(s.rooms, s.peers) && Authored(s.rooms, s.peers)
    ensures AllCover(Begin(s, p, update).rooms, Begin(s, p, update).peers)
    ensures Authored(Begin(s, p, update).rooms, Begin(s, p, update).peers)
  {
    hide Fail, Abort;
    FailFrame(s, p);
    FrameCovers(s.rooms, s.peers, Fail(s, p).rooms, Fail(s, p).peers);
    if RoomOf(s, p).Some? {
      AbortFrame(s, RoomOf(s, p).value);
      FrameCovers(s.rooms, s.peers, Abort(s, RoomOf(s, p).value).rooms, Abort(s, RoomOf(s, p).value).peers);
    }
  }

  // ---------------------------------------------------------------- the end of a commit

  // A published update reaches every member that covers, or stops it.
  lemma FanOutCovers(s: State, o: RoomId, q: PeerId, refused: set<PeerId>)
    requires Covered(s) && o in s.rooms && s.rooms[o].flight.Some? && q in s.peers && s.peers[q].room == Some(o)
    ensures var f := s.rooms[o].flight.value;
      var peer := FanOut(s.peers, s.rooms[o], f.author, f.update, refused)[q];
      !s.rooms[o].failed && !peer.stopped && peer.synced ==> s.rooms[o].doc.state + f.update <= peer.replica
  {
    hide Versions, Registered, AllServed;
    AuthorOf(s, o);
    SeatOf(s, q);
    assert Covers(s.peers[q], s.rooms[o]);
    assert PeerSeated(q, s.peers[q], s.rooms);
  }

  // The room's document advances; what is left to show is that its members follow.
  lemma AdvancedCovers(s: State, o: RoomId, peers: Peers)
    requires AllCover(s.rooms, s.peers) && Authored(s.rooms, s.peers) && Learns(s.peers, peers)
    requires o in s.rooms && s.rooms[o].flight.Some? && s.rooms[o].board in s.store
    requires forall q :: q in peers && peers[q].room == Some(o) ==> Covers(peers[q], Advanced(s, o).rooms[o])
    ensures AllCover(Advanced(s, o).rooms, peers) && Authored(Advanced(s, o).rooms, peers)
  {
  }

  lemma FanOutFrame(peers: Peers, room: Room, author: PeerId, update: Ops, refused: set<PeerId>)
    ensures Learns(peers, FanOut(peers, room, author, update, refused))
  {
  }

  lemma AcknowledgeFrame(peers: Peers, p: PeerId, update: Ops, acked: bool)
    ensures Learns(peers, Acknowledge(peers, p, update, acked))
  {
  }

  lemma LearnsTwice(a: Peers, b: Peers, c: Peers)
    requires Learns(a, b) && Learns(b, c)
    ensures Learns(a, c)
  {
  }

  lemma PublishCovers(s: State, o: RoomId, refused: set<PeerId>, acked: bool)
    requires Covered(s) && o in s.rooms && s.rooms[o].flight.Some? && s.rooms[o].board in s.store
    ensures var f := s.rooms[o].flight.value;
      var peers := Acknowledge(FanOut(s.peers, s.rooms[o], f.author, f.update, refused), f.author, f.update, acked);
      AllCover(Advanced(s, o).rooms, peers) && Authored(Advanced(s, o).rooms, peers)
  {
    hide Inv, AllCover, Authored, FanOut, Acknowledge;
    var f := s.rooms[o].flight.value;
    AuthorOf(s, o);
    var sent := FanOut(s.peers, s.rooms[o], f.author, f.update, refused);
    var peers := Acknowledge(sent, f.author, f.update, acked);
    FanOutFrame(s.peers, s.rooms[o], f.author, f.update, refused);
    AcknowledgeFrame(sent, f.author, f.update, acked);
    LearnsTwice(s.peers, sent, peers);
    forall q | q in peers && peers[q].room == Some(o) ensures Covers(peers[q], Advanced(s, o).rooms[o]) {
      FanOutCovers(s, o, q, refused);
    }
    AdvancedCovers(s, o, peers);
  }

  // Every other running client of the room has the update already.
  predicate OthersHave(s: State, o: RoomId, author: PeerId, update: Ops) {
    forall q :: q in s.peers && q != author && s.peers[q].room == Some(o) && !s.peers[q].stopped && s.peers[q].synced ==>
      update <= s.peers[q].replica
  }

  // When the author's notice fails after the commit, coverage survives exactly if nobody else
  // needed the update.
  lemma SkippedFanOut(s: State, o: RoomId)
    requires Covered(s) && o in s.rooms && s.rooms[o].flight.Some? && s.rooms[o].board in s.store
    ensures var f := s.rooms[o].flight.value;
      var t := Fail(Advanced(s, o), f.author);
      AllCover(t.rooms, t.peers) <==> OthersHave(s, o, f.author, f.update)
    ensures var t := Fail(Advanced(s, o), s.rooms[o].flight.value.author); Authored(t.rooms, t.peers)
  {
    hide Versions, Registered, AllServed;
    AuthorOf(s, o);
    var f := s.rooms[o].flight.value;
    var t := Fail(Advanced(s, o), f.author);
    forall q | q in s.peers && s.peers[q].room == Some(o)
      ensures Covers(t.peers[q], t.rooms[o]) <==>
        q == f.author || s.peers[q].stopped || !s.peers[q].synced || f.update <= s.peers[q].replica
    {
      assert Covers(s.peers[q], s.rooms[o]);
    }
    if OthersHave(s, o, f.author, f.update) {
      StoppedFrame(s.peers, {f.author});
      AdvancedCovers(s, o, t.peers);
    } else {
      var q :| q in s.peers && q != f.author && s.peers[q].room == Some(o) && !s.peers[q].stopped && s.peers[q].synced &&
        !(f.update <= s.peers[q].replica);
      assert !Covers(t.peers[q], t.rooms[o]);
    }
  }

  lemma FinishCovers(s: State, o: RoomId, outcome: Outcome)
    requires Covered(s) && !SkipsFanOut(s, DoFinish(o, outcome))
    ensures AllCover(Finish(s, o, outcome).rooms, Finish(s, o, outcome).peers)
    ensures Authored(Finish(s, o, outcome).rooms, Finish(s, o, outcome).peers)
  {
    hide Inv, AllCover, Authored, Abort, Fail, Acknowledge, FanOut, Learns;
    if o in s.rooms && s.rooms[o].flight.Some? && s.rooms[o].board in s.store {
      var room := s.rooms[o];
      var f := room.flight.value;
      var landed := s.(rooms := s.rooms[o := room.(flight := None)]);
      var t := Finish(s, o, outcome);
      AuthorOf(s, o);
      AbortFrame(s, o);
      FrameCovers(s.rooms, s.peers, Abort(s, o).rooms, Abort(s, o).peers);
      FailFrame(landed, f.author);
      AcknowledgeFrame(s.peers, f.author, f.update, true);
      AcknowledgeFrame(s.peers, f.author, f.update, false);
      match outcome
      case Rejected => FrameCovers(s.rooms, s.peers, t.rooms, t.peers);
      case Failed(committed) =>
        var u := Committed(s, room.board, room.doc.state + f.update);
        AbortFrame(u, o);
        FrameCovers(s.rooms, s.peers, Abort(u, o).rooms, Abort(u, o).peers);
      case Done(noticed, refused, acked) =>
        if room.doc.state + f.update == room.doc.state {
          FrameCovers(s.rooms, s.peers, t.rooms, t.peers);
        } else if |s.store[room.board]| == f.base {
          assert !(f.update <= room.doc.state);
          PublishCovers(s, o, refused, acked);
        }
    }
  }

  // ---------------------------------------------------------------- every step, every run

  // The step skips the fan-out although another running client needs the update.
  predicate Misses(s: State, step: Step) {
    SkipsFanOut(s, step) && !OthersHave(s, step.o, s.rooms[step.o].flight.value.author, s.rooms[step.o].flight.value.update)
  }

  // The one step that can break coverage is a commit whose author could not be notified, and it does
  // so exactly when another running client lacked the update.
  lemma CoverageIsExact(s: State, step: Step)
    requires Covered(s)
    ensures Covered(Next(s, step)) <==> !Misses(s, step)
  {
    hide Inv, AllCover, Authored, Flights, OthersHave, Connect, Load, Join, MakeReady, Fail, Leave, Edit, FirstSync, Begin, Outside;
    NextKeeps(s, step);
    SeatsOf(s);
    if SkipsFanOut(s, step) {
      AuthorOf(s, step.o);
      SkippedFanOut(s, step.o);
    } else {
      match step
      case DoConnect(p, board) => ConnectCovers(s, p, board);
      case DoJoin(p, o) => JoinCovers(s, p, o);
      case DoFirstSync(p) => FirstSyncCovers(s, p);
      case DoBegin(p, update) => BeginCovers(s, p, update);
      case DoFinish(o, outcome) => FinishCovers(s, o, outcome);
      case _ => QuietStepsCover(s, step);
    }
  }

  // A schedule in which no running client is passed over.
  predicate NobodyMissed(s: State, run: seq<Step>)
    decreases |run|
  {
    run == [] || (!Misses(s, run[0]) && NobodyMissed(Next(s, run[0]), run[1..]))
  }

  ghost predicate AlwaysCovered(s: State, run: seq<Step>) {
    forall i :: 0 <= i <= |run| ==> Covered(Run(s, run[..i]))
  }

  lemma AlwaysCoveredSplits(s: State, run: seq<Step>)
    requires run != []
    ensures AlwaysCovered(s, run) <==> Covered(s) && AlwaysCovered(Next(s, run[0]), run[1..])
  {
    hide Covered, Next;
    var t := Next(s, run[0]);
    assert run[..0] == [] && Run(s, []) == s;
    forall i | 1 <= i <= |run| ensures Run(s, run[..i]) == Run(t, run[1..][..i - 1]) {
      assert run[..i][0] == run[0] && run[..i][1..] == run[1..][..i - 1];
    }
    if AlwaysCovered(s, run) {
      forall i | 0 <= i <= |run[1..]| ensures Covered(Run(t, run[1..][..i])) {
        assert Covered(Run(s, run[..i + 1]));
      }
    }
  }

  // Over any run, coverage holds all the way exactly if no running client is passed over on it.
  lemma {:induction false} CoverageOverRun(s: State, run: seq<Step>)
    requires Covered(s)
    ensures AlwaysCovered(s, run) <==> NobodyMissed(s, run)
    decreases |run|
  {
    hide Covered, Next, Misses;
    if run == [] {
      assert run[..0] == [] && Run(s, []) == s;
    } else {
      AlwaysCoveredSplits(s, run);
      CoverageIsExact(s, run[0]);
      if Covered(Next(s, run[0])) { CoverageOverRun(Next(s, run[0]), run[1..]); }
      else { assert run[1..][..0] == [] && !Covered(Run(Next(s, run[0]), run[1..][..0])); }
    }
  }

  // Then a running client whose first sync step was answered holds everything its room serves.
  lemma ReplicaCoverage(config: Config, store: Store, run: seq<Step>, p: PeerId)
    requires ConfigValid(config) && NobodyMissed(Start(config, store), run)
    requires p in Run(Start(config, store), run).peers
    ensures var s := Run(Start(config, store), run);
      RoomOf(s, p).Some? && !s.peers[p].stopped && s.peers[p].synced ==>
        s.rooms[RoomOf(s, p).value].doc.state <= s.peers[p].replica
  {
    hide NobodyMissed, Versions, Registered, Flights, Seated, Next;
    StartCovered(config, store);
    CoverageOverRun(Start(config, store), run);
    assert run[..|run|] == run;
    var s := Run(Start(config, store), run);
    assert Covered(s);
    if RoomOf(s, p).Some? {
      assert Covers(s.peers[p], s.rooms[RoomOf(s, p).value]);
      assert Served(s.peers[p], s.rooms[RoomOf(s, p).value]);
    }
  }

  lemma StartCovered(config: Config, store: Store)
    requires ConfigValid(config)
    ensures Covered(Start(config, store))
  {
    hide Inv;
    StartInv(config, store);
  }

  // ---------------------------------------------------------------- the failing run

  // Clients 1 and 2 are in sync on board "b"; client 1 has an update in flight.
  const ROOM := Room("b", Document({}, 1), {1, 2}, false, Some(Flight(1, {7}, 1)))
  const AUTHOR := Peer("b", Some(0), 1, true, false, true, {7}, {})
  const OTHER := Peer("b", Some(0), 1, true, false, true, {}, {})
  const BEFORE := State(Config(25, 5), map["b" := [{}]], map["b" := 0], map[0 := ROOM], map[1 := AUTHOR, 2 := OTHER], false)

  lemma BeforeHolds()
    ensures Covered(BEFORE)
  {
    hide Registered, Versions, Flights, Seated, AllServed, AllCover, Authored;
    BeforeRegistered();
    BeforeSeated();
    assert BEFORE.peers.Keys == {1, 2};
    assert |BEFORE.peers| == |{1, 2}| == 2;
  }

  lemma BeforeRegistered()
    ensures Registered(BEFORE.registry, BEFORE.rooms, BEFORE.config.maxPeers) && Versions(BEFORE.store, BEFORE.rooms)
  {
    assert |{1, 2}| == 2;
  }

  lemma BeforeSeated()
    ensures Flights(BEFORE.rooms, BEFORE.peers) && Seated(BEFORE.rooms, BEFORE.peers) && AllServed(BEFORE.rooms, BEFORE.peers)
    ensures AllCover(BEFORE.rooms, BEFORE.peers) && Authored(BEFORE.rooms, BEFORE.peers)
  {
  }

  // How it comes about: both connect, join, are admitted and synced; client 1 edits and sends.
  const ENTRY := [DoConnect(1, "b"), DoConnect(2, "b"), DoLoad(1), DoLoad(2)]
  const ADMISSION := [DoJoin(1, 0), DoJoin(2, 1), DoReady(1, true), DoReady(2, true)]
  const EDITING := [DoFirstSync(1), DoFirstSync(2), DoEdit(1, {7}), DoBegin(1, {7})]

  const LOADED := Peer("b", None, 1, false, false, false, {}, {})
  const ADMITTED := Peer("b", Some(0), 1, true, false, false, {}, {})
  const IDLE_ROOM := Room("b", Document({}, 1), {1, 2}, false, None)
  const ENTERED := State(Config(25, 5), map["b" := [{}]], map[], map[], map[1 := LOADED, 2 := LOADED], false)
  const SEATED := State(Config(25, 5), map["b" := [{}]], map["b" := 0], map[0 := IDLE_ROOM], map[1 := ADMITTED, 2 := ADMITTED], false)

  lemma {:induction false} RunTwice(s: State, a: seq<Step>, b: seq<Step>)
    ensures Run(s, a + b) == Run(Run(s, a), b)
    decreases |a|
  {
    hide Next;
    if a == [] {
      assert a + b == b;
    } else {
      assert (a + b)[0] == a[0] && (a + b)[1..] == a[1..] + b;
      RunTwice(Next(s, a[0]), a[1..], b);
    }
  }

  lemma RunOne(s: State, step: Step)
    ensures Run(s, [step]) == Next(s, step)
  {
    hide Next;
    assert [step][1..] == [];
  }

  lemma RunFour(s: State, a: Step, b: Step, c: Step, d: Step)
    ensures Run(s, [a, b, c, d]) == Next(Next(Next(Next(s, a), b), c), d)
  {
    hide Next, Run;
    RunOne(s, a);
    RunOne(Next(s, a), b);
    RunOne(Next(Next(s, a), b), c);
    RunOne(Next(Next(Next(s, a), b), c), d);
    assert [a] + [b] == [a, b] && [a, b] + [c] == [a, b, c] && [a, b, c] + [d] == [a, b, c, d];
    RunTwice(s, [a], [b]);
    RunTwice(s, [a, b], [c]);
    RunTwice(s, [a, b, c], [d]);
  }

  lemma EnteredIsReached()
    ensures Run(Start(Config(25, 5), map["b" := [{}]]), ENTRY) == ENTERED
  {
    hide Run;
    var s := Start(Config(25, 5), map["b" := [{}]]);
    RunFour(s, DoConnect(1, "b"), DoConnect(2, "b"), DoLoad(1), DoLoad(2));
    var newcomer := Peer("b", None, 0, false, false, false, {}, {});
    assert Connect(s, 1, "b").peers == map[1 := newcomer] && |map[1 := newcomer]| == 1;
  }

  // A state of this board with its room 0 and the two clients.
  function Two(members: set<PeerId>, flight: Option<Flight>, first: Peer, second: Peer): State {
    State(Config(25, 5), map["b" := [{}]], map["b" := 0], map[0 := Room("b", Document({}, 1), members, false, flight)],
          map[1 := first, 2 := second], false)
  }

  lemma TwoSame(members: set<PeerId>, flight: Option<Flight>, first: Peer, second: Peer, s: State)
    requires s.config == Config(25, 5) && s.store == map["b" := [{}]] && s.registry == map["b" := 0] && !s.closed
    requires s.rooms.Keys == {0} && s.rooms[0] == Room("b", Document({}, 1), members, false, flight)
    requires s.peers.Keys == {1, 2} && s.peers[1] == first && s.peers[2] == second
    ensures s == Two(members, flight, first, second)
  {
    assert s.rooms == map[0 := s.rooms[0]] && s.peers == map[1 := first, 2 := second];
  }

  lemma FirstJoins()
    ensures Join(ENTERED, 1, 0) == Two({1}, None, LOADED.(room := Some(0)), LOADED)
  {
    TwoSame({1}, None, LOADED.(room := Some(0)), LOADED, Join(ENTERED, 1, 0));
  }

  lemma SecondJoins()
    ensures Join(Two({1}, None, LOADED.(room := Some(0)), LOADED), 2, 1) ==
      Two({1, 2}, None, LOADED.(room := Some(0)), LOADED.(room := Some(0)))
  {
    assert |{1}| == 1 && {1} + {2} == {1, 2};
    TwoSame({1, 2}, None, LOADED.(room := Some(0)), LOADED.(room := Some(0)), Join(Two({1}, None, LOADED.(room := Some(0)), LOADED), 2, 1));
  }

  lemma BecomeReady()
    ensures MakeReady(Two({1, 2}, None, LOADED.(room := Some(0)), LOADED.(room := Some(0))), 1, true) ==
      Two({1, 2}, None, ADMITTED, LOADED.(room := Some(0)))
    ensures MakeReady(Two({1, 2}, None, ADMITTED, LOADED.(room := Some(0))), 2, true) == SEATED
  {
    TwoSame({1, 2}, None, ADMITTED, LOADED.(room := Some(0)), MakeReady(Two({1, 2}, None, LOADED.(room := Some(0)), LOADED.(room := Some(0))), 1, true));
    TwoSame({1, 2}, None, ADMITTED, ADMITTED, MakeReady(Two({1, 2}, None, ADMITTED, LOADED.(room := Some(0))), 2, true));
  }

  lemma SeatedIsReached()
    ensures Run(ENTERED, ADMISSION) == SEATED
  {
    hide Run, Join, MakeReady, Two;
    RunFour(ENTERED, DoJoin(1, 0), DoJoin(2, 1), DoReady(1, true), DoReady(2, true));
    FirstJoins();
    SecondJoins();
    BecomeReady();
  }

  lemma BothSync()
    ensures FirstSync(SEATED, 1) == Two({1, 2}, None, OTHER, ADMITTED)
    ensures FirstSync(Two({1, 2}, None, OTHER, ADMITTED), 2) == Two({1, 2}, None, OTHER, OTHER)
  {
    assert {} + Diff({}, {}) == {};
    TwoSame({1, 2}, None, OTHER, ADMITTED, FirstSync(SEATED, 1));
    TwoSame({1, 2}, None, OTHER, OTHER, FirstSync(Two({1, 2}, None, OTHER, ADMITTED), 2));
  }

  lemma OneEdits()
    ensures Edit(Two({1, 2}, None, OTHER, OTHER), 1, {7}) == Two({1, 2}, None, AUTHOR, OTHER)
  {
    assert {} + {7} == {7};
    TwoSame({1, 2}, None, AUTHOR, OTHER, Edit(Two({1, 2}, None, OTHER, OTHER), 1, {7}));
  }

  lemma OneSends()
    ensures Begin(Two({1, 2}, None, AUTHOR, OTHER), 1, {7}) == BEFORE
  {
    TwoSame({1, 2}, Some(Flight(1, {7}, 1)), AUTHOR, OTHER, Begin(Two({1, 2}, None, AUTHOR, OTHER), 1, {7}));
  }

  lemma EditingIsReached()
    ensures Run(SEATED, EDITING) == BEFORE
  {
    hide Run, FirstSync, Edit, Begin, Two;
    RunFour(SEATED, DoFirstSync(1), DoFirstSync(2), DoEdit(1, {7}), DoBegin(1, {7}));
    BothSync();
    OneEdits();
    OneSends();
  }

  lemma BeforeIsReached()
    ensures Run(Start(Config(25, 5), map["b" := [{}]]), ENTRY + ADMISSION + EDITING) == BEFORE
  {
    hide Run;
    var s := Start(Config(25, 5), map["b" := [{}]]);
    EnteredIsReached();
    SeatedIsReached();
    EditingIsReached();
    RunTwice(s, ENTRY, ADMISSION);
    RunTwice(s, ENTRY + ADMISSION, EDITING);
  }

  // The commit goes through, the author's notice does not: after a run of twelve steps from the start
  // client 2 runs on, in a room that serves operation 7, and was never sent it.
  lemma NoticeErrorSkipsFanOut()
    ensures var s := Run(Start(Config(25, 5), map["b" := [{}]]), ENTRY + ADMISSION + EDITING);
      Covered(s) && Misses(s, DoFinish(0, Done(false, {}, false))) && !Covered(Next(s, DoFinish(0, Done(false, {}, false))))
  {
    hide Covered, Run;
    BeforeIsReached();
    BeforeHolds();
    var step := DoFinish(0, Done(false, {}, false));
    assert 7 in ROOM.flight.value.update && 7 !in ROOM.doc.state;
    assert SkipsFanOut(BEFORE, step);
    assert !OthersHave(BEFORE, 0, 1, {7}) by { assert 7 !in BEFORE.peers[2].replica; }
    CoverageIsExact(BEFORE, step);
  }
}
