/** What each step of the collaboration protocol achieves, over the state it is taken in: exactly when
    a commit is saved, published and acknowledged, when a room aborts, and who is admitted. */
module CollabAnswers {
  import opened Wrappers
  import opened CollabState
  import opened CollabSafety

  // ---------------------------------------------------------------- the end of a commit

  // The commit in progress in room o has something new, and no other server has committed since.
  predicate Current(s: State, o: RoomId) {
    && o in s.rooms && s.rooms[o].flight.Some? && s.rooms[o].board in s.store
    && |s.store[s.rooms[o].board]| == s.rooms[o].doc.revision
  }

  predicate HasNews(s: State, o: RoomId) {
    o in s.rooms && s.rooms[o].flight.Some? && !(s.rooms[o].flight.value.update <= s.rooms[o].doc.state)
  }

  // A new version is committed exactly if the update has news, the version is the expected one and the
  // transaction commits; it is then the union of both, and of no other board.
  lemma CommitsExactly(s: State, o: RoomId, outcome: Outcome)
    requires Inv(s) && o in s.rooms && s.rooms[o].flight.Some?
    ensures var t, room := Finish(s, o, outcome), s.rooms[o];
      if HasNews(s, o) && Current(s, o) && (outcome.Done? || outcome == Failed(true))
      then room.board in s.store && t.store == s.store[room.board := s.store[room.board] + [room.doc.state + room.flight.value.update]]
      else t.store == s.store
  {
    hide Registered, Seated, AllServed, Stopped, FanOut, Acknowledge;
    AuthorOf(s, o);
  }

  // The room aborts exactly on a conflict, or on any failure but a rejection.
  lemma AbortsExactly(s: State, o: RoomId, outcome: Outcome)
    requires Inv(s) && o in s.rooms && s.rooms[o].flight.Some?
    ensures var t := Finish(s, o, outcome);
      && o in t.rooms && t.rooms[o].flight == None
      && (t.rooms[o].failed <==> outcome.Failed? || (outcome.Done? && HasNews(s, o) && !Current(s, o)))
      && (t.rooms[o].failed ==> forall q :: q in s.rooms[o].members ==> q in t.peers && t.peers[q].stopped)
  {
    hide Registered, AllServed, FanOut, Acknowledge;
    AuthorOf(s, o);
  }

  // A commit that went through is what the room serves from then on, at the next revision; otherwise
  // its document is the same.
  lemma ServesExactly(s: State, o: RoomId, outcome: Outcome)
    requires Inv(s) && o in s.rooms && s.rooms[o].flight.Some?
    ensures var t, room := Finish(s, o, outcome), s.rooms[o];
      o in t.rooms && t.rooms[o].members == room.members && t.rooms[o].board == room.board &&
      t.rooms[o].doc ==
      if outcome.Done? && HasNews(s, o) && Current(s, o)
      then Document(room.doc.state + room.flight.value.update, room.doc.revision + 1)
      else room.doc
  {
    hide Registered, AllServed, Seated, FanOut, Acknowledge, Stopped;
    AuthorOf(s, o);
  }

  // Nothing of this concerns another room.
  lemma OtherRoomsStay(s: State, o: RoomId, outcome: Outcome, r: RoomId)
    requires o in s.rooms && r != o
    ensures r in Finish(s, o, outcome).rooms <==> r in s.rooms
    ensures r in s.rooms ==> Finish(s, o, outcome).rooms[r] == s.rooms[r]
  {
    hide FanOut, Acknowledge, Stopped;
  }

  // Nor who may come in.
  lemma RegistryStays(s: State, o: RoomId, outcome: Outcome)
    ensures var t := Finish(s, o, outcome); t.registry == s.registry && t.closed == s.closed && t.config == s.config
  {
    hide FanOut, Acknowledge, Stopped;
  }

  // Somebody else in the room that the source sends updates to.
  predicate Recipient(s: State, o: RoomId, q: PeerId) {
    && o in s.rooms && s.rooms[o].flight.Some? && q in s.rooms[o].members
    && q != s.rooms[o].flight.value.author && q in s.peers && s.peers[q].ready
  }

  // Once committed and with its author noticed, an update reaches every running recipient that still has
  // access; the other recipients are stopped.
  lemma PublishedToAll(s: State, o: RoomId, refused: set<PeerId>, acked: bool, q: PeerId)
    requires Inv(s) && HasNews(s, o) && Current(s, o) && Recipient(s, o, q)
    ensures var t := Finish(s, o, Done(true, refused, acked));
      q in t.peers &&
      t.peers[q] == if q in refused || s.peers[q].stopped then s.peers[q].(stopped := true)
                    else s.peers[q].(replica := s.peers[q].replica + s.rooms[o].flight.value.update)
  {
    hide Registered, AllServed, Versions;
    AuthorOf(s, o);
  }

  // The author is acknowledged exactly if its notice, where one is due, and the acknowledgement were
  // written; otherwise it is stopped.
  lemma AcknowledgedExactly(s: State, o: RoomId, noticed: bool, refused: set<PeerId>, acked: bool)
    requires Inv(s) && o in s.rooms && s.rooms[o].flight.Some? && (HasNews(s, o) ==> Current(s, o))
    ensures var t, f := Finish(s, o, Done(noticed, refused, acked)), s.rooms[o].flight.value;
      f.author in s.peers && f.author in t.peers &&
      t.peers[f.author] ==
      if acked && (noticed || !HasNews(s, o)) then s.peers[f.author].(accepted := s.peers[f.author].accepted + f.update)
      else s.peers[f.author].(stopped := true)
  {
    hide Registered, AllServed;
    AuthorOf(s, o);
  }

  // Everyone else is left alone: whoever is in no such room, whoever the update is not sent to, and all
  // but the author when the update is rejected, has no news, or the notice fails.
  lemma OthersLeftAlone(s: State, o: RoomId, outcome: Outcome, q: PeerId)
    requires Inv(s) && o in s.rooms && s.rooms[o].flight.Some? && q in s.peers && q != s.rooms[o].flight.value.author
    requires !Finish(s, o, outcome).rooms[o].failed
    requires !Recipient(s, o, q) || outcome.Rejected? || !HasNews(s, o) || (outcome.Done? && !outcome.noticed)
    ensures q in Finish(s, o, outcome).peers && Finish(s, o, outcome).peers[q] == s.peers[q]
  {
    hide Registered, AllServed, Versions;
    AuthorOf(s, o);
  }

  // A rejected update costs its author the connection, and nobody anything else.
  lemma RejectionStopsAuthor(s: State, o: RoomId)
    requires Inv(s) && o in s.rooms && s.rooms[o].flight.Some?
    ensures var t, f := Finish(s, o, Rejected), s.rooms[o].flight.value;
      f.author in s.peers && t.peers == s.peers[f.author := s.peers[f.author].(stopped := true)] &&
      t.store == s.store && t.rooms == s.rooms[o := s.rooms[o].(flight := None)]
  {
    hide Registered, AllServed;
    AuthorOf(s, o);
    var f := s.rooms[o].flight.value;
    assert Stopped(s.peers, {f.author}) == s.peers[f.author := s.peers[f.author].(stopped := true)];
  }

  // ---------------------------------------------------------------- the start of a commit

  // What a client may ask of its room: it is ready there, and no commit is in progress.
  predicate Asks(s: State, p: PeerId) {
    p in s.peers && s.peers[p].ready && s.peers[p].room.Some? && s.peers[p].room.value in s.rooms &&
    s.rooms[s.peers[p].room.value].flight == None && s.rooms[s.peers[p].room.value].board in s.store
  }

  // An update that its client has starts exactly in a serving room whose document is the committed one;
  // in one that is behind, the room aborts.
  lemma BeginsExactly(s: State, p: PeerId, update: Ops)
    requires Inv(s) && Asks(s, p) && update <= s.peers[p].replica
    ensures var t, o := Begin(s, p, update), s.peers[p].room.value;
      var room := s.rooms[o];
      && o in t.rooms && t.store == s.store
      && (if room.failed then p in t.peers && t.peers[p].stopped && t.rooms == s.rooms
          else if |s.store[room.board]| == room.doc.revision
          then t.peers == s.peers && t.rooms == s.rooms[o := room.(flight := Some(Flight(p, update, room.doc.revision)))]
          else t.rooms == s.rooms[o := room.(failed := true)] && forall q :: q in room.members ==> q in t.peers && t.peers[q].stopped)
  {
    hide Registered, AllServed;
    assert s.rooms[s.peers[p].room.value].(failed := true, flight := None) == s.rooms[s.peers[p].room.value].(failed := true) by {
      assert s.rooms[s.peers[p].room.value].flight == None;
    }
  }

  // The first sync step of a running client is answered with all of the document, and only that.
  lemma FirstSyncAnswers(s: State, p: PeerId)
    requires Asks(s, p)
    ensures var t, room := FirstSync(s, p), s.rooms[s.peers[p].room.value];
      && t.rooms == s.rooms && t.store == s.store && p in t.peers
      && t.peers == s.peers[p :=
           if room.failed || s.peers[p].stopped then s.peers[p].(stopped := true)
           else s.peers[p].(replica := s.peers[p].replica + room.doc.state, synced := true)]
  {
    var room := s.rooms[s.peers[p].room.value];
    assert s.peers[p].replica + Diff(room.doc.state, s.peers[p].replica) == s.peers[p].replica + room.doc.state;
  }

  // A checkpoint is answered exactly by a serving room, with the revision it serves.
  lemma CheckpointAnswers(s: State, p: PeerId)
    requires Asks(s, p)
    ensures var room := s.rooms[s.peers[p].room.value];
      Checkpoint(s, p) == if room.failed then None else Some(room.doc.revision)
  {
  }

  // ---------------------------------------------------------------- admission

  // A socket is counted in exactly while the server is open and below its limit.
  lemma ConnectsExactly(s: State, p: PeerId, board: Board)
    requires p !in s.peers
    ensures var t := Connect(s, p, board);
      && (p in t.peers <==> !s.closed && |s.peers| < s.config.maxConnections)
      && (p in t.peers ==> t.peers == s.peers[p := Peer(board, None, 0, false, false, false, {}, {})])
      && (p !in t.peers ==> t == s) && t.rooms == s.rooms && t.store == s.store && t.registry == s.registry
  {
  }

  // A peer about to join has read a version of its board.
  predicate Joins(s: State, p: PeerId, o: RoomId) {
    && p in s.peers && s.peers[p].room == None && s.peers[p].board in s.store && o !in s.rooms
    && 1 <= s.peers[p].loaded <= |s.store[s.peers[p].board]|
  }

  // The first one to a board opens its room with the version read.
  lemma OpensRoom(s: State, p: PeerId, o: RoomId)
    requires Inv(s) && Joins(s, p, o) && !s.closed && s.peers[p].board !in s.registry
    ensures var t, peer := Join(s, p, o), s.peers[p];
      t.registry == s.registry[peer.board := o] && t.peers == s.peers[p := peer.(room := Some(o))] &&
      t.rooms == s.rooms[o := Room(peer.board, Document(s.store[peer.board][peer.loaded - 1], peer.loaded), {p}, false, None)]
  {
    hide Versions, Flights, Seated, AllServed;
    assert {} + {p} == {p};
  }

  // Later ones get in exactly while the room serves, has a place and is not behind the version read; one
  // that read a newer version than a room with a place makes it abort.
  lemma JoinsExactly(s: State, p: PeerId, o: RoomId)
    requires Inv(s) && Joins(s, p, o) && !s.closed && s.peers[p].board in s.registry
    requires s.rooms[s.registry[s.peers[p].board]].flight == None
    ensures var t, r := Join(s, p, o), s.registry[s.peers[p].board];
      var room := s.rooms[r];
      && r in t.rooms && p in t.peers && t.store == s.store && t.registry == s.registry
      && (t.peers[p].room == Some(r) <==> !room.failed && |room.members| < s.config.maxPeers && s.peers[p].loaded <= room.doc.revision)
      && (t.peers[p].room == Some(r) ==> t.rooms == s.rooms[r := room.(members := room.members + {p})] && t.peers == s.peers[p := s.peers[p].(room := Some(r))])
      && (t.peers[p].room != Some(r) ==> t.peers[p] == s.peers[p].(stopped := true))
      && (t.rooms[r].failed <==> room.failed || (|room.members| < s.config.maxPeers && room.doc.revision < s.peers[p].loaded))
  {
    hide Versions, Flights, AllServed;
    RegisteredRoom(s, s.peers[p].board);
  }

  // Closing stops every socket and does nothing to the rooms and their documents.
  lemma ClosesExactly(s: State)
    ensures var t := Next(s, DoClose);
      && t.closed && t.peers.Keys == s.peers.Keys && (forall q :: q in t.peers ==> t.peers[q] == s.peers[q].(stopped := true))
      && t.rooms == s.rooms && t.registry == s.registry && t.store == s.store && t.config == s.config
  {
  }

  lemma StaysClosed(s: State, step: Step)
    requires s.closed
    ensures Next(s, step).closed
  {
    hide FanOut, Acknowledge, Stopped, Finish;
    if step.DoFinish? { RegistryStays(s, step.o, step.outcome); }
  }

  // A closed server stays closed, whatever happens next.
  lemma {:induction false} ClosedForGood(s: State, run: seq<Step>)
    requires s.closed
    ensures Run(s, run).closed
    decreases |run|
  {
    hide Next;
    if run != [] {
      StaysClosed(s, run[0]);
      ClosedForGood(Next(s, run[0]), run[1..]);
    }
  }

  // After the server is closed nobody joins.
  lemma ClosedRefuses(s: State, p: PeerId, o: RoomId)
    requires Joins(s, p, o) && s.closed
    ensures var t := Join(s, p, o);
      t.rooms == s.rooms && t.registry == s.registry && t.peers == s.peers[p := s.peers[p].(stopped := true)]
  {
  }

  // A member becomes ready exactly in a serving room, when that could be written to it.
  lemma ReadyExactly(s: State, p: PeerId, sent: bool)
    requires p in s.peers && s.peers[p].room.Some? && s.peers[p].room.value in s.rooms && s.rooms[s.peers[p].room.value].flight == None
    ensures var t := MakeReady(s, p, sent);
      t.rooms == s.rooms &&
      t.peers == s.peers[p := if !s.rooms[s.peers[p].room.value].failed && sent then s.peers[p].(ready := true) else s.peers[p].(stopped := true)]
  {
  }

  // Whoever leaves is gone, and its room exactly with its last member.
  lemma LeavesExactly(s: State, p: PeerId)
    requires Inv(s) && p in s.peers && s.peers[p].room.Some? && s.peers[p].room.value in s.rooms
    requires s.rooms[s.peers[p].room.value].flight == None
    ensures var t, o := Leave(s, p), s.peers[p].room.value;
      && t.peers == s.peers - {p} && t.store == s.store
      && (o in t.rooms <==> s.rooms[o].members != {p}) && (s.peers[p].board in t.registry <==> s.rooms[o].members != {p})
      && (o in t.rooms ==> t.rooms[o] == s.rooms[o].(members := s.rooms[o].members - {p}))
      && (forall r :: r in s.rooms && r != o ==> r in t.rooms && t.rooms[r] == s.rooms[r])
  {
    hide Versions, Flights, AllServed;
    SeatOf(s, p);
    InRegistry(s, p);
  }

  lemma InRegistry(s: State, p: PeerId)
    requires Inv(s) && p in s.peers && s.peers[p].room.Some?
    ensures s.peers[p].board in s.registry
  {
    hide Versions, Flights, AllServed;
    SeatOf(s, p);
  }

  // What is read before joining is the latest version there is.
  lemma LoadsLatest(s: State, p: PeerId)
    requires p in s.peers && s.peers[p].room == None && s.peers[p].board in s.store
    ensures Load(s, p) == s.(peers := s.peers[p := s.peers[p].(loaded := |s.store[s.peers[p].board]|)])
  {
  }
}
