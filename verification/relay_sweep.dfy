/** The sweep visits rooms, then peers, in an arbitrary order and deletes while it ranges. Each phase
    is described here by the set of keys visited so far; visiting one more key has the effect of one
    `end` or `detach`, and when every key has been visited the order no longer shows: the result is
    `Swept`. */
module RelaySweep {
  import opened Wrappers
  import opened RelayState

  // ---------------------------------------------------------------- phase one: overdue rooms

  predicate Timed(s: State, visited: set<RoomId>, r: RoomId, now: Time) {
    r in s.rooms && r in visited && Overdue(s.rooms[r], now).Some?
  }

  function RoomPhaseRooms(s: State, visited: set<RoomId>, now: Time): Rooms {
    map r | r in s.rooms && !Timed(s, visited, r, now) :: s.rooms[r]
  }

  function RoomPhasePeers(s: State, visited: set<RoomId>, now: Time): Peers {
    map p | p in s.peers && !Timed(s, visited, s.peers[p].room, now) :: s.peers[p]
  }

  function RoomPhaseChannels(s: State, visited: set<RoomId>, now: Time): Mail {
    map p | p in s.channels ::
      if p in s.peers && Timed(s, visited, s.peers[p].room, now)
      then Terminate(s.channels[p], Overdue(s.rooms[s.peers[p].room], now).value)
      else s.channels[p]
  }

  ghost function RoomPhase(s: State, visited: set<RoomId>, now: Time): State {
    var rooms := RoomPhaseRooms(s, visited, now);
    State(rooms, RoomPhasePeers(s, visited, now), Total(rooms), s.closed, RoomPhaseChannels(s, visited, now))
  }

  lemma RoomPhaseSame(s: State, visited: set<RoomId>, more: set<RoomId>, now: Time)
    requires forall r :: Timed(s, visited, r, now) == Timed(s, more, r, now)
    ensures RoomPhase(s, visited, now) == RoomPhase(s, more, now)
  {
    assert RoomPhaseRooms(s, visited, now) == RoomPhaseRooms(s, more, now);
    assert RoomPhasePeers(s, visited, now) == RoomPhasePeers(s, more, now);
    assert RoomPhaseChannels(s, visited, now) == RoomPhaseChannels(s, more, now);
  }

  lemma RoomPhaseStart(s: State, now: Time)
    requires s.bytes == Total(s.rooms)
    ensures RoomPhase(s, {}, now) == s
  {
    assert RoomPhaseRooms(s, {}, now) == s.rooms;
    assert RoomPhasePeers(s, {}, now) == s.peers;
    assert RoomPhaseChannels(s, {}, now) == s.channels;
  }

  lemma RoomPhaseEnds(s: State, visited: set<RoomId>, r: RoomId, now: Time)
    requires Linked(s.rooms, s.peers) && r in s.rooms && r !in visited && Overdue(s.rooms[r], now).Some?
    ensures r in RoomPhase(s, visited, now).rooms
    ensures RoomPhase(s, visited + {r}, now) == EndRoom(RoomPhase(s, visited, now), r, Overdue(s.rooms[r], now).value)
  {
    var rooms := RoomPhaseRooms(s, visited, now);
    assert r in rooms && rooms[r] == s.rooms[r];
    forall x ensures Timed(s, visited + {r}, x, now) <==> Timed(s, visited, x, now) || x == r {}
    assert RoomPhaseRooms(s, visited + {r}, now) == rooms - {r};
    TotalWithout(rooms, r);
    RoomPhaseEndsPeers(s, visited, r, now);
    RoomPhaseEndsChannels(s, visited, r, now);
  }

  lemma RoomPhaseEndsPeers(s: State, visited: set<RoomId>, r: RoomId, now: Time)
    requires Linked(s.rooms, s.peers) && r in s.rooms
    requires forall x :: Timed(s, visited + {r}, x, now) <==> Timed(s, visited, x, now) || x == r
    ensures RoomPhasePeers(s, visited + {r}, now) == RoomPhasePeers(s, visited, now) - s.rooms[r].peers
  {
    forall p | p in s.peers ensures p in s.rooms[r].peers <==> s.peers[p].room == r {}
  }

  lemma RoomPhaseEndsChannels(s: State, visited: set<RoomId>, r: RoomId, now: Time)
    requires Linked(s.rooms, s.peers) && r in s.rooms && r !in visited && Overdue(s.rooms[r], now).Some?
    requires forall x :: Timed(s, visited + {r}, x, now) <==> Timed(s, visited, x, now) || x == r
    ensures RoomPhaseChannels(s, visited + {r}, now) ==
            map p | p in s.channels ::
              if p in s.rooms[r].peers then Terminate(RoomPhaseChannels(s, visited, now)[p], Overdue(s.rooms[r], now).value)
              else RoomPhaseChannels(s, visited, now)[p]
  {
    forall p | p in s.peers ensures p in s.rooms[r].peers <==> s.peers[p].room == r {}
  }

  // ---------------------------------------------------------------- phase two: expired tokens

  predicate Expired(s: State, visited: set<PeerId>, p: PeerId, now: Time) {
    p in visited && p in s.peers && s.peers[p].expires <= now
  }

  function PeersOf(s: State, r: RoomId): set<PeerId> {
    if r in s.rooms then s.rooms[r].peers else {}
  }

  ghost predicate HostGone(s: State, visited: set<PeerId>, r: RoomId, now: Time) {
    r in s.rooms && exists p :: Hosts(s.rooms, s.peers, r, p) && Expired(s, visited, p, now)
  }

  function Remaining(s: State, visited: set<PeerId>, r: RoomId, now: Time): set<PeerId> {
    set p | p in PeersOf(s, r) && !Expired(s, visited, p, now)
  }

  ghost predicate Kept(s: State, visited: set<PeerId>, p: PeerId, now: Time) {
    p in s.peers && !HostGone(s, visited, s.peers[p].room, now) && !Expired(s, visited, p, now)
  }

  ghost function PeerPhaseRooms(s: State, visited: set<PeerId>, now: Time): Rooms {
    map r | r in s.rooms && !HostGone(s, visited, r, now) :: s.rooms[r].(peers := Remaining(s, visited, r, now))
  }

  ghost function PeerPhasePeers(s: State, visited: set<PeerId>, now: Time): Peers {
    map p | p in s.peers && Kept(s, visited, p, now) :: s.peers[p]
  }

  ghost function PeerPhaseChannel(s: State, visited: set<PeerId>, p: PeerId, now: Time): Channels
    requires p in s.channels
  {
    if p !in s.peers || s.peers[p].room !in s.rooms then s.channels[p]
    else if !Kept(s, visited, p, now) then Terminate(s.channels[p], TokenExpired)
    else
      var r := s.peers[p].room;
      var left := Remaining(s, visited, r, now);
      if left == s.rooms[r].peers then s.channels[p]
      else s.channels[p].(events := Some(StateEvent(s.rooms[r].(peers := left), s.peers[p], now)))
  }

  ghost function PeerPhaseChannels(s: State, visited: set<PeerId>, now: Time): Mail {
    map p | p in s.channels :: PeerPhaseChannel(s, visited, p, now)
  }

  ghost function PeerPhase(s: State, visited: set<PeerId>, now: Time): State {
    var rooms := PeerPhaseRooms(s, visited, now);
    State(rooms, PeerPhasePeers(s, visited, now), Total(rooms), s.closed, PeerPhaseChannels(s, visited, now))
  }

  lemma PeerPhaseStart(s: State, now: Time)
    requires Linked(s.rooms, s.peers) && s.bytes == Total(s.rooms)
    ensures PeerPhase(s, {}, now) == s
  {
    forall r | r in s.rooms ensures Remaining(s, {}, r, now) == s.rooms[r].peers {}
    assert PeerPhaseRooms(s, {}, now) == s.rooms;
    assert PeerPhasePeers(s, {}, now) == s.peers;
    assert PeerPhase(s, {}, now).channels == s.channels;
  }

  // How one more visited peer p changes the three tests.
  lemma OneMore(s: State, visited: set<PeerId>, p: PeerId, now: Time)
    requires Linked(s.rooms, s.peers) && Staffed(s.rooms, s.peers) && p in s.peers
    ensures forall q :: Expired(s, visited + {p}, q, now) <==> Expired(s, visited, q, now) || (q == p && s.peers[p].expires <= now)
    ensures forall r :: HostGone(s, visited + {p}, r, now) <==>
      HostGone(s, visited, r, now) || (r == s.peers[p].room && s.peers[p].role == Host && s.peers[p].expires <= now)
  {
    forall r
      ensures HostGone(s, visited + {p}, r, now) <==>
        HostGone(s, visited, r, now) || (r == s.peers[p].room && s.peers[p].role == Host && s.peers[p].expires <= now)
    {
      if HostGone(s, visited, r, now) {
        var q :| Hosts(s.rooms, s.peers, r, q) && Expired(s, visited, q, now);
        assert Expired(s, visited + {p}, q, now);
      }
      if HostGone(s, visited + {p}, r, now) {
        var q :| Hosts(s.rooms, s.peers, r, q) && Expired(s, visited + {p}, q, now);
        assert q == p || Expired(s, visited, q, now);
      }
      if r == s.peers[p].room && s.peers[p].role == Host && s.peers[p].expires <= now {
        assert Hosts(s.rooms, s.peers, r, p) && Expired(s, visited + {p}, p, now);
      }
    }
  }

  // Visiting a peer whose token still holds, or one that an expired host already took with it,
  // changes nothing.
  lemma PeerPhaseIdle(s: State, visited: set<PeerId>, p: PeerId, now: Time)
    requires Linked(s.rooms, s.peers) && Staffed(s.rooms, s.peers) && p in s.peers
    requires now < s.peers[p].expires || HostGone(s, visited, s.peers[p].room, now)
    ensures PeerPhase(s, visited + {p}, now) == PeerPhase(s, visited, now)
  {
    hide HostGone, Staffed, StateEvent;
    OneMore(s, visited, p, now);
    assert forall r :: HostGone(s, visited + {p}, r, now) == HostGone(s, visited, r, now);
    forall r | r in s.rooms && !HostGone(s, visited, r, now)
      ensures Remaining(s, visited + {p}, r, now) == Remaining(s, visited, r, now) {}
    PeerPhaseSame(s, visited, visited + {p}, now);
  }

  lemma PeerPhaseSame(s: State, visited: set<PeerId>, more: set<PeerId>, now: Time)
    requires Linked(s.rooms, s.peers)
    requires forall r :: HostGone(s, more, r, now) == HostGone(s, visited, r, now)
    requires forall r :: r in s.rooms && !HostGone(s, visited, r, now) ==>
      Remaining(s, more, r, now) == Remaining(s, visited, r, now)
    ensures PeerPhase(s, more, now) == PeerPhase(s, visited, now)
  {
    hide HostGone, StateEvent, Terminate;
    forall p | p in s.peers ensures Kept(s, more, p, now) == Kept(s, visited, p, now) {
      var r := s.peers[p].room;
      if r in s.rooms && !HostGone(s, visited, r, now) {
        assert p in Remaining(s, more, r, now) <==> p in Remaining(s, visited, r, now);
      }
    }
    hide Linked, Remaining, Kept;
    assert PeerPhaseRooms(s, more, now) == PeerPhaseRooms(s, visited, now);
    assert PeerPhasePeers(s, more, now) == PeerPhasePeers(s, visited, now);
    assert PeerPhase(s, more, now).channels == PeerPhase(s, visited, now).channels;
  }

  lemma HostLeaves(s: State, visited: set<PeerId>, p: PeerId, now: Time)
    requires Linked(s.rooms, s.peers) && Staffed(s.rooms, s.peers) && p in PeerPhasePeers(s, visited, now)
    requires s.peers[p].expires <= now && s.peers[p].role == Host
    ensures forall r :: HostGone(s, visited + {p}, r, now) <==> HostGone(s, visited, r, now) || r == s.peers[p].room
    ensures forall r :: r != s.peers[p].room ==> Remaining(s, visited + {p}, r, now) == Remaining(s, visited, r, now)
  {
    hide HostGone, Hosts, Staffed;
    OneMore(s, visited, p, now);
  }

  lemma HostTakes(s: State, visited: set<PeerId>, p: PeerId, now: Time)
    requires Linked(s.rooms, s.peers) && Staffed(s.rooms, s.peers) && p in PeerPhasePeers(s, visited, now)
    requires s.peers[p].expires <= now && s.peers[p].role == Host
    ensures forall q :: Kept(s, visited + {p}, q, now) <==> Kept(s, visited, q, now) && s.peers[q].room != s.peers[p].room
    ensures forall q :: Kept(s, visited, q, now) ==>
      (q in Remaining(s, visited, s.peers[p].room, now) <==> s.peers[q].room == s.peers[p].room)
    ensures forall q :: q in Remaining(s, visited, s.peers[p].room, now) ==> Kept(s, visited, q, now)
  {
    hide HostGone, Hosts, Staffed;
    OneMore(s, visited, p, now);
  }

  lemma HostTakesChannel(s: State, visited: set<PeerId>, p: PeerId, q: PeerId, now: Time)
    requires Linked(s.rooms, s.peers) && Staffed(s.rooms, s.peers) && p in PeerPhasePeers(s, visited, now) && q in s.channels
    requires s.peers[p].expires <= now && s.peers[p].role == Host
    ensures PeerPhaseChannel(s, visited + {p}, q, now) ==
            if q in Remaining(s, visited, s.peers[p].room, now) then Terminate(PeerPhaseChannel(s, visited, q, now), TokenExpired)
            else PeerPhaseChannel(s, visited, q, now)
  {
    hide Staffed, HostGone, Remaining, Expired, StateEvent;
    HostLeaves(s, visited, p, now);
    HostTakes(s, visited, p, now);
  }

  lemma PeerPhaseHostChannels(s: State, visited: set<PeerId>, p: PeerId, now: Time)
    requires Linked(s.rooms, s.peers) && Staffed(s.rooms, s.peers) && p in PeerPhasePeers(s, visited, now)
    requires s.peers[p].expires <= now && s.peers[p].role == Host
    ensures PeerPhaseChannels(s, visited + {p}, now) ==
            TerminateAll(PeerPhaseChannels(s, visited, now), Remaining(s, visited, s.peers[p].room, now), TokenExpired)
  {
    hide PeerPhaseChannel, Remaining, Terminate, Linked, Staffed;
    forall q | q in s.channels { HostTakesChannel(s, visited, p, q, now); }
  }

  lemma PeerPhaseHostRooms(s: State, visited: set<PeerId>, p: PeerId, now: Time)
    requires Linked(s.rooms, s.peers) && Staffed(s.rooms, s.peers) && p in PeerPhasePeers(s, visited, now)
    requires s.peers[p].expires <= now && s.peers[p].role == Host
    ensures PeerPhaseRooms(s, visited + {p}, now) == PeerPhaseRooms(s, visited, now) - {s.peers[p].room}
  {
    hide Linked, Staffed, HostGone, Remaining, Kept;
    HostLeaves(s, visited, p, now);
  }

  lemma PeerPhaseHostPeers(s: State, visited: set<PeerId>, p: PeerId, now: Time)
    requires Linked(s.rooms, s.peers) && Staffed(s.rooms, s.peers) && p in PeerPhasePeers(s, visited, now)
    requires s.peers[p].expires <= now && s.peers[p].role == Host
    ensures PeerPhasePeers(s, visited + {p}, now) ==
            PeerPhasePeers(s, visited, now) - Remaining(s, visited, s.peers[p].room, now)
  {
    hide Linked, Staffed, HostGone, Remaining, Kept;
    HostTakes(s, visited, p, now);
  }

  // Visiting the expired host of a room still standing ends that room.
  lemma PeerPhaseHost(s: State, visited: set<PeerId>, p: PeerId, now: Time)
    requires Linked(s.rooms, s.peers) && Staffed(s.rooms, s.peers) && p in PeerPhasePeers(s, visited, now)
    requires s.peers[p].expires <= now && s.peers[p].role == Host
    requires s.peers[p].room in PeerPhaseRooms(s, visited, now)
    ensures PeerPhase(s, visited + {p}, now) == EndRoom(PeerPhase(s, visited, now), s.peers[p].room, TokenExpired)
  {
    PeerPhaseHostRooms(s, visited, p, now);
    PeerPhaseHostPeers(s, visited, p, now);
    PeerPhaseHostChannels(s, visited, p, now);
    TotalWithout(PeerPhaseRooms(s, visited, now), s.peers[p].room);
    assert PeerPhaseRooms(s, visited, now)[s.peers[p].room].peers == Remaining(s, visited, s.peers[p].room, now);
    hide PeerPhaseRooms, PeerPhasePeers, PeerPhaseChannels, TerminateAll, Linked, Staffed, Remaining, Total;
  }

  lemma ViewerLeaves(s: State, visited: set<PeerId>, p: PeerId, now: Time)
    requires Linked(s.rooms, s.peers) && Staffed(s.rooms, s.peers) && p in PeerPhasePeers(s, visited, now)
    requires s.peers[p].expires <= now && s.peers[p].role == Viewer
    ensures forall r :: HostGone(s, visited + {p}, r, now) == HostGone(s, visited, r, now)
    ensures forall r :: r != s.peers[p].room ==> Remaining(s, visited + {p}, r, now) == Remaining(s, visited, r, now)
    ensures Remaining(s, visited + {p}, s.peers[p].room, now) == Remaining(s, visited, s.peers[p].room, now) - {p}
    ensures p in Remaining(s, visited, s.peers[p].room, now)
    ensures Remaining(s, visited, s.peers[p].room, now) <= PeersOf(s, s.peers[p].room)
  {
    hide HostGone, Hosts, Staffed;
    OneMore(s, visited, p, now);
  }

  lemma ViewerGoes(s: State, visited: set<PeerId>, p: PeerId, now: Time)
    requires Linked(s.rooms, s.peers) && Staffed(s.rooms, s.peers) && p in PeerPhasePeers(s, visited, now)
    requires s.peers[p].expires <= now && s.peers[p].role == Viewer
    ensures forall q :: Kept(s, visited + {p}, q, now) <==> Kept(s, visited, q, now) && q != p
    ensures forall q :: Kept(s, visited, q, now) ==>
      (q in Remaining(s, visited, s.peers[p].room, now) <==> s.peers[q].room == s.peers[p].room)
    ensures forall q :: q in Remaining(s, visited, s.peers[p].room, now) ==> Kept(s, visited, q, now)
  {
    hide HostGone, Hosts, Staffed;
    OneMore(s, visited, p, now);
  }

  lemma ViewerLeavesChannel(s: State, visited: set<PeerId>, p: PeerId, q: PeerId, now: Time)
    requires Linked(s.rooms, s.peers) && Staffed(s.rooms, s.peers) && p in PeerPhasePeers(s, visited, now) && q in s.channels
    requires s.peers[p].expires <= now && s.peers[p].role == Viewer
    ensures PeerPhaseChannel(s, visited + {p}, q, now) ==
            if q == p then Terminate(PeerPhaseChannel(s, visited, q, now), TokenExpired)
            else if q in Remaining(s, visited, s.peers[p].room, now) then
              PeerPhaseChannel(s, visited, q, now).(events := Some(StateEvent(
                s.rooms[s.peers[p].room].(peers := Remaining(s, visited, s.peers[p].room, now) - {p}), s.peers[q], now)))
            else PeerPhaseChannel(s, visited, q, now)
  {
    hide Staffed, HostGone, Remaining, Kept, Expired, StateEvent;
    ViewerLeaves(s, visited, p, now);
    ViewerGoes(s, visited, p, now);
  }

  // The channels once p is told and the peers left in its room are shown the smaller room.
  lemma PeerPhaseViewerChannels(s: State, visited: set<PeerId>, p: PeerId, room: Room, now: Time)
    requires Linked(s.rooms, s.peers) && Staffed(s.rooms, s.peers) && p in PeerPhasePeers(s, visited, now)
    requires s.peers[p].expires <= now && s.peers[p].role == Viewer
    requires s.peers[p].room in s.rooms
    requires room == s.rooms[s.peers[p].room].(peers := Remaining(s, visited, s.peers[p].room, now) - {p})
    ensures PeerPhaseChannels(s, visited + {p}, now) ==
            Announce(TerminateAll(PeerPhaseChannels(s, visited, now), {p}, TokenExpired), room,
                     PeerPhasePeers(s, visited, now) - {p}, now)
  {
    hide PeerPhaseChannel, Remaining, StateEvent, Linked, Staffed, HostGone;
    forall q | q in s.channels { ViewerLeavesChannel(s, visited, p, q, now); }
    ViewerGoes(s, visited, p, now);
  }

  lemma PeerPhaseViewerRooms(s: State, visited: set<PeerId>, p: PeerId, now: Time)
    requires Linked(s.rooms, s.peers) && Staffed(s.rooms, s.peers) && p in PeerPhasePeers(s, visited, now)
    requires s.peers[p].expires <= now && s.peers[p].role == Viewer
    ensures s.peers[p].room in PeerPhaseRooms(s, visited, now)
    ensures PeerPhaseRooms(s, visited + {p}, now) == PeerPhaseRooms(s, visited, now)[s.peers[p].room :=
              s.rooms[s.peers[p].room].(peers := Remaining(s, visited, s.peers[p].room, now) - {p})]
  {
    hide Linked, Staffed, HostGone, Remaining;
    ViewerLeaves(s, visited, p, now);
  }

  lemma PeerPhaseViewerPeers(s: State, visited: set<PeerId>, p: PeerId, now: Time)
    requires Linked(s.rooms, s.peers) && Staffed(s.rooms, s.peers) && p in PeerPhasePeers(s, visited, now)
    requires s.peers[p].expires <= now && s.peers[p].role == Viewer
    ensures PeerPhasePeers(s, visited + {p}, now) == PeerPhasePeers(s, visited, now) - {p}
  {
    hide Linked, Staffed, HostGone, Remaining, Kept;
    ViewerGoes(s, visited, p, now);
  }

  // Visiting an expired viewer removes that viewer and broadcasts to the others.
  lemma PeerPhaseViewer(s: State, visited: set<PeerId>, p: PeerId, now: Time)
    requires Linked(s.rooms, s.peers) && Staffed(s.rooms, s.peers) && p in PeerPhasePeers(s, visited, now)
    requires s.peers[p].expires <= now && s.peers[p].role == Viewer
    requires s.peers[p].room in PeerPhaseRooms(s, visited, now)
    ensures PeerPhase(s, visited + {p}, now) == Remove(PeerPhase(s, visited, now), p, TokenExpired, now)
  {
    var home := s.peers[p].room;
    var rooms := PeerPhaseRooms(s, visited, now);
    var room := rooms[home].(peers := rooms[home].peers - {p});
    PeerPhaseViewerRooms(s, visited, p, now);
    PeerPhaseViewerPeers(s, visited, p, now);
    PeerPhaseViewerChannels(s, visited, p, room, now);
    TotalUpdate(rooms, home, room);
    hide PeerPhaseRooms, PeerPhasePeers, PeerPhaseChannels, TerminateAll, Announce, Linked, Staffed, Remaining, Total;
  }

  // ---------------------------------------------------------------- both phases together

  lemma StaffedAfterRooms(s: State, now: Time)
    requires Linked(s.rooms, s.peers) && Staffed(s.rooms, s.peers)
    ensures Staffed(RoomPhaseRooms(s, s.rooms.Keys, now), RoomPhasePeers(s, s.rooms.Keys, now))
    ensures forall r, q :: r in RoomPhaseRooms(s, s.rooms.Keys, now) ==>
      (Hosts(RoomPhaseRooms(s, s.rooms.Keys, now), RoomPhasePeers(s, s.rooms.Keys, now), r, q) <==> Hosts(s.rooms, s.peers, r, q))
  {
    hide Total, RoomPhaseChannels;
    var t := RoomPhase(s, s.rooms.Keys, now);
    forall r, q | r in t.rooms ensures Hosts(t.rooms, t.peers, r, q) <==> Hosts(s.rooms, s.peers, r, q) {}
  }

  lemma HostsGoneAfterRooms(s: State, r: RoomId, now: Time)
    requires Linked(s.rooms, s.peers) && Staffed(s.rooms, s.peers)
    requires r in RoomPhaseRooms(s, s.rooms.Keys, now)
    ensures HostGone(RoomPhase(s, s.rooms.Keys, now), s.peers.Keys, r, now) <==> RoomFate(s, r, now).Some?
  {
    StaffedAfterRooms(s, now);
    var t := RoomPhase(s, s.rooms.Keys, now);
    hide Total, Staffed, RoomPhaseChannels;
    if q :| Hosts(s.rooms, s.peers, r, q) && s.peers[q].expires <= now {
      assert Expired(t, s.peers.Keys, q, now);
    }
  }

  lemma StaysAfterRooms(s: State, p: PeerId, now: Time)
    requires Linked(s.rooms, s.peers) && Staffed(s.rooms, s.peers)
    ensures p in RoomPhasePeers(s, s.rooms.Keys, now) && Kept(RoomPhase(s, s.rooms.Keys, now), s.peers.Keys, p, now) <==>
            Stays(s, p, now)
  {
    hide Staffed, Hosts, HostGone, Total, RoomPhaseChannels;
    if p in RoomPhasePeers(s, s.rooms.Keys, now) {
      HostsGoneAfterRooms(s, s.peers[p].room, now);
    }
  }

  lemma RoomAfterRooms(s: State, r: RoomId, now: Time)
    requires Linked(s.rooms, s.peers) && Staffed(s.rooms, s.peers)
    requires r in RoomPhaseRooms(s, s.rooms.Keys, now) && RoomFate(s, r, now) == None
    ensures Remaining(RoomPhase(s, s.rooms.Keys, now), s.peers.Keys, r, now) == SweptRoom(s, r, now).peers
  {
    hide Staffed, Hosts, HostGone, Total, RoomPhaseChannels, RoomFate;
  }

  lemma SweptRoomsInPhases(s: State, now: Time)
    requires Linked(s.rooms, s.peers) && Staffed(s.rooms, s.peers)
    ensures PeerPhaseRooms(RoomPhase(s, s.rooms.Keys, now), s.peers.Keys, now) == SweptRooms(s, now)
  {
    hide Linked, Staffed, HostGone, Remaining, Total, RoomPhaseChannels, RoomPhasePeers, Stays;
    var t := RoomPhase(s, s.rooms.Keys, now);
    forall r | r in t.rooms { HostsGoneAfterRooms(s, r, now); }
    forall r | r in t.rooms && RoomFate(s, r, now) == None { RoomAfterRooms(s, r, now); }
  }

  lemma SweptPeersInPhases(s: State, now: Time)
    requires Linked(s.rooms, s.peers) && Staffed(s.rooms, s.peers)
    ensures PeerPhasePeers(RoomPhase(s, s.rooms.Keys, now), s.peers.Keys, now) == SweptPeers(s, now)
  {
    hide Linked, Staffed, HostGone, Remaining, Kept, PeerFate, RoomPhaseRooms, Total, RoomPhaseChannels;
    forall p { StaysAfterRooms(s, p, now); }
  }

  lemma SweptChannelInPhases(s: State, p: PeerId, now: Time)
    requires Linked(s.rooms, s.peers) && Staffed(s.rooms, s.peers) && p in s.channels
    ensures PeerPhaseChannel(RoomPhase(s, s.rooms.Keys, now), s.peers.Keys, p, now) == SweptChannel(s, p, now)
  {
    hide Staffed, HostGone, Remaining, Total, StateEvent, Terminate;
    StaysAfterRooms(s, p, now);
    if p in RoomPhasePeers(s, s.rooms.Keys, now) {
      HostsGoneAfterRooms(s, s.peers[p].room, now);
      if RoomFate(s, s.peers[p].room, now) == None { RoomAfterRooms(s, s.peers[p].room, now); }
    }
  }

  lemma SweptInPhases(s: State, now: Time)
    requires Linked(s.rooms, s.peers) && Staffed(s.rooms, s.peers)
    ensures PeerPhase(RoomPhase(s, s.rooms.Keys, now), s.peers.Keys, now) == Swept(s, now)
  {
    hide Linked, Staffed, PeerPhaseRooms, PeerPhasePeers, PeerPhaseChannel, SweptRooms, SweptPeers, SweptChannel, Total;
    hide RoomPhasePeers, RoomPhaseRooms;
    SweptRoomsInPhases(s, now);
    SweptPeersInPhases(s, now);
    forall p | p in s.channels { SweptChannelInPhases(s, p, now); }
    assert RoomPhase(s, s.rooms.Keys, now).channels.Keys == s.channels.Keys;
  }
}
