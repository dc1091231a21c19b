/** Every operation of the relay keeps its representation invariant `Valid`. */
module RelayInvariant {
  import opened Wrappers
  import opened RelayState
  import opened RelaySweep
  import ResourceId

  // ---------------------------------------------------------------- counting

  lemma Fewer<T>(a: set<T>, b: set<T>)
    requires a <= b
    ensures |a| <= |b|
  {
    assert b == a + (b - a);
  }

  // ---------------------------------------------------------------- rooms

  lemma RoomsOfEdit(rooms: Rooms, r: RoomId, room: Room, a: string)
    ensures r in rooms && room.host == rooms[r].host ==> RoomsOf(rooms[r := room], a) == RoomsOf(rooms, a)
    ensures r !in rooms ==> RoomsOf(rooms[r := room], a) == RoomsOf(rooms, a) + (if a == room.host then {r} else {})
  {
  }

  lemma RoomEdit(rooms: Rooms, r: RoomId, room: Room)
    requires RoomsValid(rooms) && r in rooms
    requires RoomValid(r, room) && room.host == rooms[r].host
    ensures RoomsValid(rooms[r := room])
  {
    hide RoomValid;
    var edited := rooms[r := room];
    assert edited.Keys == rooms.Keys;
    assert |edited| == |edited.Keys| && |rooms| == |rooms.Keys|;
    forall a ensures |RoomsOf(edited, a)| <= MAX_ROOMS_PER_HOST { RoomsOfEdit(rooms, r, room, a); }
  }

  lemma RoomsDropped(rooms: Rooms, kept: Rooms)
    requires RoomsValid(rooms) && kept.Keys <= rooms.Keys
    requires forall r :: r in kept ==> RoomValid(r, kept[r]) && kept[r].host == rooms[r].host
    ensures RoomsValid(kept)
  {
    hide RoomValid;
    Fewer(kept.Keys, rooms.Keys);
    assert |kept| == |kept.Keys| && |rooms| == |rooms.Keys|;
    forall a ensures |RoomsOf(kept, a)| <= MAX_ROOMS_PER_HOST {
      Fewer(RoomsOf(kept, a), RoomsOf(rooms, a));
    }
  }

  lemma RoomAdded(rooms: Rooms, r: RoomId, room: Room)
    requires RoomsValid(rooms) && r !in rooms && |rooms| < MAX_ROOMS && |RoomsOf(rooms, room.host)| < MAX_ROOMS_PER_HOST
    requires RoomValid(r, room)
    ensures RoomsValid(rooms[r := room])
  {
    hide RoomValid;
    var more := rooms[r := room];
    assert more.Keys == rooms.Keys + {r};
    assert |more| == |more.Keys| && |rooms| == |rooms.Keys|;
    forall a ensures |RoomsOf(more, a)| <= MAX_ROOMS_PER_HOST { RoomsOfEdit(rooms, r, room, a); }
  }

  lemma PeersDropped(peers: Peers, kept: Peers)
    requires PeersValid(peers) && kept.Keys <= peers.Keys && forall p :: p in kept ==> kept[p] == peers[p]
    ensures PeersValid(kept)
  {
    Fewer(kept.Keys, peers.Keys);
    assert |kept| == |kept.Keys| && |peers| == |peers.Keys|;
  }

  // ---------------------------------------------------------------- the two indexes

  // Edits that leave who hosts and who sits where alone.
  lemma LinksKept(rooms: Rooms, peers: Peers, rooms': Rooms, peers': Peers)
    requires Linked(rooms, peers) && Staffed(rooms, peers)
    requires rooms'.Keys == rooms.Keys && peers'.Keys == peers.Keys
    requires forall r :: r in rooms ==>
      rooms'[r].peers == rooms[r].peers && rooms'[r].online == rooms[r].online && rooms'[r].host == rooms[r].host
    requires forall p :: p in peers ==>
      peers'[p].room == peers[p].room && peers'[p].role == peers[p].role && peers'[p].actor == peers[p].actor
    ensures Linked(rooms', peers') && Staffed(rooms', peers')
  {
    hide Staffed;
    StaffKept(rooms, peers, rooms', peers');
  }

  lemma LinksWithoutRoom(rooms: Rooms, peers: Peers, r: RoomId)
    requires Linked(rooms, peers) && r in rooms
    ensures Linked(rooms - {r}, peers - rooms[r].peers)
  {
    forall x, p | x in rooms && x != r && p in rooms[x].peers ensures p !in rooms[r].peers {
      assert peers[p].room == x;
    }
  }

  // Staffed, from how the host peers of the new indexes relate to those of the old ones.
  lemma StaffKept(rooms: Rooms, peers: Peers, rooms': Rooms, peers': Peers)
    requires Staffed(rooms, peers)
    requires rooms'.Keys <= rooms.Keys && peers'.Keys <= peers.Keys
    requires forall r :: r in rooms' ==>
      rooms'[r].online == rooms[r].online && rooms'[r].host == rooms[r].host && rooms'[r].peers <= rooms[r].peers
    requires forall p :: p in peers' ==>
      peers'[p].room == peers[p].room && peers'[p].role == peers[p].role && peers'[p].actor == peers[p].actor
    requires forall r, p :: r in rooms' ==> (Hosts(rooms', peers', r, p) <==> Hosts(rooms, peers, r, p))
    requires forall r, p :: Hosts(rooms', peers', r, p) ==> r in rooms'
    ensures Staffed(rooms', peers')
  {
    hide Hosts;
  }

  lemma StaffWithoutRoom(rooms: Rooms, peers: Peers, r: RoomId)
    requires Linked(rooms, peers) && Staffed(rooms, peers) && r in rooms
    ensures Staffed(rooms - {r}, peers - rooms[r].peers)
  {
    hide Staffed;
    StaffKept(rooms, peers, rooms - {r}, peers - rooms[r].peers);
  }

  lemma LinksWithoutViewer(rooms: Rooms, peers: Peers, p: PeerId, room: Room)
    requires Linked(rooms, peers) && p in peers && peers[p].role == Viewer
    requires room == rooms[peers[p].room].(peers := rooms[peers[p].room].peers - {p})
    ensures Linked(rooms[peers[p].room := room], peers - {p})
  {
  }

  lemma StaffWithoutViewer(rooms: Rooms, peers: Peers, p: PeerId, room: Room)
    requires Linked(rooms, peers) && Staffed(rooms, peers) && p in peers && peers[p].role == Viewer
    requires room == rooms[peers[p].room].(peers := rooms[peers[p].room].peers - {p})
    ensures Staffed(rooms[peers[p].room := room], peers - {p})
  {
    hide Staffed;
    StaffKept(rooms, peers, rooms[peers[p].room := room], peers - {p});
  }

  // A new peer takes a seat: the host of an offline room, or a viewer of an online one.
  lemma LinksWithPeer(rooms: Rooms, peers: Peers, p: PeerId, peer: Peer, room: Room)
    requires Linked(rooms, peers) && p !in peers && peer.room in rooms
    requires room.peers == rooms[peer.room].peers + {p}
    ensures Linked(rooms[peer.room := room], peers[p := peer])
  {
  }

  lemma HostsWithPeer(rooms: Rooms, peers: Peers, p: PeerId, peer: Peer, room: Room, rooms': Rooms, peers': Peers)
    requires Linked(rooms, peers) && p !in peers && peer.room in rooms
    requires room.peers == rooms[peer.room].peers + {p}
    requires rooms' == rooms[peer.room := room] && peers' == peers[p := peer]
    ensures forall x, q {:trigger Hosts(rooms', peers', x, q)} {:trigger Hosts(rooms, peers, x, q)} ::
      Hosts(rooms', peers', x, q) <==> Hosts(rooms, peers, x, q) || (x == peer.room && q == p && peer.role == Host)
  {
    forall x, q
      ensures Hosts(rooms', peers', x, q) <==> Hosts(rooms, peers, x, q) || (x == peer.room && q == p && peer.role == Host)
    {
      if x in rooms { assert p !in rooms[x].peers; }
    }
  }

  lemma StaffWithPeer(rooms: Rooms, peers: Peers, p: PeerId, peer: Peer, room: Room)
    requires Linked(rooms, peers) && Staffed(rooms, peers) && p !in peers && peer.room in rooms
    requires room == rooms[peer.room].(peers := rooms[peer.room].peers + {p}, online := rooms[peer.room].online || peer.role == Host)
    requires peer.role == (if peer.actor == rooms[peer.room].host then Host else Viewer)
    requires rooms[peer.room].online <==> peer.role == Viewer
    requires forall q :: !rooms[peer.room].online ==> !Hosts(rooms, peers, peer.room, q)
    ensures Staffed(rooms[peer.room := room], peers[p := peer])
  {
    hide Hosts, Linked;
    var rooms', peers' := rooms[peer.room := room], peers[p := peer];
    HostsWithPeer(rooms, peers, p, peer, room, rooms', peers');
    assert peer.role == Host ==> Hosts(rooms', peers', peer.room, p);
  }

  // ---------------------------------------------------------------- building blocks

  lemma MailKeepsValid(s: State, mail: Mail)
    requires Valid(s)
    requires Mailboxes(s.peers.Keys, mail)
    ensures Valid(s.(channels := mail))
  {
    hide Linked, Staffed, RoomsValid, PeersValid, Mailboxes, Total;
  }

  lemma AnnounceKeeps(peers: Peers, mail: Mail, room: Room, now: Time)
    requires Mailboxes(peers.Keys, mail)
    ensures Mailboxes(peers.Keys, Announce(mail, room, peers, now))
  {
    hide Retired;
  }

  lemma BroadcastKeepsValid(s: State, r: RoomId, now: Time)
    requires Valid(s) && r in s.rooms
    ensures Valid(Broadcast(s, r, now))
  {
    hide Linked, Staffed, RoomsValid, PeersValid, Mailboxes, Announce, Total;
    AnnounceKeeps(s.peers, s.channels, s.rooms[r], now);
  }

  lemma TerminateAllKeeps(peers: Peers, mail: Mail, gone: set<PeerId>, reason: Reason)
    requires Mailboxes(peers.Keys, mail) && gone <= peers.Keys
    ensures Mailboxes((peers - gone).Keys, TerminateAll(mail, gone, reason))
  {
  }

  lemma RoomEditKeepsValid(s: State, r: RoomId, room: Room, bytes: int)
    requires Valid(s) && r in s.rooms && RoomValid(r, room)
    requires room.host == s.rooms[r].host && room.online == s.rooms[r].online && room.peers == s.rooms[r].peers
    requires bytes == s.bytes - |s.rooms[r].snapshot| + |room.snapshot| <= MAX_STORED_BYTES
    ensures Valid(s.(rooms := s.rooms[r := room], bytes := bytes))
  {
    hide Linked, Staffed, RoomsValid, RoomValid, PeersValid, Mailboxes, Total;
    TotalUpdate(s.rooms, r, room);
    RoomEdit(s.rooms, r, room);
    LinksKept(s.rooms, s.peers, s.rooms[r := room], s.peers);
  }

  lemma EndRoomKeepsValid(s: State, r: RoomId, reason: Reason)
    requires Valid(s) && r in s.rooms
    ensures Valid(EndRoom(s, r, reason))
  {
    hide Linked, Staffed, RoomsValid, PeersValid, Mailboxes, TerminateAll, Total, RoomValid;
    TotalWithout(s.rooms, r);
    FewerRooms(s.rooms, r);
    SeatedPeers(s.rooms, s.peers, r);
    PeersDropped(s.peers, s.peers - s.rooms[r].peers);
    LinksWithoutRoom(s.rooms, s.peers, r);
    StaffWithoutRoom(s.rooms, s.peers, r);
    TerminateAllKeeps(s.peers, s.channels, s.rooms[r].peers, reason);
  }

  lemma DropViewerKeepsValid(s: State, p: PeerId, reason: Reason, now: Time)
    requires Valid(s) && p in s.peers && s.peers[p].role == Viewer && s.peers[p].room in s.rooms
    ensures Valid(Remove(s, p, reason, now))
  {
    hide Linked, Staffed, RoomsValid, PeersValid, Mailboxes, TerminateAll, Announce, Total;
    var r := s.peers[p].room;
    var room := s.rooms[r].(peers := s.rooms[r].peers - {p});
    var t := State(s.rooms[r := room], s.peers - {p}, s.bytes, s.closed, TerminateAll(s.channels, {p}, reason));
    TotalUpdate(s.rooms, r, room);
    SmallerRoom(s.rooms, r, room);
    PeersDropped(s.peers, s.peers - {p});
    LinksWithoutViewer(s.rooms, s.peers, p, room);
    StaffWithoutViewer(s.rooms, s.peers, p, room);
    TerminateAllKeeps(s.peers, s.channels, {p}, reason);
    BroadcastKeepsValid(t, r, now);
  }

  lemma FewerRooms(rooms: Rooms, r: RoomId)
    requires RoomsValid(rooms)
    ensures RoomsValid(rooms - {r})
  {
    RoomsDropped(rooms, rooms - {r});
  }

  lemma SeatedPeers(rooms: Rooms, peers: Peers, r: RoomId)
    requires Linked(rooms, peers) && r in rooms
    ensures rooms[r].peers <= peers.Keys
  {
  }

  lemma SmallerRoom(rooms: Rooms, r: RoomId, room: Room)
    requires RoomsValid(rooms) && r in rooms
    requires room == rooms[r].(peers := room.peers) && room.peers <= rooms[r].peers
    ensures RoomsValid(rooms[r := room])
  {
    Fewer(room.peers, rooms[r].peers);
    RoomEdit(rooms, r, room);
  }

  lemma RemoveKeepsValid(s: State, p: PeerId, reason: Reason, now: Time)
    requires Valid(s) && p in s.peers
    ensures s.peers[p].room in s.rooms
    ensures Valid(Remove(s, p, reason, now))
  {
    hide Staffed, RoomsValid, PeersValid, Mailboxes, TerminateAll, Announce, Total;
    if s.peers[p].role == Host { EndRoomKeepsValid(s, s.peers[p].room, reason); }
    else { DropViewerKeepsValid(s, p, reason, now); }
  }

  // ---------------------------------------------------------------- sweep

  lemma {:induction false} RoomPhaseValid(s: State, visited: set<RoomId>, now: Time)
    requires Valid(s) && visited <= s.rooms.Keys
    ensures Valid(RoomPhase(s, visited, now))
    decreases visited
  {
    hide Valid, RoomPhase, EndRoom;
    if visited == {} {
      PhasesStart(s, now);
    } else {
      var r :| r in visited;
      var rest := visited - {r};
      assert visited == rest + {r};
      RoomPhaseValid(s, rest, now);
      RoomPhaseNext(s, rest, r, now);
    }
  }

  lemma ValidFacts(s: State)
    requires Valid(s)
    ensures Linked(s.rooms, s.peers) && Staffed(s.rooms, s.peers) && Mailboxes(s.peers.Keys, s.channels)
    ensures s.bytes == Total(s.rooms)
  {
  }

  // Visiting one more room: the source ends it exactly when it is overdue, and that is what the
  // next phase holds.
  lemma RoomPhaseNext(s: State, visited: set<RoomId>, r: RoomId, now: Time)
    requires Valid(s) && Valid(RoomPhase(s, visited, now)) && r in s.rooms && r !in visited
    ensures r in RoomPhase(s, visited, now).rooms && RoomPhase(s, visited, now).rooms[r] == s.rooms[r]
    ensures RoomPhase(s, visited + {r}, now) ==
            match Overdue(s.rooms[r], now)
            case Some(reason) => EndRoom(RoomPhase(s, visited, now), r, reason)
            case None => RoomPhase(s, visited, now)
    ensures Valid(RoomPhase(s, visited + {r}, now))
  {
    hide Valid, RoomPhase, EndRoom, Overdue;
    ValidFacts(s);
    Unvisited(s, visited, r, now);
    if Overdue(s.rooms[r], now).Some? {
      RoomPhaseEnds(s, visited, r, now);
      EndRoomKeepsValid(RoomPhase(s, visited, now), r, Overdue(s.rooms[r], now).value);
    } else {
      RoomPhaseSame(s, visited, visited + {r}, now);
    }
  }

  lemma Unvisited(s: State, visited: set<RoomId>, r: RoomId, now: Time)
    requires r in s.rooms && r !in visited
    ensures r in RoomPhase(s, visited, now).rooms && RoomPhase(s, visited, now).rooms[r] == s.rooms[r]
  {
    hide Total;
  }

  lemma PhasesStart(s: State, now: Time)
    requires Valid(s)
    ensures RoomPhase(s, {}, now) == s && PeerPhase(s, {}, now) == s
  {
    hide Valid, RoomPhase, PeerPhase;
    ValidFacts(s);
    RoomPhaseStart(s, now);
    PeerPhaseStart(s, now);
  }

  lemma SeatOf(s: State, p: PeerId)
    requires Valid(s) && p in s.peers
    ensures s.peers[p].room in s.rooms && p in s.rooms[s.peers[p].room].peers && p in s.channels
  {
    hide Staffed, RoomsValid, PeersValid, Total;
  }

  // One more peer visited while it is still indexed: the source removes it exactly when its token
  // ran out, and that is what the next phase holds.
  lemma PeerPhaseNext(s: State, visited: set<PeerId>, p: PeerId, now: Time)
    requires Valid(s) && Valid(PeerPhase(s, visited, now)) && p in PeerPhasePeers(s, visited, now)
    ensures p in s.peers && s.peers[p].room in PeerPhaseRooms(s, visited, now)
    ensures PeerPhase(s, visited + {p}, now) ==
            if s.peers[p].expires <= now then Remove(PeerPhase(s, visited, now), p, TokenExpired, now)
            else PeerPhase(s, visited, now)
    ensures Valid(PeerPhase(s, visited + {p}, now))
  {
    hide Valid, EndRoom, Remove, PeerPhaseRooms, PeerPhaseChannels, HostGone, Total;
    ValidFacts(s);
    SeatOf(PeerPhase(s, visited, now), p);
    if s.peers[p].expires <= now {
      if s.peers[p].role == Host {
        PeerPhaseHost(s, visited, p, now);
        HostIsEnd(PeerPhase(s, visited, now), p, now);
      } else {
        PeerPhaseViewer(s, visited, p, now);
      }
      RemoveKeepsValid(PeerPhase(s, visited, now), p, TokenExpired, now);
    } else {
      PeerPhaseIdle(s, visited, p, now);
    }
  }

  lemma HostIsEnd(s: State, p: PeerId, now: Time)
    requires p in s.peers && s.peers[p].room in s.rooms && s.peers[p].role == Host
    ensures Remove(s, p, TokenExpired, now) == EndRoom(s, s.peers[p].room, TokenExpired)
  {
  }

  // Peers that are no longer indexed when their turn comes are not visited at all.
  lemma PeerPhaseGone(s: State, visited: set<PeerId>, p: PeerId, now: Time)
    requires Valid(s) && p in s.peers && p !in visited && p !in PeerPhasePeers(s, visited, now)
    ensures PeerPhase(s, visited + {p}, now) == PeerPhase(s, visited, now)
  {
    hide Valid, HostGone, PeerPhaseRooms, PeerPhaseChannels, Total;
    ValidFacts(s);
    PeerPhaseIdle(s, visited, p, now);
  }

  lemma {:induction false} PeerPhaseAllGone(s: State, visited: set<PeerId>, rest: set<PeerId>, now: Time)
    requires Valid(s) && rest <= s.peers.Keys && rest !! visited && rest !! PeerPhasePeers(s, visited, now).Keys
    ensures PeerPhase(s, visited + rest, now) == PeerPhase(s, visited, now)
    decreases rest
  {
    hide Valid, PeerPhaseRooms, PeerPhaseChannels, PeerPhasePeers, Total;
    if rest == {} {
      assert visited + rest == visited;
    } else {
      var p :| p in rest;
      PeerPhaseGone(s, visited, p, now);
      assert visited + rest == (visited + {p}) + (rest - {p});
      assert PeerPhasePeers(s, visited + {p}, now) == PeerPhase(s, visited + {p}, now).peers;
      assert PeerPhasePeers(s, visited, now) == PeerPhase(s, visited, now).peers;
      PeerPhaseAllGone(s, visited + {p}, rest - {p}, now);
    }
  }

  lemma {:induction false} PeerPhaseValid(s: State, visited: set<PeerId>, now: Time)
    requires Valid(s) && visited <= s.peers.Keys
    ensures Valid(PeerPhase(s, visited, now))
    decreases visited
  {
    hide Valid, PeerPhaseRooms, PeerPhasePeers, PeerPhaseChannels, Remove, Total;
    if visited == {} {
      PhasesStart(s, now);
    } else {
      var p :| p in visited;
      var rest := visited - {p};
      assert visited == rest + {p};
      PeerPhaseValid(s, rest, now);
      if p in PeerPhasePeers(s, rest, now) { PeerPhaseNext(s, rest, p, now); }
      else { PeerPhaseGone(s, rest, p, now); }
    }
  }

  // Peers of rooms ended in the first phase add nothing to the second.
  lemma PeerPhaseBeyond(s: State, visited: set<PeerId>, more: set<PeerId>, now: Time)
    requires Linked(s.rooms, s.peers) && visited == more * s.peers.Keys
    ensures PeerPhase(s, visited, now) == PeerPhase(s, more, now)
  {
    hide Linked, Total;
    forall p ensures Expired(s, visited, p, now) == Expired(s, more, p, now) {}
    hide Expired;
    assert forall r :: HostGone(s, visited, r, now) == HostGone(s, more, r, now);
    PeerPhaseSame(s, visited, more, now);
  }

  lemma FewerPeers(s: State, now: Time)
    ensures RoomPhase(s, s.rooms.Keys, now).peers.Keys <= s.peers.Keys
  {
    hide Total;
  }

  lemma SweptByPhases(s: State, now: Time)
    requires Valid(s)
    ensures Valid(RoomPhase(s, s.rooms.Keys, now))
    ensures Swept(s, now) ==
      PeerPhase(RoomPhase(s, s.rooms.Keys, now), RoomPhase(s, s.rooms.Keys, now).peers.Keys, now)
  {
    hide Valid, RoomPhase, PeerPhase, Swept, Linked, Staffed, Mailboxes, Total;
    ValidFacts(s);
    var t := RoomPhase(s, s.rooms.Keys, now);
    RoomPhaseValid(s, s.rooms.Keys, now);
    ValidFacts(t);
    FewerPeers(s, now);
    assert t.peers.Keys == s.peers.Keys * t.peers.Keys;
    PeerPhaseBeyond(t, t.peers.Keys, s.peers.Keys, now);
    SweptInPhases(s, now);
  }

  lemma SweptKeepsValid(s: State, now: Time)
    requires Valid(s)
    ensures Valid(Swept(s, now))
  {
    hide Valid, RoomPhase, PeerPhase, Swept;
    SweptByPhases(s, now);
    var t := RoomPhase(s, s.rooms.Keys, now);
    PeerPhaseValid(t, t.peers.Keys, now);
  }

  // What a sweep leaves is strictly before every deadline, and it takes nothing else: a room stays
  // exactly when it is before its own deadlines and its host peer's token holds, a peer exactly when
  // its room stays and its own token holds.
  lemma SweepIsExact(s: State, now: Time)
    requires Valid(s)
    ensures forall r :: r in Swept(s, now).rooms <==>
      r in s.rooms && now < s.rooms[r].idle && (s.rooms[r].online || now < s.rooms[r].pending) &&
      (forall p :: Hosts(s.rooms, s.peers, r, p) ==> now < s.peers[p].expires)
    ensures forall p :: p in Swept(s, now).peers <==>
      p in s.peers && s.peers[p].room in Swept(s, now).rooms && now < s.peers[p].expires
    ensures forall r :: r in Swept(s, now).rooms ==>
      Swept(s, now).rooms[r] == s.rooms[r].(peers := s.rooms[r].peers * Swept(s, now).peers.Keys)
  {
    hide Staffed, RoomsValid, PeersValid, Mailboxes, Total, Hosts;
    forall r | r in Swept(s, now).rooms
      ensures Swept(s, now).rooms[r].peers == s.rooms[r].peers * Swept(s, now).peers.Keys {}
  }

  // ---------------------------------------------------------------- operations

  lemma IssueKeepsValid(s: State, r: RoomId, actor: string, role: Role, token: string, now: Time)
    requires Valid(s) && r in s.rooms
    requires role == if actor == s.rooms[r].host then Host else Viewer
    requires actor in s.rooms[r].grants || |s.rooms[r].grants| < MAX_GRANTS
    requires forall a :: a in s.rooms[r].grants ==> s.rooms[r].grants[a].token != token
    ensures Valid(Issue(s, r, actor, role, token, now).state)
  {
    hide Valid, Linked, Staffed, RoomsValid, PeersValid, Mailboxes, Total;
    var room := s.rooms[r];
    var room' := room.(grants := room.grants[actor := Grant(actor, role, token, now + TOKEN_TTL)]);
    RoomOf(s, r);
    GrantAdded(r, room, actor, room'.grants[actor]);
    RoomEditKeepsValid(s, r, room', s.bytes);
  }

  lemma RoomOf(s: State, r: RoomId)
    requires Valid(s) && r in s.rooms
    ensures RoomValid(r, s.rooms[r]) && s.bytes <= MAX_STORED_BYTES && !s.closed
  {
    hide Linked, Staffed, PeersValid, Mailboxes, Total, GrantsValid;
  }

  lemma GrantAdded(r: RoomId, room: Room, actor: string, g: Grant)
    requires RoomValid(r, room)
    requires g.actor == actor && g.role == if actor == room.host then Host else Viewer
    requires actor in room.grants || |room.grants| < MAX_GRANTS
    requires forall a :: a in room.grants ==> room.grants[a].token != g.token
    ensures RoomValid(r, room.(grants := room.grants[actor := g]))
  {
    GrantCount(room.grants, actor, g);
  }

  lemma GrantCount(grants: map<string, Grant>, actor: string, g: Grant)
    ensures |grants[actor := g]| == if actor in grants then |grants| else |grants| + 1
  {
    assert grants[actor := g].Keys == grants.Keys + {actor};
    assert |grants[actor := g]| == |grants[actor := g].Keys| && |grants| == |grants.Keys|;
  }

  lemma CreateKeepsValid(s: State, actor: string, id: RoomId, invite: string, token: string, now: Time)
    requires Valid(s) && id !in s.rooms
    ensures Valid(Create(s, actor, id, invite, token, now).state)
  {
    hide Valid, RoomValid, Swept;
    SweptKeepsValid(s, now);
    var t := Swept(s, now);
    assert id !in t.rooms by { SweptShrinks(s, now); }
    if ResourceId.Valid(actor, "usr") && !t.closed && |t.rooms| < MAX_ROOMS && |RoomsOf(t.rooms, actor)| < MAX_ROOMS_PER_HOST {
      NewRoomKeepsValid(t, id, actor, invite, token, now);
    }
  }

  lemma SweptShrinks(s: State, now: Time)
    ensures Swept(s, now).rooms.Keys <= s.rooms.Keys && Swept(s, now).peers.Keys <= s.peers.Keys
    ensures Swept(s, now).channels.Keys == s.channels.Keys && Swept(s, now).closed == s.closed
  {
    hide Total;
  }

  lemma NewRoomKeepsValid(t: State, id: RoomId, actor: string, invite: string, token: string, now: Time)
    requires Valid(t) && id !in t.rooms && !t.closed
    requires |t.rooms| < MAX_ROOMS && |RoomsOf(t.rooms, actor)| < MAX_ROOMS_PER_HOST
    ensures Valid(t.(rooms := t.rooms[id := NewRoom(id, actor, invite, token, now)]))
  {
    hide RoomsValid, PeersValid, Mailboxes, Total, Hosts;
    var room := NewRoom(id, actor, invite, token, now);
    NewRoomValid(id, actor, invite, token, now);
    RoomAdded(t.rooms, id, room);
    TotalUpdate(t.rooms, id, room);
    EmptyRoomLinks(t.rooms, t.peers, id, room);
  }

  lemma NewRoomValid(id: RoomId, actor: string, invite: string, token: string, now: Time)
    ensures RoomValid(id, NewRoom(id, actor, invite, token, now))
  {
  }

  lemma EmptyRoomLinks(rooms: Rooms, peers: Peers, r: RoomId, room: Room)
    requires Linked(rooms, peers) && Staffed(rooms, peers) && r !in rooms
    requires room.peers == {} && !room.online
    ensures Linked(rooms[r := room], peers) && Staffed(rooms[r := room], peers)
  {
    var rooms' := rooms[r := room];
    forall x, p ensures Hosts(rooms', peers, x, p) <==> Hosts(rooms, peers, x, p) {}
  }

  // A secret that no grant of the relay carries.
  predicate Unissued(s: State, token: string) {
    forall r, a :: r in s.rooms && a in s.rooms[r].grants ==> s.rooms[r].grants[a].token != token
  }

  lemma StillUnissued(s: State, token: string, r: RoomId, now: Time)
    requires Unissued(s, token) && r in Swept(s, now).rooms
    ensures forall a :: a in Swept(s, now).rooms[r].grants ==> Swept(s, now).rooms[r].grants[a].token != token
  {
    hide Total, RoomFate;
  }

  lemma LiveKeepsValid(s: State, r: RoomId, now: Time)
    requires Valid(s)
    ensures Valid(Live(s, r, now).state)
    ensures Live(s, r, now).outcome.Ok? ==>
      Live(s, r, now).state == Swept(s, now) && r in Swept(s, now).rooms && Live(s, r, now).outcome.value == Swept(s, now).rooms[r]
  {
    hide Valid, Swept;
    SweptKeepsValid(s, now);
  }

  lemma RoleOf(s: State, r: RoomId, actor: string)
    requires Valid(s) && r in s.rooms && actor in s.rooms[r].grants
    ensures s.rooms[r].grants[actor].role == if actor == s.rooms[r].host then Host else Viewer
    ensures s.rooms[r].grants[actor].actor == actor
  {
    hide Linked, Staffed, PeersValid, Mailboxes, Total;
  }

  lemma HostHasGrant(s: State, r: RoomId)
    requires Valid(s) && r in s.rooms
    ensures s.rooms[r].host in s.rooms[r].grants
  {
    hide Linked, Staffed, PeersValid, Mailboxes, Total;
  }

  lemma JoinKeepsValid(s: State, r: RoomId, actor: string, invite: string, token: string, now: Time)
    requires Valid(s) && Unissued(s, token)
    ensures Valid(Join(s, r, actor, invite, token, now).state)
  {
    hide Valid, Live, Issue, Unissued;
    LiveKeepsValid(s, r, now);
    var live := Live(s, r, now);
    if live.outcome.Ok? {
      StillUnissued(s, token, r, now);
      HostHasGrant(live.state, r);
      if actor == live.outcome.value.host { IssueKeepsValid(live.state, r, actor, Host, token, now); }
      else if |live.outcome.value.grants| < MAX_GRANTS || actor in live.outcome.value.grants {
        IssueKeepsValid(live.state, r, actor, Viewer, token, now);
      }
    }
  }

  lemma RenewKeepsValid(s: State, r: RoomId, actor: string, token: string, now: Time)
    requires Valid(s) && Unissued(s, token)
    ensures Valid(Renew(s, r, actor, token, now).state)
  {
    hide Valid, Live, Issue, Unissued;
    LiveKeepsValid(s, r, now);
    var live := Live(s, r, now);
    if live.outcome.Ok? && actor in live.outcome.value.grants {
      StillUnissued(s, token, r, now);
      RoleOf(live.state, r, actor);
      IssueKeepsValid(live.state, r, actor, live.outcome.value.grants[actor].role, token, now);
    }
  }

  lemma RevokeKeepsValid(s: State, r: RoomId, actor: string, now: Time)
    requires Valid(s)
    ensures Valid(Revoke(s, r, actor, now).state)
  {
    hide Valid, Live, EndRoom;
    LiveKeepsValid(s, r, now);
    if Live(s, r, now).outcome.Ok? { EndRoomKeepsValid(Live(s, r, now).state, r, HostRevoked); }
  }

  lemma PeerCount(peers: Peers, p: PeerId, peer: Peer)
    requires PeersValid(peers) && p !in peers && |peers| < MAX_CONNECTIONS && peer.id == p
    ensures PeersValid(peers[p := peer])
  {
    assert peers[p := peer].Keys == peers.Keys + {p};
    assert |peers[p := peer]| == |peers[p := peer].Keys| && |peers| == |peers.Keys|;
  }

  lemma MoreMail(peers: Peers, mail: Mail, p: PeerId, peer: Peer)
    requires Mailboxes(peers.Keys, mail)
    ensures Mailboxes(peers[p := peer].Keys, mail[p := Channels(None, None, [])])
  {
    hide Retired;
  }

  lemma SeatTaken(rooms: Rooms, r: RoomId, p: PeerId, online: bool)
    requires RoomsValid(rooms) && r in rooms && |rooms[r].peers| < MAX_PEERS
    ensures RoomsValid(rooms[r := rooms[r].(peers := rooms[r].peers + {p}, online := online)])
  {
    hide GrantsValid;
    RoomEdit(rooms, r, rooms[r].(peers := rooms[r].peers + {p}, online := online));
  }

  lemma SubscribedKeepsValid(t: State, r: RoomId, g: Grant, id: PeerId, now: Time)
    requires Valid(t) && r in t.rooms && id !in t.peers
    requires |t.peers| < MAX_CONNECTIONS && |t.rooms[r].peers| < MAX_PEERS
    requires g.role == if g.actor == t.rooms[r].host then Host else Viewer
    requires t.rooms[r].online <==> g.role == Viewer
    ensures Valid(Subscribed(t, r, g, id, now))
  {
    hide Linked, Staffed, RoomsValid, PeersValid, Mailboxes, Announce, Total;
    var room := t.rooms[r].(peers := t.rooms[r].peers + {id}, online := t.rooms[r].online || g.role == Host);
    var peer := Peer(id, r, g.actor, g.role, g.expires);
    SeatTaken(t.rooms, r, id, room.online);
    PeerCount(t.peers, id, peer);
    MoreMail(t.peers, t.channels, id, peer);
    LinksWithPeer(t.rooms, t.peers, id, peer, room);
    EmptyWhenOffline(t.rooms, t.peers, r);
    StaffWithPeer(t.rooms, t.peers, id, peer, room);
    TotalUpdate(t.rooms, r, room);
    BroadcastKeepsValid(t.(rooms := t.rooms[r := room], peers := t.peers[id := peer],
                           channels := t.channels[id := Channels(None, None, [])]), r, now);
  }

  lemma EmptyWhenOffline(rooms: Rooms, peers: Peers, r: RoomId)
    requires Staffed(rooms, peers)
    ensures r in rooms && !rooms[r].online ==> rooms[r].peers == {} && forall q :: !Hosts(rooms, peers, r, q)
  {
  }

  // A token names at most one grant of a room, so the grant it is good for is decided by the token.
  lemma AdmittedIsGrant(room: Room, token: string, now: Time)
    requires GrantsValid(room.host, room.grants)
    ensures forall actor :: Admits(room, token, now, actor) ==> Admitted(room, token, now) == Some(room.grants[actor])
    ensures Admitted(room, token, now).Some? ==>
      exists actor :: Admits(room, token, now, actor) && actor == Admitted(room, token, now).value.actor &&
        room.grants[actor] == Admitted(room, token, now).value
  {
    if exists actor :: Admits(room, token, now, actor) {
      var actor :| Admits(room, token, now, actor) && Admitted(room, token, now) == Some(room.grants[actor]);
      assert actor == Admitted(room, token, now).value.actor;
    }
  }

  lemma AttachKeepsValid(s: State, r: RoomId, token: string, id: PeerId, now: Time)
    requires Valid(s) && id !in s.peers
    ensures Valid(Attach(s, r, token, id, now).state)
  {
    hide Valid, Live, Subscribed, Admitted, Swept;
    LiveKeepsValid(s, r, now);
    SweptShrinks(s, now);
    var live := Live(s, r, now);
    if live.outcome.Ok? {
      var t, room := live.state, live.outcome.value;
      var g := Admitted(room, token, now);
      if g.Some? && |t.peers| < MAX_CONNECTIONS && |room.peers| < MAX_PEERS && (room.online <==> g.value.role == Viewer) {
        RoomOf(t, r);
        AdmittedIsGrant(room, token, now);
        RoleOf(t, r, g.value.actor);
        SubscribedKeepsValid(t, r, g.value, id, now);
      }
    }
  }

  lemma ReauthenticateKeepsValid(s: State, p: PeerId, token: string, now: Time)
    requires Valid(s)
    ensures Valid(Reauthenticate(s, p, token, now).state)
  {
    hide Valid, Swept, Admitted;
    SweptKeepsValid(s, now);
    var t := Swept(s, now);
    if p in t.peers {
      SeatOf(t, p);
      var g := Admitted(t.rooms[t.peers[p].room], token, now);
      if g.Some? { ExpiryEditKeepsValid(t, p, g.value.expires); }
    }
  }

  lemma ExpiryEditKeepsValid(s: State, p: PeerId, expires: Time)
    requires Valid(s) && p in s.peers
    ensures Valid(s.(peers := s.peers[p := s.peers[p].(expires := expires)]))
  {
    hide Linked, Staffed, RoomsValid, PeersValid, Mailboxes, Total;
    var peer := s.peers[p].(expires := expires);
    assert s.peers[p := peer].Keys == s.peers.Keys;
    LinksKept(s.rooms, s.peers, s.rooms, s.peers[p := peer]);
    PeerEdit(s.peers, p, peer);
  }

  lemma PeerEdit(peers: Peers, p: PeerId, peer: Peer)
    requires PeersValid(peers) && p in peers && peer.id == peers[p].id
    ensures PeersValid(peers[p := peer])
  {
    assert peers[p := peer].Keys == peers.Keys;
    assert |peers[p := peer]| == |peers[p := peer].Keys| && |peers| == |peers.Keys|;
  }

  lemma PublishKeepsValid(s: State, p: PeerId, source: Bytes, wellFormed: bool, now: Time)
    requires Valid(s)
    ensures Valid(Publish(s, p, source, wellFormed, now).state)
  {
    hide Valid, Swept, Published;
    SweptKeepsValid(s, now);
    var t := Swept(s, now);
    if p in t.peers && |source| <= MAX_SNAPSHOT_BYTES {
      SeatOf(t, p);
      var r := t.peers[p].room;
      if t.bytes - |t.rooms[r].snapshot| + |source| <= MAX_STORED_BYTES { PublishedKeepsValid(t, r, source, now); }
    }
  }

  lemma PublishedKeepsValid(t: State, r: RoomId, source: Bytes, now: Time)
    requires Valid(t) && r in t.rooms && |source| <= MAX_SNAPSHOT_BYTES
    requires t.bytes - |t.rooms[r].snapshot| + |source| <= MAX_STORED_BYTES
    ensures Valid(Published(t, r, source, now))
  {
    hide Valid, Broadcast;
    var room := t.rooms[r];
    var room' := room.(snapshot := source, revision := (room.revision + 1) % TWO_TO_THE_64, idle := now + IDLE_TIMEOUT);
    RoomOf(t, r);
    RoomEditKeepsValid(t, r, room', t.bytes - |room.snapshot| + |source|);
    BroadcastKeepsValid(t.(rooms := t.rooms[r := room'], bytes := t.bytes - |room.snapshot| + |source|), r, now);
  }

  lemma ActivityKeepsValid(s: State, p: PeerId, kind: string, now: Time)
    requires Valid(s)
    ensures Valid(Activity(s, p, kind, now).state)
  {
    hide Valid, Swept, Touched;
    SweptKeepsValid(s, now);
    if p in Swept(s, now).peers {
      SeatOf(Swept(s, now), p);
      TouchedKeepsValid(Swept(s, now), Swept(s, now).peers[p].room, now);
    }
  }

  lemma TouchedKeepsValid(t: State, r: RoomId, now: Time)
    requires Valid(t) && r in t.rooms
    ensures Valid(Touched(t, r, now))
  {
    hide Valid, Broadcast;
    var room' := t.rooms[r].(idle := now + IDLE_TIMEOUT);
    RoomOf(t, r);
    RoomEditKeepsValid(t, r, room', t.bytes);
    BroadcastKeepsValid(t.(rooms := t.rooms[r := room']), r, now);
  }

  lemma PresenceKeepsValid(s: State, p: PeerId, value: Bytes, wellFormed: bool, now: Time)
    requires Valid(s)
    ensures Valid(ShowPresence(s, p, value, wellFormed, now).state)
  {
    hide Valid, Swept, Announced;
    SweptKeepsValid(s, now);
    if p in Swept(s, now).peers {
      SeatOf(Swept(s, now), p);
      AnnouncedKeepsValid(Swept(s, now), p, value, now);
    }
  }

  lemma AnnouncedKeepsValid(t: State, p: PeerId, value: Bytes, now: Time)
    requires Valid(t) && p in t.peers && t.peers[p].room in t.rooms
    ensures Valid(Announced(t, p, value, now))
  {
    hide Staffed, RoomsValid, PeersValid, Total, Retired;
    SeatedPeers(t.rooms, t.peers, t.peers[p].room);
    MailKeepsValid(t, Announced(t, p, value, now).channels);
  }

  lemma DetachKeepsValid(s: State, p: PeerId, now: Time)
    requires Valid(s)
    ensures Valid(Detach(s, p, now))
  {
    hide Valid, Remove;
    if p in s.peers { RemoveKeepsValid(s, p, HostDisconnected, now); }
  }

  lemma NothingIsValid()
    ensures Linked(map[], map[]) && Staffed(map[], map[]) && PeersValid(map[]) && Total(map[]) == 0
    ensures RoomsValid(map[])
  {
    forall a ensures RoomsOf(map[], a) == {} {}
  }

  lemma CloseKeepsValid(s: State)
    requires Valid(s)
    ensures Valid(Close(s))
  {
    hide Total, Linked, Staffed, RoomsValid, PeersValid, Mailboxes, TerminateAll;
    NothingIsValid();
    TerminateAllKeeps(s.peers, s.channels, s.peers.Keys, RelayStopped);
    assert (s.peers - s.peers.Keys) == map[];
  }
}
