/** The relay object: one mutex-guarded pair of indexes that every method updates in place. Each
    public method is one locked section that reads the clock once, as `now`. Ranging over a map is an
    arbitrary choice of a key not visited yet. */
module LocalRelay {
  import opened Wrappers
  import opened RelayState
  import opened RelaySweep
  import opened RelayInvariant
  import ResourceId

  class Relay {
    var rooms: Rooms
    var peers: Peers
    var bytes: int
    var closed: bool
    var channels: Mail

    ghost function Model(): State
      reads this
    {
      State(rooms, peers, bytes, closed, channels)
    }

    constructor ()
      ensures Model() == EMPTY && Valid(Model())
    {
      rooms, peers, bytes, closed, channels := map[], map[], 0, false, map[];
      new;
      EmptyIsValid();
    }

    // ---------------------------------------------------------------- channels

    // A plain send on the event channel. It would block if the slot were taken.
    method SendEvent(p: PeerId, event: Event)
      requires p in channels && channels[p].events == None
      modifies this`channels
      ensures channels == old(channels)[p := old(channels[p]).(events := Some(event))]
    {
      channels := channels[p := channels[p].(events := Some(event))];
    }

    // Send if the slot is free; otherwise drop what it holds first. The reader holds no lock and may
    // take the old event at any moment; either way the last send finds the slot free.
    method Offer(p: PeerId, event: Event)
      requires p in channels
      modifies this`channels
      ensures channels == old(channels)[p := old(channels[p]).(events := Some(event))]
    {
      if channels[p].events == None {
        SendEvent(p, event);
      } else {
        if * {
          channels := channels[p := channels[p].(events := None)]; // the reader was faster
        }
        if channels[p].events != None {
          channels := channels[p := channels[p].(events := None)];
        }
        SendEvent(p, event);
      }
    }

    // Drain the events and send the reason. The send would block on a reason not collected yet.
    method Tell(p: PeerId, reason: Reason)
      requires p in channels && channels[p].ended == None
      modifies this`channels
      ensures channels == old(channels)[p := Terminate(old(channels[p]), reason)]
    {
      channels := channels[p := channels[p].(events := None)];
      channels := channels[p := channels[p].(ended := Some(reason), reasons := channels[p].reasons + [reason])];
    }

    method Broadcast(r: RoomId, now: Time)
      requires r in rooms && rooms[r].peers <= peers.Keys <= channels.Keys
      modifies this`channels
      ensures Model() == RelayState.Broadcast(old(Model()), r, now)
    {
      var room := rooms[r];
      var todo := room.peers;
      while todo != {}
        invariant todo <= room.peers && channels.Keys == old(channels).Keys
        invariant forall q :: q in channels ==>
          channels[q] == if q in room.peers && q !in todo then old(channels)[q].(events := Some(StateEvent(room, peers[q], now)))
                         else old(channels)[q]
        decreases todo
      {
        var p :| p in todo;
        Offer(p, StateEvent(room, peers[p], now));
        todo := todo - {p};
      }
      assert channels == Announce(old(channels), room, peers, now);
    }

    // ---------------------------------------------------------------- end and detach

    // Every send of the reason finds its slot free: the peers of a room were told nothing yet.
    method End(r: RoomId, reason: Reason)
      requires r in rooms && rooms[r].peers <= peers.Keys <= channels.Keys
      requires forall p :: p in rooms[r].peers ==> channels[p].ended == None
      modifies this
      ensures Model() == EndRoom(old(Model()), r, reason)
    {
      hide TerminateAll;
      var seats := rooms[r].peers;
      var todo := seats;
      NoneTold(channels, reason);
      assert seats - todo == {};
      while todo != {}
        invariant todo <= seats
        invariant rooms == old(rooms) && bytes == old(bytes) && closed == old(closed)
        invariant peers == old(peers) - (seats - todo)
        invariant channels == TerminateAll(old(channels), seats - todo, reason)
        decreases todo
      {
        var p :| p in todo;
        OneMoreTold(old(channels), seats - todo, p, reason);
        Tell(p, reason);
        peers := peers - {p};
        assert seats - (todo - {p}) == (seats - todo) + {p};
        todo := todo - {p};
      }
      assert seats - todo == seats;
      bytes := bytes - |rooms[r].snapshot|;
      rooms := rooms - {r};
    }

    // The `detach` of the source: a host takes its room along.
    method DetachPeer(p: PeerId, reason: Reason, now: Time)
      requires Valid(Model()) && p in peers
      modifies this
      ensures Valid(Model()) && old(peers[p].room) in old(rooms)
      ensures Model() == Remove(old(Model()), p, reason, now)
    {
      hide Valid, RoomsValid, PeersValid, Staffed, Total, Linked, TerminateAll, Announce;
      RemoveKeepsValid(Model(), p, reason, now);
      SeatOf(Model(), p);
      var r := peers[p].room;
      EndReady(Model(), r);
      if peers[p].role == Host {
        End(r, reason);
      } else {
        rooms := rooms[r := rooms[r].(peers := rooms[r].peers - {p})];
        peers := peers - {p};
        OneTold(channels, p, reason);
        Tell(p, reason);
        Broadcast(r, now);
      }
    }

    // ---------------------------------------------------------------- sweep

    // Both loops delete from the map they range over; a key deleted before its turn is not visited.
    method SweepAll(now: Time)
      requires Valid(Model())
      modifies this
      ensures Model() == Swept(old(Model()), now) && Valid(Model())
    {
      SweepRooms(now);
      SweepPeers(now);
      SweptByPhases(old(Model()), now);
    }

    method SweepRooms(now: Time)
      requires Valid(Model())
      modifies this
      ensures Model() == RoomPhase(old(Model()), old(rooms).Keys, now) && Valid(Model())
    {
      hide Valid, RoomPhase, EndRoom;
      ghost var s := Model();
      var todo := rooms.Keys;
      ghost var visited := {};
      PhasesStart(s, now);
      while todo * rooms.Keys != {}
        invariant visited + todo == s.rooms.Keys && visited !! todo
        invariant Model() == RoomPhase(s, visited, now) && Valid(Model())
        decreases todo
      {
        var r :| r in todo * rooms.Keys;
        RoomPhaseNext(s, visited, r, now);
        EndReady(Model(), r);
        if rooms[r].idle <= now {
          End(r, IdleTimeout);
        } else if !rooms[r].online && rooms[r].pending <= now {
          End(r, HostAbsent);
        }
        visited := visited + {r};
        todo := todo - {r};
      }
      if todo != {} {
        ghost var r :| r in todo;
        Unvisited(s, visited, r, now);
        assert false;
      }
      assert visited == s.rooms.Keys;
    }

    method SweepPeers(now: Time)
      requires Valid(Model())
      modifies this
      ensures Model() == PeerPhase(old(Model()), old(peers).Keys, now) && Valid(Model())
    {
      hide Valid, PeerPhaseRooms, PeerPhasePeers, PeerPhaseChannels, Remove, Total;
      ghost var s := Model();
      var todo := peers.Keys;
      ghost var visited := {};
      PhasesStart(s, now);
      while todo * peers.Keys != {}
        invariant visited + todo == s.peers.Keys && visited !! todo
        invariant Model() == PeerPhase(s, visited, now) && Valid(Model())
        decreases todo
      {
        var p :| p in todo * peers.Keys;
        PeerPhaseNext(s, visited, p, now);
        SamePeer(s, visited, p, now);
        if peers[p].expires <= now {
          DetachPeer(p, TokenExpired, now);
        }
        visited := visited + {p};
        todo := todo - {p};
      }
      PeerPhaseAllGone(s, visited, todo, now);
    }

    // ---------------------------------------------------------------- admission

    method FindLive(r: RoomId, now: Time) returns (found: Outcome<Room>)
      requires Valid(Model())
      modifies this
      ensures Live(old(Model()), r, now) == Reply(Model(), found)
      ensures Valid(Model())
      ensures found.Ok? ==> r in rooms && found.value == rooms[r] && Model() == Swept(old(Model()), now)
    {
      hide Valid, Swept;
      if !ResourceId.Valid(r, "lsh") { return Err(Invalid); }
      SweepAll(now);
      if closed || r !in rooms { return Err(Ended); }
      return Ok(rooms[r]);
    }

    method Grants(r: RoomId, actor: string, role: Role, token: string, now: Time) returns (a: Admission)
      requires r in rooms
      modifies this`rooms
      ensures Issue(old(Model()), r, actor, role, token, now) == Reply(Model(), Ok(a))
    {
      var room := rooms[r];
      rooms := rooms[r := room.(grants := room.grants[actor := Grant(actor, role, token, now + TOKEN_TTL)])];
      a := Admission(r, token, "", role, now + TOKEN_TTL, room.idle, now);
    }

    method CountRooms(actor: string) returns (count: nat)
      ensures count == |RoomsOf(rooms, actor)|
    {
      var todo := rooms.Keys;
      ghost var all := RoomsOf(rooms, actor);
      count := 0;
      assert all - todo == {};
      while todo != {}
        invariant todo <= rooms.Keys && count == |all - todo|
        decreases todo
      {
        var r :| r in todo;
        CountStep(rooms, actor, todo, r);
        if rooms[r].host == actor {
          count := count + 1;
        }
        todo := todo - {r};
      }
      assert all - todo == all;
    }

    // The host has ten seconds to connect; `id`, `invite` and `token` are fresh random values.
    method Create(actor: string, id: RoomId, invite: string, token: string, now: Time) returns (r: Outcome<Admission>)
      requires Valid(Model()) && id !in rooms
      modifies this
      ensures RelayState.Create(old(Model()), actor, id, invite, token, now) == Reply(Model(), r)
      ensures Valid(Model())
    {
      hide Valid, Swept;
      CreateKeepsValid(Model(), actor, id, invite, token, now);
      if !ResourceId.Valid(actor, "usr") { return Err(Denied); }
      SweepAll(now);
      if closed { return Err(Ended); }
      if |rooms| >= MAX_ROOMS { return Err(Budget); }
      var count := CountRooms(actor);
      if count >= MAX_ROOMS_PER_HOST { return Err(Budget); }
      rooms := rooms[id := NewRoom(id, actor, invite, token, now)];
      return Ok(Admission(id, token, invite, Host, now + TOKEN_TTL, now + IDLE_TIMEOUT, now));
    }

    method Join(r: RoomId, actor: string, invite: string, token: string, now: Time) returns (a: Outcome<Admission>)
      requires Valid(Model()) && Unissued(Model(), token)
      modifies this
      ensures RelayState.Join(old(Model()), r, actor, invite, token, now) == Reply(Model(), a)
      ensures Valid(Model())
    {
      hide Valid, Live, Swept, Issue, Unissued;
      JoinKeepsValid(Model(), r, actor, invite, token, now);
      var found := FindLive(r, now);
      if found.Err? { return Err(found.error); }
      var room := found.value;
      if !ResourceId.Valid(actor, "usr") || |invite| != 64 || invite != room.invite { return Err(Denied); }
      if !room.online { return Err(Ended); }
      if actor == room.host {
        var admission := Grants(r, actor, Host, token, now);
        return Ok(admission);
      }
      if |room.grants| >= MAX_GRANTS && actor !in room.grants { return Err(Budget); }
      var admission := Grants(r, actor, Viewer, token, now);
      return Ok(admission);
    }

    method Renew(r: RoomId, actor: string, token: string, now: Time) returns (a: Outcome<Admission>)
      requires Valid(Model()) && Unissued(Model(), token)
      modifies this
      ensures RelayState.Renew(old(Model()), r, actor, token, now) == Reply(Model(), a)
      ensures Valid(Model())
    {
      hide Valid, Live, Swept, Issue, Unissued;
      RenewKeepsValid(Model(), r, actor, token, now);
      var found := FindLive(r, now);
      if found.Err? { return Err(found.error); }
      if actor !in found.value.grants { return Err(Denied); }
      var admission := Grants(r, actor, found.value.grants[actor].role, token, now);
      return Ok(admission);
    }

    method Revoke(r: RoomId, actor: string, now: Time) returns (a: Outcome<()>)
      requires Valid(Model())
      modifies this
      ensures RelayState.Revoke(old(Model()), r, actor, now) == Reply(Model(), a)
      ensures Valid(Model())
    {
      hide Valid, Live, Swept, EndRoom;
      RevokeKeepsValid(Model(), r, actor, now);
      var found := FindLive(r, now);
      if found.Err? { return Err(found.error); }
      if found.value.host != actor { return Err(Denied); }
      EndReady(Model(), r);
      End(r, HostRevoked);
      return Ok(());
    }

    // ---------------------------------------------------------------- sockets

    method FindGrant(room: Room, token: string, now: Time) returns (g: Option<Grant>)
      requires GrantsValid(room.host, room.grants)
      ensures g == Admitted(room, token, now)
    {
      AdmittedIsGrant(room, token, now);
      if |token| != 64 { return None; }
      var todo := room.grants.Keys;
      while todo != {}
        invariant todo <= room.grants.Keys
        invariant forall a :: Admits(room, token, now, a) ==> a in todo
        decreases todo
      {
        var a :| a in todo;
        if room.grants[a].token == token && now < room.grants[a].expires {
          assert Admits(room, token, now, a);
          return Some(room.grants[a]);
        }
        todo := todo - {a};
      }
      return None;
    }

    method Attach(r: RoomId, token: string, id: PeerId, now: Time) returns (a: Outcome<Subscription>)
      requires Valid(Model()) && id !in peers
      modifies this
      ensures RelayState.Attach(old(Model()), r, token, id, now) == Reply(Model(), a)
      ensures Valid(Model())
    {
      hide Valid, Live, Swept, Admitted, Subscribed;
      AttachKeepsValid(Model(), r, token, id, now);
      var found := FindLive(r, now);
      if found.Err? { return Err(found.error); }
      var room := found.value;
      RoomOf(Model(), r);
      EndReady(Model(), r);
      var grant := FindGrant(room, token, now);
      if grant == None { return Err(Denied); }
      var g := grant.value;
      if |peers| >= MAX_CONNECTIONS || |room.peers| >= MAX_PEERS { return Err(Budget); }
      if (g.role == Host && room.online) || (g.role == Viewer && !room.online) { return Err(Denied); }
      Seat(r, g, id, now);
      return Ok(Subscription(id, g.role));
    }

    method Seat(r: RoomId, g: Grant, id: PeerId, now: Time)
      requires r in rooms && rooms[r].peers <= peers.Keys <= channels.Keys
      modifies this
      ensures Model() == Subscribed(old(Model()), r, g, id, now)
    {
      hide Announce;
      rooms := rooms[r := rooms[r].(peers := rooms[r].peers + {id}, online := rooms[r].online || g.role == Host)];
      peers := peers[id := Peer(id, r, g.actor, g.role, g.expires)];
      channels := channels[id := Channels(None, None, [])];
      Broadcast(r, now);
    }

    method Reauthenticate(p: PeerId, token: string, now: Time) returns (a: Outcome<()>)
      requires Valid(Model())
      modifies this
      ensures RelayState.Reauthenticate(old(Model()), p, token, now) == Reply(Model(), a)
      ensures Valid(Model())
    {
      hide Valid, Swept, Admitted;
      ReauthenticateKeepsValid(Model(), p, token, now);
      SweepAll(now);
      if p !in peers { return Err(Ended); }
      SeatOf(Model(), p);
      var peer := peers[p];
      RoomOf(Model(), peer.room);
      var grant := FindGrant(rooms[peer.room], token, now);
      if grant == None || grant.value.actor != peer.actor || grant.value.role != peer.role { return Err(Denied); }
      peers := peers[p := peer.(expires := grant.value.expires)];
      return Ok(());
    }

    method Publish(p: PeerId, source: Bytes, wellFormed: bool, now: Time) returns (a: Outcome<()>)
      requires Valid(Model())
      modifies this
      ensures RelayState.Publish(old(Model()), p, source, wellFormed, now) == Reply(Model(), a)
      ensures Valid(Model())
    {
      hide Valid, Swept, Announce;
      PublishKeepsValid(Model(), p, source, wellFormed, now);
      if |source| == 0 || |source| > MAX_SNAPSHOT_BYTES || !wellFormed { return Err(Invalid); }
      SweepAll(now);
      if p !in peers { return Err(Ended); }
      SeatOf(Model(), p);
      if peers[p].role != Host { return Err(Denied); }
      var r := peers[p].room;
      EndReady(Model(), r);
      if bytes - |rooms[r].snapshot| + |source| > MAX_STORED_BYTES { return Err(Budget); }
      bytes := bytes + (|source| - |rooms[r].snapshot|);
      rooms := rooms[r := rooms[r].(snapshot := source, revision := (rooms[r].revision + 1) % TWO_TO_THE_64,
                                    idle := now + IDLE_TIMEOUT)];
      Broadcast(r, now);
      return Ok(());
    }

    method Activity(p: PeerId, kind: string, now: Time) returns (a: Outcome<()>)
      requires Valid(Model())
      modifies this
      ensures RelayState.Activity(old(Model()), p, kind, now) == Reply(Model(), a)
      ensures Valid(Model())
    {
      hide Valid, Swept, Announce;
      ActivityKeepsValid(Model(), p, kind, now);
      if kind !in ACTIVITIES { return Err(Invalid); }
      SweepAll(now);
      if p !in peers { return Err(Ended); }
      SeatOf(Model(), p);
      var r := peers[p].room;
      EndReady(Model(), r);
      rooms := rooms[r := rooms[r].(idle := now + IDLE_TIMEOUT)];
      Broadcast(r, now);
      return Ok(());
    }

    method ShowPresence(p: PeerId, value: Bytes, wellFormed: bool, now: Time) returns (a: Outcome<()>)
      requires Valid(Model())
      modifies this
      ensures RelayState.ShowPresence(old(Model()), p, value, wellFormed, now) == Reply(Model(), a)
      ensures Valid(Model())
    {
      hide Valid, Swept, Announced;
      PresenceKeepsValid(Model(), p, value, wellFormed, now);
      if |value| > 2048 || !wellFormed { return Err(Invalid); }
      SweepAll(now);
      if p !in peers { return Err(Ended); }
      SeatOf(Model(), p);
      EndReady(Model(), peers[p].room);
      TellOthers(p, value, now);
      return Ok(());
    }

    method TellOthers(p: PeerId, value: Bytes, now: Time)
      requires p in peers && peers[p].room in rooms && rooms[peers[p].room].peers <= channels.Keys
      modifies this`channels
      ensures Model() == Announced(old(Model()), p, value, now)
    {
      var room := rooms[peers[p].room];
      var todo := room.peers;
      while todo != {}
        invariant todo <= room.peers && channels.Keys == old(channels).Keys
        invariant forall q :: q in channels ==>
          channels[q] == if q in room.peers && q !in todo && q != p && old(channels)[q].events == None
                         then old(channels)[q].(events := Some(Presence(p, value, now, room.idle)))
                         else old(channels)[q]
        decreases todo
      {
        var q :| q in todo;
        if q != p && channels[q].events == None {
          SendEvent(q, Presence(p, value, now, room.idle));
        }
        todo := todo - {q};
      }
      assert channels == Announced(old(Model()), p, value, now).channels;
    }

    method Detach(p: PeerId, now: Time)
      requires Valid(Model())
      modifies this
      ensures Model() == RelayState.Detach(old(Model()), p, now)
      ensures Valid(Model())
    {
      hide Valid, Remove;
      if p in peers {
        DetachPeer(p, HostDisconnected, now);
      }
    }

    method Close()
      requires Valid(Model())
      modifies this
      ensures Model() == RelayState.Close(old(Model()))
      ensures Valid(Model())
    {
      hide Valid, TerminateAll, EndRoom;
      CloseKeepsValid(Model());
      ghost var s := Model();
      closed := true;
      Reopened(s);
      NoneTold(channels, RelayStopped);
      while rooms != map[]
        invariant closed && peers.Keys <= s.peers.Keys
        invariant Valid(Model().(closed := false))
        invariant channels == TerminateAll(s.channels, s.peers.Keys - peers.Keys, RelayStopped)
        decreases |rooms|
      {
        var r :| r in rooms;
        EndReady(Model().(closed := false), r);
        EndRoomKeepsValid(Model().(closed := false), r, RelayStopped);
        ToldTwice(s, Model(), r);
        ClosingEnd(Model(), r);
        End(r, RelayStopped);
      }
      NoRooms(Model().(closed := false));
      assert s.peers.Keys - peers.Keys == s.peers.Keys;
    }
  }

  lemma Reopened(s: State)
    requires Valid(s)
    ensures Valid(s.(closed := false))
    ensures s.peers.Keys - s.peers.Keys == {}
  {
    hide Linked, Staffed, RoomsValid, PeersValid, Mailboxes, Total;
  }

  lemma ClosingEnd(s: State, r: RoomId)
    requires r in s.rooms
    ensures EndRoom(s, r, RelayStopped).closed == s.closed && |EndRoom(s, r, RelayStopped).rooms| < |s.rooms|
    ensures EndRoom(s.(closed := false), r, RelayStopped) == EndRoom(s, r, RelayStopped).(closed := false)
  {
    assert (s.rooms - {r}).Keys == s.rooms.Keys - {r};
    assert |s.rooms - {r}| == |(s.rooms - {r}).Keys| && |s.rooms| == |s.rooms.Keys|;
  }

  // Ending one more room tells exactly the peers that leave the index.
  lemma ToldTwice(s: State, t: State, r: RoomId)
    requires t.peers.Keys <= s.peers.Keys && r in t.rooms && t.rooms[r].peers <= t.peers.Keys
    requires t.channels == TerminateAll(s.channels, s.peers.Keys - t.peers.Keys, RelayStopped)
    ensures EndRoom(t, r, RelayStopped).peers.Keys <= s.peers.Keys
    ensures EndRoom(t, r, RelayStopped).channels ==
            TerminateAll(s.channels, s.peers.Keys - EndRoom(t, r, RelayStopped).peers.Keys, RelayStopped)
  {
    var gone := t.rooms[r].peers;
    assert s.peers.Keys - (t.peers - gone).Keys == (s.peers.Keys - t.peers.Keys) + gone;
    assert gone !! (s.peers.Keys - t.peers.Keys);
  }

  lemma NoRooms(s: State)
    requires Valid(s) && s.rooms == map[]
    ensures s.peers == map[] && s.bytes == 0
  {
    hide Staffed, RoomsValid, PeersValid, Mailboxes, Total;
    NothingIsValid();
    assert s.peers.Keys == {};
  }

  lemma EmptyIsValid()
    ensures Valid(EMPTY)
  {
    hide Linked, Staffed, RoomsValid, PeersValid, Total;
    NothingIsValid();
  }

  lemma EndReady(s: State, r: RoomId)
    requires Valid(s) && r in s.rooms
    ensures s.rooms[r].peers <= s.peers.Keys <= s.channels.Keys
    ensures forall p :: p in s.peers ==> s.channels[p].ended == None
  {
    hide Staffed, RoomsValid, PeersValid, Total;
  }

  lemma NoneTold(mail: Mail, reason: Reason)
    ensures TerminateAll(mail, {}, reason) == mail
  {
  }

  lemma OneTold(mail: Mail, p: PeerId, reason: Reason)
    requires p in mail
    ensures TerminateAll(mail, {p}, reason) == mail[p := Terminate(mail[p], reason)]
  {
  }

  lemma OneMoreTold(mail: Mail, told: set<PeerId>, p: PeerId, reason: Reason)
    requires p in mail && p !in told
    ensures TerminateAll(mail, told, reason).Keys == mail.Keys
    ensures TerminateAll(mail, told, reason)[p] == mail[p]
    ensures TerminateAll(mail, told + {p}, reason) == TerminateAll(mail, told, reason)[p := Terminate(mail[p], reason)]
  {
  }

  lemma CountStep(rooms: Rooms, actor: string, todo: set<RoomId>, r: RoomId)
    requires r in todo && r in rooms
    ensures |RoomsOf(rooms, actor) - (todo - {r})| == |RoomsOf(rooms, actor) - todo| + if rooms[r].host == actor then 1 else 0
  {
    var all := RoomsOf(rooms, actor);
    assert all - (todo - {r}) == (all - todo) + if rooms[r].host == actor then {r} else {};
  }

  lemma SamePeer(s: State, visited: set<PeerId>, p: PeerId, now: Time)
    requires p in PeerPhasePeers(s, visited, now)
    ensures PeerPhasePeers(s, visited, now)[p] == s.peers[p]
  {
  }
}
