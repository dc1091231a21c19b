/** What the relay answers, over the state it is asked in: exactly when each operation succeeds, which
    error comes otherwise, and what a success does. Nothing here speaks of the sweep but its effect. */
module RelayAnswers {
  import opened Wrappers
  import opened RelayState
  import opened RelayInvariant
  import ResourceId

  // ---------------------------------------------------------------- who is there at a time

  // The room has not reached its deadlines, and no host socket of it has.
  ghost predicate Up(s: State, r: RoomId, now: Time) {
    && r in s.rooms && now < s.rooms[r].idle && (s.rooms[r].online || now < s.rooms[r].pending)
    && (forall p :: p in s.rooms[r].peers && p in s.peers && s.peers[p].role == Host ==> now < s.peers[p].expires)
  }

  ghost predicate On(s: State, p: PeerId, now: Time) {
    p in s.peers && Up(s, s.peers[p].room, now) && now < s.peers[p].expires
  }

  ghost function UpRooms(s: State, now: Time): Rooms {
    map r | r in s.rooms && Up(s, r, now) :: s.rooms[r]
  }

  ghost function OnPeers(s: State, now: Time): set<PeerId> {
    set p | p in s.peers && On(s, p, now)
  }

  lemma SweptUp(s: State, now: Time)
    requires Valid(s)
    ensures forall r :: r in Swept(s, now).rooms <==> Up(s, r, now)
    ensures forall p :: p in Swept(s, now).peers <==> On(s, p, now)
    ensures forall r :: Up(s, r, now) ==> Swept(s, now).rooms[r] == s.rooms[r].(peers := s.rooms[r].peers * OnPeers(s, now))
    ensures forall r :: Up(s, r, now) ==> r in s.rooms
    ensures forall p :: On(s, p, now) ==> p in s.peers && Swept(s, now).peers[p] == s.peers[p] && Up(s, s.peers[p].room, now)
    ensures Swept(s, now).closed == s.closed && (s.closed ==> s.rooms == map[])
  {
    hide Linked, Staffed, RoomsValid, PeersValid, Mailboxes, Total, SweptRooms, SweptChannel;
    SweepIsExact(s, now);
    assert OnPeers(s, now) == Swept(s, now).peers.Keys;
  }

  lemma SweptCounts(s: State, now: Time)
    requires Valid(s)
    ensures Swept(s, now).rooms.Keys == UpRooms(s, now).Keys && |Swept(s, now).rooms| == |UpRooms(s, now)|
    ensures forall actor :: RoomsOf(Swept(s, now).rooms, actor) == RoomsOf(UpRooms(s, now), actor)
    ensures Swept(s, now).peers.Keys == OnPeers(s, now) && |Swept(s, now).peers| == |OnPeers(s, now)|
    ensures Swept(s, now).bytes == Total(UpRooms(s, now))
  {
    hide Valid, Swept, Up, On, Total;
    SweptUp(s, now);
    SweptBytes(s, now);
    TotalSame(Swept(s, now).rooms, UpRooms(s, now));
    assert |Swept(s, now).rooms.Keys| == |Swept(s, now).rooms| && |UpRooms(s, now).Keys| == |UpRooms(s, now)|;
    assert |Swept(s, now).peers.Keys| == |Swept(s, now).peers|;
  }

  lemma SweptBytes(s: State, now: Time)
    ensures Swept(s, now).bytes == Total(Swept(s, now).rooms)
  {
  }

  // ---------------------------------------------------------------- asked by room

  // A room is created exactly for a signed-in user, while the relay is open, has fewer than 100 rooms
  // and the user fewer than two.
  lemma CreateAnswers(s: State, actor: string, id: RoomId, invite: string, token: string, now: Time)
    requires Valid(s) && id !in s.rooms
    ensures var reply := Create(s, actor, id, invite, token, now);
      && (reply.outcome.Ok? <==>
            ResourceId.Valid(actor, "usr") && !s.closed && |UpRooms(s, now)| < 100 && |RoomsOf(UpRooms(s, now), actor)| < 2)
      && (reply.outcome == Err(Denied) <==> !ResourceId.Valid(actor, "usr"))
      && (reply.outcome == Err(Ended) <==> ResourceId.Valid(actor, "usr") && s.closed)
      && (reply.outcome.Ok? ==>
            && id in reply.state.rooms && reply.state.rooms.Keys == UpRooms(s, now).Keys + {id}
            && var room := reply.state.rooms[id];
               room.host == actor && room.invite == invite && !room.online && room.snapshot == [] && room.peers == {} && room.revision == 0 &&
               room.grants == map[actor := Grant(actor, Host, token, now + 300 * SECOND)] &&
               room.idle == now + 1800 * SECOND && room.pending == now + 10 * SECOND &&
               reply.outcome.value.token == token && reply.outcome.value.invite == invite && reply.outcome.value.id == id)
  {
    hide Valid, Swept, ResourceId.Valid, Up, On, Total;
    SweptUp(s, now);
    SweptCounts(s, now);
  }

  // A grant is issued exactly for the right invite to a room that is up and online, to its host, to an
  // actor who has a grant, or while there are fewer than 25: to the host as host, to others as viewers.
  lemma JoinAnswers(s: State, r: RoomId, actor: string, invite: string, token: string, now: Time)
    requires Valid(s)
    ensures var reply := Join(s, r, actor, invite, token, now);
      && (reply.outcome.Ok? <==>
            && ResourceId.Valid(r, "lsh") && Up(s, r, now)
            && ResourceId.Valid(actor, "usr") && |invite| == 64 && invite == s.rooms[r].invite && s.rooms[r].online
            && (actor == s.rooms[r].host || actor in s.rooms[r].grants || |s.rooms[r].grants| < 25))
      && (reply.outcome == Err(Invalid) <==> !ResourceId.Valid(r, "lsh"))
      && (reply.outcome == Err(Denied) <==>
            ResourceId.Valid(r, "lsh") && Up(s, r, now) &&
            (!ResourceId.Valid(actor, "usr") || |invite| != 64 || invite != s.rooms[r].invite))
      && (reply.outcome == Err(Budget) <==>
            && ResourceId.Valid(r, "lsh") && Up(s, r, now) && ResourceId.Valid(actor, "usr") && |invite| == 64
            && invite == s.rooms[r].invite && s.rooms[r].online && actor != s.rooms[r].host
            && actor !in s.rooms[r].grants && |s.rooms[r].grants| >= 25)
      && (reply.outcome.Ok? ==>
            Issued(s, reply, r, actor, if actor == s.rooms[r].host then Host else Viewer, token, now))
  {
    hide Valid, Swept, ResourceId.Valid, Up, On;
    SweptUp(s, now);
  }

  // The actor's grant is this one, everybody else's and every other room are as they were.
  ghost predicate Issued(s: State, reply: Reply<Admission>, r: RoomId, actor: string, role: Role, token: string, now: Time) {
    && r in s.rooms && r in reply.state.rooms
    && reply.state.rooms[r].grants == s.rooms[r].grants[actor := Grant(actor, role, token, now + 300 * SECOND)]
    && (forall q :: q in reply.state.rooms <==> Up(s, q, now))
    && (forall q :: q in reply.state.rooms && q != r ==> q in s.rooms && reply.state.rooms[q].grants == s.rooms[q].grants)
    && reply.outcome == Ok(Admission(r, token, "", role, now + 300 * SECOND, s.rooms[r].idle, now))
  }

  // A grant is renewed exactly if there is one, in its role.
  lemma RenewAnswers(s: State, r: RoomId, actor: string, token: string, now: Time)
    requires Valid(s)
    ensures var reply := Renew(s, r, actor, token, now);
      && (reply.outcome.Ok? <==> ResourceId.Valid(r, "lsh") && Up(s, r, now) && actor in s.rooms[r].grants)
      && (reply.outcome == Err(Invalid) <==> !ResourceId.Valid(r, "lsh"))
      && (reply.outcome == Err(Ended) <==> ResourceId.Valid(r, "lsh") && !Up(s, r, now))
      && (reply.outcome.Err? ==> reply.outcome.error != Budget)
      && (reply.outcome.Ok? ==> Issued(s, reply, r, actor, s.rooms[r].grants[actor].role, token, now))
  {
    hide Valid, Swept, ResourceId.Valid, Up, On;
    SweptUp(s, now);
  }

  // Exactly the host ends its room.
  lemma RevokeAnswers(s: State, r: RoomId, actor: string, now: Time)
    requires Valid(s)
    ensures var reply := Revoke(s, r, actor, now);
      && (reply.outcome.Ok? <==> ResourceId.Valid(r, "lsh") && Up(s, r, now) && actor == s.rooms[r].host)
      && (reply.outcome == Err(Denied) <==> ResourceId.Valid(r, "lsh") && Up(s, r, now) && actor != s.rooms[r].host)
      && (reply.outcome == Err(Ended) <==> ResourceId.Valid(r, "lsh") && !Up(s, r, now))
      && (reply.outcome.Err? ==> reply.outcome.error != Budget)
      && (if ResourceId.Valid(r, "lsh")
          then forall q :: q in reply.state.rooms <==> Up(s, q, now) && !(reply.outcome.Ok? && q == r)
          else reply.state == s)
  {
    hide Valid, Swept, ResourceId.Valid, Up, On;
    SweptUp(s, now);
  }

  // The grant a token is good for.
  predicate Opens(g: Grant, token: string, now: Time) {
    |token| == 64 && g.token == token && now < g.expires
  }

  lemma AdmittedExactly(s: State, r: RoomId, token: string, now: Time)
    requires Valid(s) && Up(s, r, now)
    ensures var room := s.rooms[r];
      (forall a :: a in room.grants && Opens(room.grants[a], token, now) ==> Admitted(Swept(s, now).rooms[r], token, now) == Some(room.grants[a])) &&
      (Admitted(Swept(s, now).rooms[r], token, now).Some? ==>
         exists a :: a in room.grants && Opens(room.grants[a], token, now) && room.grants[a] == Admitted(Swept(s, now).rooms[r], token, now).value)
  {
    hide Linked, Staffed, PeersValid, Mailboxes, Total, Swept, Up, On, Admitted;
    SweptUp(s, now);
    var room := Swept(s, now).rooms[r];
    AdmittedIsGrant(room, token, now);
    forall a | a in room.grants && Opens(room.grants[a], token, now) ensures Admitted(room, token, now) == Some(room.grants[a]) {
      assert Admits(room, token, now, a);
    }
  }

  // The token opens the room for this grant.
  predicate Holder(s: State, r: RoomId, token: string, now: Time, a: string) {
    r in s.rooms && a in s.rooms[r].grants && Opens(s.rooms[r].grants[a], token, now)
  }

  predicate HolderIn(s: State, r: RoomId, token: string, now: Time, a: string) {
    Holder(s, r, token, now, a) && (s.rooms[r].grants[a].role == Host <==> !s.rooms[r].online)
  }

  lemma HolderAdmitted(s: State, r: RoomId, token: string, now: Time)
    requires Valid(s) && Up(s, r, now) && r in Swept(s, now).rooms && r in s.rooms
    ensures var g := Admitted(Swept(s, now).rooms[r], token, now);
      && ((exists a :: Holder(s, r, token, now, a)) <==> g.Some?)
      && ((exists a :: HolderIn(s, r, token, now, a)) <==> g.Some? && (g.value.role == Host <==> !s.rooms[r].online))
  {
    hide Valid, Swept, Up, Admitted, Opens;
    AdmittedExactly(s, r, token, now);
    var g := Admitted(Swept(s, now).rooms[r], token, now);
    if g.Some? {
      var a :| a in s.rooms[r].grants && Opens(s.rooms[r].grants[a], token, now) && s.rooms[r].grants[a] == g.value;
      assert Holder(s, r, token, now, a);
      if g.value.role == Host <==> !s.rooms[r].online { assert HolderIn(s, r, token, now, a); }
    }
  }

  // A socket is attached exactly with an unexpired token of the room, while there are fewer than 25
  // sockets and five in the room: a host's while the room is offline, a viewer's while it is online.
  lemma AttachAnswers(s: State, r: RoomId, token: string, id: PeerId, now: Time)
    requires Valid(s)
    ensures var reply := Attach(s, r, token, id, now);
      && (reply.outcome.Ok? <==>
            && ResourceId.Valid(r, "lsh") && Up(s, r, now) && |OnPeers(s, now)| < 25 && |s.rooms[r].peers * OnPeers(s, now)| < 5
            && exists a :: HolderIn(s, r, token, now, a))
      && (reply.outcome == Err(Ended) <==> ResourceId.Valid(r, "lsh") && !Up(s, r, now))
      && (reply.outcome == Err(Budget) <==>
            ResourceId.Valid(r, "lsh") && Up(s, r, now) && (exists a :: Holder(s, r, token, now, a)) &&
            (|OnPeers(s, now)| >= 25 || |s.rooms[r].peers * OnPeers(s, now)| >= 5))
  {
    hide Valid, Swept, ResourceId.Valid, Up, On, Holder, HolderIn, Admitted, Subscribed, UpRooms, OnPeers, Total, RoomsOf;
    SweptUp(s, now);
    SweptCounts(s, now);
    if Up(s, r, now) { HolderAdmitted(s, r, token, now); }
  }

  // The socket is in both indexes for the grant's actor and role until the grant expires.
  ghost predicate Attached(s: State, reply: Reply<Subscription>, r: RoomId, id: PeerId, g: Grant, now: Time) {
    && r in s.rooms && r in reply.state.rooms
    && reply.outcome == Ok(Subscription(id, g.role))
    && reply.state.peers.Keys == OnPeers(s, now) + {id} && reply.state.peers[id] == Peer(id, r, g.actor, g.role, g.expires)
    && (forall p :: On(s, p, now) ==> p in reply.state.peers && p in s.peers && reply.state.peers[p] == s.peers[p])
    && reply.state.rooms[r].peers == s.rooms[r].peers * OnPeers(s, now) + {id} && reply.state.rooms[r].online
  }

  lemma SubscribedSeats(t: State, r: RoomId, g: Grant, id: PeerId, now: Time)
    requires r in t.rooms
    ensures var u := Subscribed(t, r, g, id, now);
      && u.rooms.Keys == t.rooms.Keys && u.peers == t.peers[id := Peer(id, r, g.actor, g.role, g.expires)]
      && u.rooms[r].peers == t.rooms[r].peers + {id} && u.rooms[r].online == (t.rooms[r].online || g.role == Host)
  {
    hide Announce;
  }

  lemma AttachIs(s: State, r: RoomId, token: string, id: PeerId, now: Time, a: string)
    requires Valid(s) && Attach(s, r, token, id, now).outcome.Ok? && Holder(s, r, token, now, a)
    ensures Up(s, r, now) && r in Swept(s, now).rooms && var g := s.rooms[r].grants[a];
      Attach(s, r, token, id, now) == Reply(Subscribed(Swept(s, now), r, g, id, now), Ok(Subscription(id, g.role))) &&
      (Swept(s, now).rooms[r].online || g.role == Host)
  {
    hide Valid, Swept, ResourceId.Valid, Up, On, Opens, Admitted, Subscribed;
    SweptUp(s, now);
    AdmittedExactly(s, r, token, now);
  }

  // The new socket has its grant's actor, role and deadline; a host's brings the room online.
  lemma AttachSeats(s: State, r: RoomId, token: string, id: PeerId, now: Time, a: string)
    requires Valid(s) && id !in s.channels && Attach(s, r, token, id, now).outcome.Ok? && Holder(s, r, token, now, a)
    ensures Attached(s, Attach(s, r, token, id, now), r, id, s.rooms[r].grants[a], now)
  {
    hide Valid, Swept, Up, On, Opens, Attach, Subscribed, OnPeers, Holder, Attached;
    HolderHolds(s, r, token, now, a);
    NotOn(s, id, now);
    AttachIs(s, r, token, id, now, a);
    SweptRoomPeers(s, r, now);
    SubscribedSeats(Swept(s, now), r, s.rooms[r].grants[a], id, now);
    SeatedSo(s, Swept(s, now), Subscribed(Swept(s, now), r, s.rooms[r].grants[a], id, now), r, id, s.rooms[r].grants[a], now);
  }

  lemma SweptRoomPeers(s: State, r: RoomId, now: Time)
    requires Valid(s) && r in Swept(s, now).rooms
    ensures r in s.rooms && Swept(s, now).rooms[r].peers == s.rooms[r].peers * OnPeers(s, now)
    ensures Swept(s, now).peers.Keys == OnPeers(s, now)
    ensures forall p :: On(s, p, now) ==> p in s.peers && p in Swept(s, now).peers && Swept(s, now).peers[p] == s.peers[p]
  {
    hide Valid, Swept, Up, On;
    SweptUp(s, now);
  }

  lemma SeatedSo(s: State, t: State, u: State, r: RoomId, id: PeerId, g: Grant, now: Time)
    requires r in s.rooms && r in t.rooms && r in u.rooms && (t.rooms[r].online || g.role == Host) && !On(s, id, now)
    requires t.rooms[r].peers == s.rooms[r].peers * OnPeers(s, now) && t.peers.Keys == OnPeers(s, now)
    requires forall p :: On(s, p, now) ==> p in s.peers && p in t.peers && t.peers[p] == s.peers[p]
    requires u.peers == t.peers[id := Peer(id, r, g.actor, g.role, g.expires)]
    requires u.rooms[r].peers == t.rooms[r].peers + {id} && u.rooms[r].online == (t.rooms[r].online || g.role == Host)
    ensures Attached(s, Reply(u, Ok(Subscription(id, g.role))), r, id, g, now)
  {
    hide On, OnPeers;
  }

  lemma HolderHolds(s: State, r: RoomId, token: string, now: Time, a: string)
    requires Holder(s, r, token, now, a)
    ensures r in s.rooms && a in s.rooms[r].grants
  {
  }

  lemma NotOn(s: State, id: PeerId, now: Time)
    requires Valid(s) && id !in s.channels
    ensures !On(s, id, now)
  {
    PeersOfRooms(s);
  }

  // ---------------------------------------------------------------- asked by socket

  // A socket's deadline moves exactly with an unexpired token of its own actor and role.
  lemma ReauthenticateAnswers(s: State, p: PeerId, token: string, now: Time)
    requires Valid(s)
    ensures var reply := Reauthenticate(s, p, token, now);
      && (reply.outcome.Ok? <==>
            On(s, p, now) && Holder(s, s.peers[p].room, token, now, s.peers[p].actor) &&
            s.rooms[s.peers[p].room].grants[s.peers[p].actor].role == s.peers[p].role)
      && (reply.outcome == Err(Ended) <==> !On(s, p, now))
      && (reply.outcome.Err? ==> reply.outcome.error in {Ended, Denied})
      && (reply.outcome.Ok? ==>
            p in s.peers && Holder(s, s.peers[p].room, token, now, s.peers[p].actor) && p in reply.state.peers &&
            reply.state.peers[p] == s.peers[p].(expires := s.rooms[s.peers[p].room].grants[s.peers[p].actor].expires))
  {
    hide Linked, Staffed, PeersValid, Mailboxes, Total, Swept, Up, On, Opens, Admitted;
    SweptUp(s, now);
    if On(s, p, now) {
      AdmittedExactly(s, s.peers[p].room, token, now);
      OwnGrants(s, s.peers[p].room);
    }
  }

  lemma OwnGrants(s: State, r: RoomId)
    requires Valid(s) && r in s.rooms
    ensures forall a :: a in s.rooms[r].grants ==> s.rooms[r].grants[a].actor == a
  {
    hide Linked, Staffed, PeersValid, Mailboxes, Total;
    assert RoomValid(r, s.rooms[r]);
  }

  // Exactly a host's socket publishes, well-formed JSON of 1 byte to 8 MiB, while 32 MiB are not exceeded.
  lemma PublishAnswers(s: State, p: PeerId, source: Bytes, wellFormed: bool, now: Time)
    requires Valid(s)
    ensures var reply := Publish(s, p, source, wellFormed, now);
      && (reply.outcome.Ok? <==>
            && 1 <= |source| <= 0x80_0000 && wellFormed && On(s, p, now) && s.peers[p].role == Host
            && Total(UpRooms(s, now)) - |s.rooms[s.peers[p].room].snapshot| + |source| <= 0x200_0000)
      && (reply.outcome == Err(Invalid) <==> !(1 <= |source| <= 0x80_0000 && wellFormed))
      && (reply.outcome == Err(Ended) <==> 1 <= |source| <= 0x80_0000 && wellFormed && !On(s, p, now))
      && (reply.outcome == Err(Denied) <==> 1 <= |source| <= 0x80_0000 && wellFormed && On(s, p, now) && s.peers[p].role == Viewer)
  {
    hide Valid, Swept, Up, On, Total, Published;
    SweptUp(s, now);
    SweptCounts(s, now);
  }

  // The room shows the source, one revision later, for half an hour; other rooms are as they were.
  ghost predicate Replaced(s: State, t: State, r: RoomId, source: Bytes, now: Time) {
    && r in s.rooms && r in t.rooms
    && t.rooms[r].snapshot == source && t.rooms[r].revision == (s.rooms[r].revision + 1) % TWO_TO_THE_64
    && t.rooms[r].idle == now + 1800 * SECOND
    && (forall q :: q in t.rooms <==> Up(s, q, now))
    && (forall q :: q in t.rooms && q != r ==> q in s.rooms && t.rooms[q].snapshot == s.rooms[q].snapshot && t.rooms[q].idle == s.rooms[q].idle)
  }

  // A publication replaces the room's source and leaves other rooms alone.
  lemma PublishReplaces(s: State, p: PeerId, source: Bytes, wellFormed: bool, now: Time)
    requires Valid(s) && Publish(s, p, source, wellFormed, now).outcome.Ok?
    ensures p in s.peers && Replaced(s, Publish(s, p, source, wellFormed, now).state, s.peers[p].room, source, now)
  {
    hide Valid, Swept, Up, On, Announce;
    SweptUp(s, now);
  }

  // Exactly the four kinds of interaction, by any socket, give the room another half hour.
  lemma ActivityAnswers(s: State, p: PeerId, kind: string, now: Time)
    requires Valid(s)
    ensures var reply := Activity(s, p, kind, now);
      && (reply.outcome.Ok? <==> kind in {"edit", "page", "pan_zoom", "keep_alive"} && On(s, p, now))
      && (reply.outcome == Err(Invalid) <==> kind !in {"edit", "page", "pan_zoom", "keep_alive"})
      && (reply.outcome.Err? ==> reply.outcome.error in {Invalid, Ended})
      && (reply.outcome.Ok? ==>
            p in s.peers && s.peers[p].room in s.rooms && s.peers[p].room in reply.state.rooms &&
            reply.state.rooms[s.peers[p].room].idle == now + 1800 * SECOND &&
            reply.state.rooms[s.peers[p].room].snapshot == s.rooms[s.peers[p].room].snapshot)
  {
    hide Valid, Swept, Up, On, Announce;
    SweptUp(s, now);
  }

  // Presence of at most 2048 bytes reaches every other socket of the room whose mailbox is free.
  lemma PresenceAnswers(s: State, p: PeerId, value: Bytes, wellFormed: bool, now: Time)
    requires Valid(s)
    ensures var reply := ShowPresence(s, p, value, wellFormed, now);
      && (reply.outcome.Ok? <==> |value| <= 2048 && wellFormed && On(s, p, now))
      && (reply.outcome == Err(Invalid) <==> |value| > 2048 || !wellFormed)
      && (reply.outcome.Err? ==> reply.outcome.error in {Invalid, Ended})
      && (reply.outcome.Ok? ==>
            && p in s.peers && s.peers[p].room in s.rooms
            && forall q :: On(s, q, now) && q != p && s.peers[q].room == s.peers[p].room ==>
                 q in reply.state.channels && q in Swept(s, now).channels &&
                 reply.state.channels[q].events ==
                 if Swept(s, now).channels[q].events.Some? then Swept(s, now).channels[q].events
                 else Some(Presence(p, value, now, s.rooms[s.peers[p].room].idle)))
  {
    hide Linked, Staffed, RoomsValid, PeersValid, Total, Swept, Up, On;
    SweptUp(s, now);
    SweptSockets(s, now);
    PeersOfRooms(s);
  }

  lemma SweptSockets(s: State, now: Time)
    ensures Swept(s, now).channels.Keys == s.channels.Keys
  {
    hide Total;
  }

  lemma PeersOfRooms(s: State)
    requires Valid(s)
    ensures forall p :: p in s.peers ==> s.peers[p].room in s.rooms && p in s.rooms[s.peers[p].room].peers
    ensures s.peers.Keys <= s.channels.Keys
  {
    hide Staffed, RoomsValid, PeersValid, Total;
  }

  // ---------------------------------------------------------------- refusals

  // Whoever is refused changes nothing but what is overdue.
  predicate Untouched<T>(reply: Reply<T>, s: State, swept: State) {
    reply.outcome.Err? ==> reply.state == s || reply.state == swept
  }

  lemma RefusedActors(s: State, r: RoomId, actor: string, secret: string, token: string, now: Time)
    ensures Untouched(Create(s, actor, r, secret, token, now), s, Swept(s, now))
    ensures Untouched(Join(s, r, actor, secret, token, now), s, Swept(s, now))
    ensures Untouched(Renew(s, r, actor, token, now), s, Swept(s, now))
    ensures Untouched(Revoke(s, r, actor, now), s, Swept(s, now))
  {
    hide Swept, ResourceId.Valid;
  }

  lemma RefusedSockets(s: State, r: RoomId, p: PeerId, token: string, now: Time)
    ensures Untouched(Attach(s, r, token, p, now), s, Swept(s, now))
    ensures Untouched(Reauthenticate(s, p, token, now), s, Swept(s, now))
  {
    hide Swept, ResourceId.Valid, Admitted, Subscribed;
  }

  lemma RefusedFrames(s: State, p: PeerId, data: Bytes, wellFormed: bool, kind: string, now: Time)
    ensures Untouched(Publish(s, p, data, wellFormed, now), s, Swept(s, now))
    ensures Untouched(Activity(s, p, kind, now), s, Swept(s, now))
    ensures Untouched(ShowPresence(s, p, data, wellFormed, now), s, Swept(s, now))
  {
    hide Swept, Published, Announced, Touched;
  }

  // ---------------------------------------------------------------- reasons

  lemma Unheard(s: State, p: PeerId)
    requires Valid(s) && p in s.peers
    ensures p in s.channels && s.channels[p].reasons == [] && s.peers[p].room in s.rooms && p in s.rooms[s.peers[p].room].peers
  {
    hide Staffed, RoomsValid, PeersValid, Total;
  }

  // A socket that a sweep removes is told its room's deadline, if that has passed, or else that a token
  // ran out: its own or its host's.
  lemma SweepTells(s: State, p: PeerId, now: Time)
    requires Valid(s) && p in s.peers && !On(s, p, now)
    ensures p in Swept(s, now).channels && s.peers[p].room in s.rooms
    ensures var room := s.rooms[s.peers[p].room];
      Swept(s, now).channels[p].reasons ==
      [if room.idle <= now then IdleTimeout else if !room.online && room.pending <= now then HostAbsent else TokenExpired]
  {
    hide Linked, Staffed, RoomsValid, PeersValid, Mailboxes, Total, SweptRooms, SweptPeers;
    Unheard(s, p);
    assert Fate(s, p, now);
  }

  ghost predicate Fate(s: State, p: PeerId, now: Time)
    requires p in s.peers && s.peers[p].room in s.rooms
  {
    PeerFate(s, p, now).Some?
  }

  // A revoked room tells everyone in it that its host revoked it.
  lemma RevokeTells(s: State, r: RoomId, actor: string, now: Time, p: PeerId)
    requires Valid(s) && Revoke(s, r, actor, now).outcome.Ok? && On(s, p, now) && s.peers[p].room == r
    ensures var t := Revoke(s, r, actor, now).state; p !in t.peers && p in t.channels && t.channels[p].reasons == [HostRevoked]
  {
    hide Valid, Swept, Up, On, ResourceId.Valid, Total;
    SweptUp(s, now);
    SweptKeepsValid(s, now);
    Unheard(Swept(s, now), p);
  }

  // A host that disconnects takes everyone in its room along, a viewer only itself; those are told so.
  lemma DetachTells(s: State, p: PeerId, now: Time, q: PeerId)
    requires Valid(s) && p in s.peers && q in s.peers
    ensures var t := Detach(s, p, now);
      if q == p || (s.peers[p].role == Host && s.peers[q].room == s.peers[p].room)
      then q !in t.peers && q in t.channels && t.channels[q].reasons == [HostDisconnected]
      else q in t.peers && t.peers[q] == s.peers[q] && q in t.channels && t.channels[q].reasons == []
  {
    hide Staffed, RoomsValid, PeersValid, Mailboxes, Total;
    Unheard(s, p);
    Unheard(s, q);
  }

  // Closing the relay tells everyone that it stopped, and leaves nothing.
  lemma CloseTells(s: State, p: PeerId)
    requires Valid(s) && p in s.peers
    ensures var t := Close(s);
      t.closed && t.rooms == map[] && t.peers == map[] && t.bytes == 0 && p in t.channels && t.channels[p].reasons == [RelayStopped]
  {
    hide Linked, Staffed, RoomsValid, PeersValid, Mailboxes, Total;
    Unheard(s, p);
  }
}
