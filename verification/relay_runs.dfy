/** Runs of the relay: any sequence of locked operations and reader steps under a clock that never
    goes back. What a run can never do to a room, a grant, a peer or a subscriber. */
module RelayRuns {
  import opened Wrappers
  import opened RelayState
  import opened RelayInvariant

  datatype Action =
    | DoCreate(actor: string, id: RoomId, invite: string, token: string)
    | DoJoin(room: RoomId, actor: string, invite: string, token: string)
    | DoRenew(room: RoomId, actor: string, token: string)
    | DoRevoke(room: RoomId, actor: string)
    | DoAttach(room: RoomId, token: string, peer: PeerId)
    | DoReauthenticate(peer: PeerId, token: string)
    | DoPublish(peer: PeerId, source: Bytes, wellFormed: bool)
    | DoActivity(peer: PeerId, kind: string)
    | DoPresence(peer: PeerId, value: Bytes, wellFormed: bool)
    | DoDetach(peer: PeerId)
    | DoSweep
    | DoClose
    | DoRead(peer: PeerId)       // the reader takes the event waiting for it, if any
    | DoReadEnded(peer: PeerId)  // the reader takes the termination reason, if any

  function Take(s: State, p: PeerId): State {
    if p in s.channels then s.(channels := s.channels[p := s.channels[p].(events := None)]) else s
  }

  function TakeEnded(s: State, p: PeerId): State {
    if p in s.channels then s.(channels := s.channels[p := s.channels[p].(ended := None)]) else s
  }

  ghost function Step(s: State, a: Action, now: Time): State {
    match a
    case DoCreate(actor, id, invite, token) => Create(s, actor, id, invite, token, now).state
    case DoJoin(r, actor, invite, token) => Join(s, r, actor, invite, token, now).state
    case DoRenew(r, actor, token) => Renew(s, r, actor, token, now).state
    case DoRevoke(r, actor) => Revoke(s, r, actor, now).state
    case DoAttach(r, token, p) => Attach(s, r, token, p, now).state
    case DoReauthenticate(p, token) => Reauthenticate(s, p, token, now).state
    case DoPublish(p, source, wellFormed) => Publish(s, p, source, wellFormed, now).state
    case DoActivity(p, kind) => Activity(s, p, kind, now).state
    case DoPresence(p, value, wellFormed) => ShowPresence(s, p, value, wellFormed, now).state
    case DoDetach(p) => Detach(s, p, now)
    case DoSweep => Swept(s, now)
    case DoClose => Close(s)
    case DoRead(p) => Take(s, p)
    case DoReadEnded(p) => TakeEnded(s, p)
  }

  // Random identifiers and tokens are new: `used` holds every room id ever handed out.
  ghost predicate Fresh(s: State, used: set<RoomId>, a: Action) {
    match a
    case DoCreate(_, id, _, _) => id !in used
    case DoJoin(_, _, _, token) => Unissued(s, token)
    case DoRenew(_, _, token) => Unissued(s, token)
    case DoAttach(_, _, p) => p !in s.channels
    case _ => true
  }

  // ---------------------------------------------------------------- the invariant over runs

  lemma TakeKeepsValid(s: State, p: PeerId)
    requires Valid(s)
    ensures Valid(Take(s, p)) && Valid(TakeEnded(s, p))
  {
    hide Linked, Staffed, RoomsValid, PeersValid, Total;
    MailKeepsValid(s, Take(s, p).channels);
    MailKeepsValid(s, TakeEnded(s, p).channels);
  }

  lemma AttachFresh(s: State, p: PeerId)
    requires Valid(s) && p !in s.channels
    ensures p !in s.peers
  {
    hide Linked, Staffed, RoomsValid, PeersValid, Total;
  }

  lemma StepKeepsValid(s: State, used: set<RoomId>, a: Action, now: Time)
    requires Valid(s) && s.rooms.Keys <= used && Fresh(s, used, a)
    ensures Valid(Step(s, a, now))
  {
    hide Valid, Create, Join, Renew, Revoke, Attach, Reauthenticate, Publish, Activity, ShowPresence, Detach, Close, Swept, Take, Unissued;
    hide TakeEnded;
    match a
    case DoCreate(actor, id, invite, token) => CreateKeepsValid(s, actor, id, invite, token, now);
    case DoJoin(r, actor, invite, token) => JoinKeepsValid(s, r, actor, invite, token, now);
    case DoRenew(r, actor, token) => RenewKeepsValid(s, r, actor, token, now);
    case DoRevoke(r, actor) => RevokeKeepsValid(s, r, actor, now);
    case DoAttach(r, token, p) => AttachFresh(s, p); AttachKeepsValid(s, r, token, p, now);
    case DoReauthenticate(p, token) => ReauthenticateKeepsValid(s, p, token, now);
    case DoPublish(p, source, wellFormed) => PublishKeepsValid(s, p, source, wellFormed, now);
    case DoActivity(p, kind) => ActivityKeepsValid(s, p, kind, now);
    case DoPresence(p, value, wellFormed) => PresenceKeepsValid(s, p, value, wellFormed, now);
    case DoDetach(p) => DetachKeepsValid(s, p, now);
    case DoSweep => SweptKeepsValid(s, now);
    case DoClose => CloseKeepsValid(s);
    case DoRead(p) => TakeKeepsValid(s, p);
    case DoReadEnded(p) => TakeKeepsValid(s, p);
  }

  // ---------------------------------------------------------------- what one step may change

  // Grants are only ever added, or replaced by one of the same actor and role.
  predicate SameRoom(a: Room, b: Room) {
    && a.host == b.host && a.invite == b.invite
    && (forall x :: x in a.grants ==>
          x in b.grants && b.grants[x].actor == a.grants[x].actor && b.grants[x].role == a.grants[x].role)
  }

  predicate SamePerson(a: Peer, b: Peer) {
    a.room == b.room && a.role == b.role && a.actor == b.actor
  }

  predicate RoomsQuiet(rooms: Rooms, rooms': Rooms) {
    && rooms'.Keys <= rooms.Keys
    && (forall r :: r in rooms' ==>
          SameRoom(rooms[r], rooms'[r]) && rooms'[r].snapshot == rooms[r].snapshot &&
          rooms'[r].revision == rooms[r].revision && rooms'[r].idle == rooms[r].idle)
  }

  predicate PeersQuiet(peers: Peers, peers': Peers) {
    peers'.Keys <= peers.Keys && forall p :: p in peers' ==> SamePerson(peers[p], peers'[p])
  }

  // The mailbox of a peer: untouched, given the current state of its room, or an empty slot given a
  // presence.
  predicate Moved(peer: Peer, room: Room, before: Option<Event>, after: Option<Event>) {
    || after == before
    || (after.Some? && after.value.SessionState? && after.value.revision == room.revision &&
        after.value.snapshot == if peer.role == Host then [] else room.snapshot)
    || (before == None && after.Some? && after.value.Presence?)
  }

  predicate MailMoves(mail: Mail, rooms: Rooms, peers: Peers, mail': Mail) {
    forall p :: p in peers && peers[p].room in rooms && p in mail ==>
      p in mail' && Moved(peers[p], rooms[peers[p].room], mail[p].events, mail'[p].events)
  }

  // The socket of a removed peer is sent no second reason, and its id is never attached again.
  predicate SocketsKept(peers: set<PeerId>, mail: Mail, peers': set<PeerId>, mail': Mail) {
    forall p :: p in mail ==> p in mail' && (p !in peers ==> p !in peers' && mail'[p].reasons == mail[p].reasons)
  }

  // A step that publishes nothing and moves no idle deadline.
  ghost predicate Quiet(s: State, t: State) {
    && SocketsKept(s.peers.Keys, s.channels, t.peers.Keys, t.channels)
    && RoomsQuiet(s.rooms, t.rooms)
    && PeersQuiet(s.peers, t.peers)
    && MailMoves(s.channels, t.rooms, t.peers, t.channels)
  }

  lemma QuietComposes(s: State, t: State, u: State)
    requires Valid(t)
    requires Quiet(s, t) && Quiet(t, u)
    ensures Quiet(s, u)
  {
    hide Staffed, RoomsValid, PeersValid, Total, Moved, Linked, SocketsKept;
    SocketsTwice(s, t, u);
    forall p | p in u.peers && u.peers[p].room in u.rooms && p in s.channels
      ensures p in u.channels && Moved(u.peers[p], u.rooms[u.peers[p].room], s.channels[p].events, u.channels[p].events)
    {
      MovedTwice(t.peers[p], u.peers[p], t.rooms[u.peers[p].room], u.rooms[u.peers[p].room],
                 s.channels[p].events, t.channels[p].events, u.channels[p].events);
    }
  }

  lemma SocketsTwice(s: State, t: State, u: State)
    requires SocketsKept(s.peers.Keys, s.channels, t.peers.Keys, t.channels)
    requires SocketsKept(t.peers.Keys, t.channels, u.peers.Keys, u.channels)
    ensures SocketsKept(s.peers.Keys, s.channels, u.peers.Keys, u.channels)
  {
  }

  lemma MovedTwice(p: Peer, q: Peer, r: Room, r': Room, a: Option<Event>, b: Option<Event>, c: Option<Event>)
    requires p.role == q.role && r.snapshot == r'.snapshot && r.revision == r'.revision
    requires Moved(p, r, a, b) && Moved(q, r', b, c)
    ensures Moved(q, r', a, c)
  {
  }

  lemma SweptQuiet(s: State, now: Time)
    requires Valid(s)
    ensures Quiet(s, Swept(s, now))
  {
    hide Staffed, RoomsValid, PeersValid, Total, RoomFate;
  }

  lemma EndRoomQuiet(s: State, r: RoomId, reason: Reason)
    requires Valid(s) && r in s.rooms
    ensures Quiet(s, EndRoom(s, r, reason))
  {
    hide Staffed, RoomsValid, PeersValid, Total;
  }

  lemma RemoveViewerRooms(s: State, p: PeerId, reason: Reason, now: Time)
    requires p in s.peers && s.peers[p].room in s.rooms && s.peers[p].role == Viewer
    ensures RoomsQuiet(s.rooms, Remove(s, p, reason, now).rooms) && PeersQuiet(s.peers, Remove(s, p, reason, now).peers)
  {
    hide Announce, TerminateAll;
  }

  lemma RemoveViewerMail(s: State, p: PeerId, reason: Reason, now: Time)
    requires p in s.peers && s.peers[p].room in s.rooms && s.peers[p].role == Viewer
    requires Linked(s.rooms, s.peers)
    ensures MailMoves(s.channels, Remove(s, p, reason, now).rooms, Remove(s, p, reason, now).peers, Remove(s, p, reason, now).channels)
  {
    var r := s.peers[p].room;
    var room := s.rooms[r].(peers := s.rooms[r].peers - {p});
    var t := Remove(s, p, reason, now);
    assert t.rooms == s.rooms[r := room] && t.peers == s.peers - {p};
    assert t.channels == Announce(TerminateAll(s.channels, {p}, reason), room, t.peers, now);
    forall q | q in t.peers && t.peers[q].room in t.rooms && q in s.channels
      ensures Moved(t.peers[q], t.rooms[t.peers[q].room], s.channels[q].events, t.channels[q].events)
    {
      AnnouncedTo(s, t, p, q, room, reason, now);
    }
  }

  lemma RemoveViewerSockets(s: State, p: PeerId, reason: Reason, now: Time)
    requires p in s.peers && s.peers[p].room in s.rooms && s.peers[p].role == Viewer
    ensures SocketsKept(s.peers.Keys, s.channels, Remove(s, p, reason, now).peers.Keys, Remove(s, p, reason, now).channels)
  {
  }

  lemma AnnouncedTo(s: State, t: State, p: PeerId, q: PeerId, room: Room, reason: Reason, now: Time)
    requires q in t.peers && q in s.channels && q != p
    requires forall x :: x in room.peers && x in t.peers ==> t.peers[x].room in t.rooms && t.rooms[t.peers[x].room] == room
    requires t.channels == Announce(TerminateAll(s.channels, {p}, reason), room, t.peers, now)
    requires t.peers[q].room in t.rooms
    ensures Moved(t.peers[q], t.rooms[t.peers[q].room], s.channels[q].events, t.channels[q].events)
  {
  }

  lemma RemoveQuiet(s: State, p: PeerId, reason: Reason, now: Time)
    requires Valid(s) && p in s.peers && s.peers[p].room in s.rooms
    ensures Quiet(s, Remove(s, p, reason, now))
  {
    hide Valid, Remove, RoomsQuiet, PeersQuiet, MailMoves, SocketsKept;
    if s.peers[p].role == Host {
      EndRoomQuiet(s, s.peers[p].room, reason);
      RemoveHost(s, p, reason, now);
    } else {
      ValidFacts(s);
      RemoveViewerRooms(s, p, reason, now);
      RemoveViewerMail(s, p, reason, now);
      RemoveViewerSockets(s, p, reason, now);
    }
  }

  lemma RemoveHost(s: State, p: PeerId, reason: Reason, now: Time)
    requires p in s.peers && s.peers[p].room in s.rooms && s.peers[p].role == Host
    ensures Remove(s, p, reason, now) == EndRoom(s, s.peers[p].room, reason)
  {
  }

  lemma IssueQuiet(s: State, r: RoomId, actor: string, role: Role, token: string, now: Time)
    requires Valid(s) && r in s.rooms && role == if actor == s.rooms[r].host then Host else Viewer
    ensures Quiet(s, Issue(s, r, actor, role, token, now).state)
  {
    hide Valid;
    if actor in s.rooms[r].grants { RoleOf(s, r, actor); }
    Regranted(s.rooms[r], actor, Grant(actor, role, token, now + TOKEN_TTL));
    hide SameRoom;
  }

  lemma Regranted(room: Room, actor: string, g: Grant)
    requires actor in room.grants ==> room.grants[actor].actor == g.actor && room.grants[actor].role == g.role
    ensures SameRoom(room, room.(grants := room.grants[actor := g]))
  {
  }

  lemma AnnouncedQuiet(t: State, p: PeerId, value: Bytes, now: Time)
    requires Linked(t.rooms, t.peers) && p in t.peers && t.peers[p].room in t.rooms
    ensures Quiet(t, Announced(t, p, value, now))
  {
  }

  // The steps that publish nothing, admit no socket and touch no deadline.
  predicate IsQuiet(a: Action) {
    a.DoJoin? || a.DoRenew? || a.DoRevoke? || a.DoReauthenticate? || a.DoPresence? || a.DoDetach? || a.DoSweep? || a.DoClose?
  }

  lemma NothingQuiet(s: State)
    ensures Quiet(s, s)
  {
  }

  lemma LiveQuiet(s: State, r: RoomId, now: Time)
    requires Valid(s)
    ensures Quiet(s, Live(s, r, now).state)
  {
    hide Valid, Swept, Quiet;
    NothingQuiet(s);
    SweptQuiet(s, now);
  }

  lemma JoinQuiet(s: State, r: RoomId, actor: string, invite: string, token: string, now: Time)
    requires Valid(s) && Unissued(s, token)
    ensures Quiet(s, Join(s, r, actor, invite, token, now).state)
  {
    hide Valid, Live, Issue, Unissued, Quiet, Swept;
    LiveQuiet(s, r, now);
    LiveKeepsValid(s, r, now);
    var live := Live(s, r, now);
    if live.outcome.Ok? {
      var role := if actor == live.outcome.value.host then Host else Viewer;
      IssueQuiet(live.state, r, actor, role, token, now);
      QuietComposes(s, live.state, Issue(live.state, r, actor, role, token, now).state);
    }
  }

  lemma RenewQuiet(s: State, r: RoomId, actor: string, token: string, now: Time)
    requires Valid(s) && Unissued(s, token)
    ensures Quiet(s, Renew(s, r, actor, token, now).state)
  {
    hide Valid, Live, Issue, Unissued, Quiet, Swept;
    LiveQuiet(s, r, now);
    LiveKeepsValid(s, r, now);
    var live := Live(s, r, now);
    if live.outcome.Ok? && actor in live.outcome.value.grants {
      RoleOf(live.state, r, actor);
      IssueQuiet(live.state, r, actor, live.outcome.value.grants[actor].role, token, now);
      QuietComposes(s, live.state, Issue(live.state, r, actor, live.outcome.value.grants[actor].role, token, now).state);
    }
  }

  lemma RevokeQuiet(s: State, r: RoomId, actor: string, now: Time)
    requires Valid(s)
    ensures Quiet(s, Revoke(s, r, actor, now).state)
  {
    hide Valid, Live, EndRoom, Quiet, Swept;
    LiveQuiet(s, r, now);
    LiveKeepsValid(s, r, now);
    var live := Live(s, r, now);
    if live.outcome.Ok? {
      EndRoomQuiet(live.state, r, HostRevoked);
      QuietComposes(s, live.state, EndRoom(live.state, r, HostRevoked));
    }
  }

  lemma ReauthenticateQuiet(s: State, p: PeerId, token: string, now: Time)
    requires Valid(s)
    ensures Quiet(s, Reauthenticate(s, p, token, now).state)
  {
    hide Valid, Swept, Quiet, Admitted;
    SweptQuiet(s, now);
    SweptKeepsValid(s, now);
    var t := Swept(s, now);
    if p in t.peers && t.peers[p].room in t.rooms {
      var g := Admitted(t.rooms[t.peers[p].room], token, now);
      if g.Some? {
        var u := t.(peers := t.peers[p := t.peers[p].(expires := g.value.expires)]);
        ExpiryQuiet(t, p, g.value.expires);
        QuietComposes(s, t, u);
      }
    }
  }

  lemma ExpiryQuiet(t: State, p: PeerId, expires: Time)
    requires p in t.peers
    ensures Quiet(t, t.(peers := t.peers[p := t.peers[p].(expires := expires)]))
  {
  }

  lemma PresenceQuiet(s: State, p: PeerId, value: Bytes, wellFormed: bool, now: Time)
    requires Valid(s)
    ensures Quiet(s, ShowPresence(s, p, value, wellFormed, now).state)
  {
    hide Valid, Swept, Quiet, Announced;
    NothingQuiet(s);
    SweptQuiet(s, now);
    SweptKeepsValid(s, now);
    var t := Swept(s, now);
    if p in t.peers && t.peers[p].room in t.rooms {
      ValidFacts(t);
      AnnouncedQuiet(t, p, value, now);
      QuietComposes(s, t, Announced(t, p, value, now));
    }
  }

  lemma QuietStep(s: State, used: set<RoomId>, a: Action, now: Time)
    requires Valid(s) && Fresh(s, used, a) && IsQuiet(a)
    ensures Quiet(s, Step(s, a, now))
  {
    hide Valid, Quiet, Join, Renew, Revoke, Reauthenticate, ShowPresence, Swept, Remove, Close, Unissued;
    match a
    case DoJoin(r, actor, invite, token) => JoinQuiet(s, r, actor, invite, token, now);
    case DoRenew(r, actor, token) => RenewQuiet(s, r, actor, token, now);
    case DoRevoke(r, actor) => RevokeQuiet(s, r, actor, now);
    case DoReauthenticate(p, token) => ReauthenticateQuiet(s, p, token, now);
    case DoPresence(p, value, wellFormed) => PresenceQuiet(s, p, value, wellFormed, now);
    case DoDetach(p) =>
      NothingQuiet(s);
      if p in s.peers && s.peers[p].room in s.rooms { RemoveQuiet(s, p, HostDisconnected, now); }
    case DoSweep => SweptQuiet(s, now);
    case DoClose => CloseQuiet(s);
  }

  lemma CloseQuiet(s: State)
    ensures Quiet(s, Close(s))
  {
  }
}
