/** The Local-share relay as a value: its two indexes, its byte budget, the mailboxes of its
    subscribers, and the effect of every locked operation as a function of the state before it.
    A digest stands for the secret it was computed from (SHA-256 is taken to be injective), and
    every operation takes one reading `now` of the clock. */
module RelayState {
  import opened Wrappers
  import ResourceId

  newtype byte = x: int | 0 <= x < 256
  type Bytes = seq<byte>
  type RoomId = string
  type PeerId = string
  type Time = int // nanoseconds

  const SECOND: Time := 1_000_000_000
  const MAX_SNAPSHOT_BYTES: nat := 0x80_0000
  const MAX_STORED_BYTES: nat := 0x200_0000
  const MAX_CONNECTIONS: nat := 25
  const MAX_PEERS: nat := 5
  const MAX_ROOMS: nat := 100
  const MAX_ROOMS_PER_HOST: nat := 2
  const MAX_GRANTS: nat := 25
  const IDLE_TIMEOUT: Time := 30 * 60 * SECOND
  const TOKEN_TTL: Time := 5 * 60 * SECOND
  const PENDING_TIMEOUT: Time := 10 * SECOND
  const TWO_TO_THE_64: nat := 0x1_0000_0000_0000_0000

  datatype Error = Ended | Denied | Invalid | Budget
  datatype Outcome<+T> = Ok(value: T) | Err(error: Error)
  datatype Role = Host | Viewer
  datatype Reason = IdleTimeout | HostAbsent | TokenExpired | HostRevoked | HostDisconnected | RelayStopped

  datatype Event =
    | SessionState(role: Role, to: PeerId, peers: nat, snapshot: Bytes, revision: nat, serverTime: Time, idleExpires: Time)
    | Presence(from: PeerId, value: Bytes, serverTime: Time, idleExpires: Time)

  datatype Grant = Grant(actor: string, role: Role, token: string, expires: Time)

  datatype Room = Room(
    id: RoomId, host: string, invite: string, revision: nat, idle: Time, pending: Time, online: bool,
    snapshot: Bytes, grants: map<string, Grant>, peers: set<PeerId>)

  datatype Peer = Peer(id: PeerId, room: RoomId, actor: string, role: Role, expires: Time)

  // The two one-slot channels of a subscriber. They outlive the peer: its socket still holds them.
  // `reasons` logs every termination reason ever sent on the second one.
  datatype Channels = Channels(events: Option<Event>, ended: Option<Reason>, reasons: seq<Reason>)

  type Rooms = map<RoomId, Room>
  type Peers = map<PeerId, Peer>
  type Mail = map<PeerId, Channels>

  datatype State = State(rooms: Rooms, peers: Peers, bytes: int, closed: bool, channels: Mail)

  datatype Admission = Admission(
    id: RoomId, token: string, invite: string, role: Role, tokenExpires: Time, idleExpires: Time, serverTime: Time)

  datatype Subscription = Subscription(id: PeerId, role: Role)

  datatype Reply<+T> = Reply(state: State, outcome: Outcome<T>)

  const EMPTY := State(map[], map[], 0, false, map[])

  // ---------------------------------------------------------------- stored bytes

  ghost function Total(rooms: Rooms): nat
    decreases |rooms|
  {
    if rooms == map[] then 0
    else
      var r :| r in rooms;
      assert |(rooms - {r}).Keys| < |rooms.Keys|;
      |rooms[r].snapshot| + Total(rooms - {r})
  }

  lemma {:induction false} TotalWithout(rooms: Rooms, r: RoomId)
    requires r in rooms
    ensures Total(rooms) == |rooms[r].snapshot| + Total(rooms - {r})
    decreases |rooms|
  {
    var k :| k in rooms && Total(rooms) == |rooms[k].snapshot| + Total(rooms - {k});
    if k != r {
      assert |(rooms - {k}).Keys| < |rooms.Keys|;
      assert |(rooms - {r}).Keys| < |rooms.Keys|;
      TotalWithout(rooms - {k}, r);
      TotalWithout(rooms - {r}, k);
      assert rooms - {k} - {r} == rooms - {r} - {k};
    }
  }

  lemma TotalUpdate(rooms: Rooms, r: RoomId, room: Room)
    ensures r in rooms ==> Total(rooms[r := room]) == Total(rooms) - |rooms[r].snapshot| + |room.snapshot|
    ensures r !in rooms ==> Total(rooms[r := room]) == Total(rooms) + |room.snapshot|
  {
    TotalWithout(rooms[r := room], r);
    if r in rooms {
      TotalWithout(rooms, r);
      assert rooms[r := room] - {r} == rooms - {r};
    } else {
      assert rooms[r := room] - {r} == rooms;
    }
  }

  lemma {:induction false} TotalSame(a: Rooms, b: Rooms)
    requires a.Keys == b.Keys
    requires forall r :: r in a ==> a[r].snapshot == b[r].snapshot
    ensures Total(a) == Total(b)
    decreases |a|
  {
    if a == map[] {
      assert b == map[];
    } else {
      var r :| r in a;
      TotalWithout(a, r);
      TotalWithout(b, r);
      assert |(a - {r}).Keys| < |a.Keys|;
      TotalSame(a - {r}, b - {r});
    }
  }

  // ---------------------------------------------------------------- representation invariant

  ghost predicate Hosts(rooms: Rooms, peers: Peers, r: RoomId, p: PeerId) {
    r in rooms && p in rooms[r].peers && p in peers && peers[p].role == Host
  }

  function RoomsOf(rooms: Rooms, actor: string): set<RoomId> {
    set r | r in rooms && rooms[r].host == actor
  }

  // The two indexes agree: `peers` is the disjoint union of the rooms' peer sets.
  ghost predicate Linked(rooms: Rooms, peers: Peers) {
    && (forall r, p :: r in rooms && p in rooms[r].peers ==> p in peers && peers[p].room == r)
    && (forall p :: p in peers ==> peers[p].room in rooms && p in rooms[peers[p].room].peers)
  }

  // A room is online exactly when it has one host peer; an offline room has no peers.
  ghost predicate Staffed(rooms: Rooms, peers: Peers) {
    && (forall r :: r in rooms ==> if rooms[r].online then exists p :: Hosts(rooms, peers, r, p) else rooms[r].peers == {})
    && (forall r, p, q :: Hosts(rooms, peers, r, p) && Hosts(rooms, peers, r, q) ==> p == q)
    && (forall p :: p in peers && peers[p].room in rooms ==>
          peers[p].role == if peers[p].actor == rooms[peers[p].room].host then Host else Viewer)
  }

  predicate GrantsValid(host: string, grants: map<string, Grant>) {
    && |grants| <= MAX_GRANTS
    && host in grants
    && (forall a :: a in grants ==> grants[a].actor == a && grants[a].role == if a == host then Host else Viewer)
    && (forall a, b :: a in grants && b in grants && grants[a].token == grants[b].token ==> a == b)
  }

  predicate RoomValid(r: RoomId, room: Room) {
    && room.id == r
    && |room.snapshot| <= MAX_SNAPSHOT_BYTES
    && |room.peers| <= MAX_PEERS
    && room.revision < TWO_TO_THE_64
    && GrantsValid(room.host, room.grants)
  }

  ghost predicate RoomsValid(rooms: Rooms) {
    && |rooms| <= MAX_ROOMS
    && (forall r :: r in rooms ==> RoomValid(r, rooms[r]))
    && (forall a :: |RoomsOf(rooms, a)| <= MAX_ROOMS_PER_HOST)
  }

  predicate PeersValid(peers: Peers) {
    && |peers| <= MAX_CONNECTIONS
    && (forall p :: p in peers ==> peers[p].id == p)
  }

  // An attached peer was sent no reason yet; a removed one was sent exactly one, in the step that
  // removed it, and its mailbox stays empty from then on.
  predicate Retired(c: Channels) {
    c.events == None && |c.reasons| == 1 && (c.ended == None || c.ended == Some(c.reasons[0]))
  }

  predicate Serving(c: Channels) {
    c.ended == None && c.reasons == []
  }

  predicate Mailboxes(peers: set<PeerId>, mail: Mail) {
    && peers <= mail.Keys
    && (forall p :: p in mail ==> if p in peers then Serving(mail[p]) else Retired(mail[p]))
  }

  ghost predicate Valid(s: State) {
    && Linked(s.rooms, s.peers)
    && Staffed(s.rooms, s.peers)
    && RoomsValid(s.rooms)
    && PeersValid(s.peers)
    && Mailboxes(s.peers.Keys, s.channels)
    && s.bytes == Total(s.rooms) <= MAX_STORED_BYTES
    && (s.closed ==> s.rooms == map[])
  }

  // ---------------------------------------------------------------- building blocks

  function StateEvent(room: Room, peer: Peer, now: Time): Event {
    SessionState(peer.role, peer.id, |room.peers|, if peer.role == Host then [] else room.snapshot,
                 room.revision, now, room.idle)
  }

  // Drain the mailbox, then send the reason.
  function Terminate(c: Channels, reason: Reason): Channels {
    Channels(None, Some(reason), c.reasons + [reason])
  }

  function Announce(channels: Mail, room: Room, peers: Peers, now: Time): Mail {
    map p | p in channels ::
      if p in room.peers && p in peers then channels[p].(events := Some(StateEvent(room, peers[p], now))) else channels[p]
  }

  function TerminateAll(channels: Mail, gone: set<PeerId>, reason: Reason): Mail {
    map p | p in channels :: if p in gone then Terminate(channels[p], reason) else channels[p]
  }

  function Broadcast(s: State, r: RoomId, now: Time): State
    requires r in s.rooms
  {
    s.(channels := Announce(s.channels, s.rooms[r], s.peers, now))
  }

  function EndRoom(s: State, r: RoomId, reason: Reason): State
    requires r in s.rooms
  {
    State(s.rooms - {r}, s.peers - s.rooms[r].peers, s.bytes - |s.rooms[r].snapshot|, s.closed,
          TerminateAll(s.channels, s.rooms[r].peers, reason))
  }

  function Remove(s: State, p: PeerId, reason: Reason, now: Time): State
    requires p in s.peers && s.peers[p].room in s.rooms
  {
    var r := s.peers[p].room;
    if s.peers[p].role == Host then EndRoom(s, r, reason)
    else
      var room := s.rooms[r].(peers := s.rooms[r].peers - {p});
      Broadcast(State(s.rooms[r := room], s.peers - {p}, s.bytes, s.closed, TerminateAll(s.channels, {p}, reason)), r, now)
  }

  // ---------------------------------------------------------------- sweep

  function Overdue(room: Room, now: Time): Option<Reason> {
    if room.idle <= now then Some(IdleTimeout)
    else if !room.online && room.pending <= now then Some(HostAbsent)
    else None
  }

  // Why the deadlines at `now` end room r, if they do: its own, or the token of its host peer.
  ghost function RoomFate(s: State, r: RoomId, now: Time): Option<Reason>
    requires r in s.rooms
  {
    if Overdue(s.rooms[r], now).Some? then Overdue(s.rooms[r], now)
    else if exists p :: Hosts(s.rooms, s.peers, r, p) && s.peers[p].expires <= now then Some(TokenExpired)
    else None
  }

  // Why they remove peer p, if they do.
  ghost function PeerFate(s: State, p: PeerId, now: Time): Option<Reason>
    requires p in s.peers && s.peers[p].room in s.rooms
  {
    if RoomFate(s, s.peers[p].room, now).Some? then RoomFate(s, s.peers[p].room, now)
    else if s.peers[p].expires <= now then Some(TokenExpired)
    else None
  }

  ghost predicate Stays(s: State, p: PeerId, now: Time) {
    p in s.peers && s.peers[p].room in s.rooms && PeerFate(s, p, now) == None
  }

  // The room after the sweep, without the viewers whose tokens ran out.
  ghost function SweptRoom(s: State, r: RoomId, now: Time): Room
    requires r in s.rooms
  {
    s.rooms[r].(peers := set p | p in s.rooms[r].peers && Stays(s, p, now))
  }

  ghost function SweptChannel(s: State, p: PeerId, now: Time): Channels
    requires p in s.channels
  {
    if !(p in s.peers && s.peers[p].room in s.rooms) then s.channels[p]
    else
      var r := s.peers[p].room;
      match PeerFate(s, p, now)
      case Some(reason) => Terminate(s.channels[p], reason)
      case None =>
        if SweptRoom(s, r, now).peers == s.rooms[r].peers then s.channels[p]
        else s.channels[p].(events := Some(StateEvent(SweptRoom(s, r, now), s.peers[p], now)))
  }

  ghost function SweptRooms(s: State, now: Time): Rooms {
    map r | r in s.rooms && RoomFate(s, r, now) == None :: SweptRoom(s, r, now)
  }

  ghost function SweptPeers(s: State, now: Time): map<PeerId, Peer> {
    map p | p in s.peers && Stays(s, p, now) :: s.peers[p]
  }

  // What a sweep at `now` leaves, stated without any order of visiting rooms and peers.
  ghost function Swept(s: State, now: Time): State {
    State(SweptRooms(s, now), SweptPeers(s, now), Total(SweptRooms(s, now)), s.closed,
          map p | p in s.channels :: SweptChannel(s, p, now))
  }

  // ---------------------------------------------------------------- operations

  ghost function Live(s: State, r: RoomId, now: Time): Reply<Room> {
    if !ResourceId.Valid(r, "lsh") then Reply(s, Err(Invalid))
    else
      var t := Swept(s, now);
      if t.closed || r !in t.rooms then Reply(t, Err(Ended)) else Reply(t, Ok(t.rooms[r]))
  }

  function Issue(s: State, r: RoomId, actor: string, role: Role, token: string, now: Time): Reply<Admission>
    requires r in s.rooms
  {
    var room := s.rooms[r];
    var grants := room.grants[actor := Grant(actor, role, token, now + TOKEN_TTL)];
    Reply(s.(rooms := s.rooms[r := room.(grants := grants)]),
          Ok(Admission(r, token, "", role, now + TOKEN_TTL, room.idle, now)))
  }

  function NewRoom(r: RoomId, actor: string, invite: string, token: string, now: Time): Room {
    Room(r, actor, invite, 0, now + IDLE_TIMEOUT, now + PENDING_TIMEOUT, false, [],
         map[actor := Grant(actor, Host, token, now + TOKEN_TTL)], {})
  }

  ghost function Create(s: State, actor: string, id: RoomId, invite: string, token: string, now: Time): Reply<Admission> {
    if !ResourceId.Valid(actor, "usr") then Reply(s, Err(Denied))
    else
      var t := Swept(s, now);
      if t.closed then Reply(t, Err(Ended))
      else if |t.rooms| >= MAX_ROOMS then Reply(t, Err(Budget))
      else if |RoomsOf(t.rooms, actor)| >= MAX_ROOMS_PER_HOST then Reply(t, Err(Budget))
      else
        Reply(t.(rooms := t.rooms[id := NewRoom(id, actor, invite, token, now)]),
              Ok(Admission(id, token, invite, Host, now + TOKEN_TTL, now + IDLE_TIMEOUT, now)))
  }

  ghost function Join(s: State, r: RoomId, actor: string, invite: string, token: string, now: Time): Reply<Admission> {
    var live := Live(s, r, now);
    if live.outcome.Err? then Reply(live.state, Err(live.outcome.error))
    else
      var t, room := live.state, live.outcome.value;
      if !ResourceId.Valid(actor, "usr") || |invite| != 64 || invite != room.invite then Reply(t, Err(Denied))
      else if !room.online then Reply(t, Err(Ended))
      else if actor == room.host then Issue(t, r, actor, Host, token, now)
      else if |room.grants| >= MAX_GRANTS && actor !in room.grants then Reply(t, Err(Budget))
      else Issue(t, r, actor, Viewer, token, now)
  }

  ghost function Renew(s: State, r: RoomId, actor: string, token: string, now: Time): Reply<Admission> {
    var live := Live(s, r, now);
    if live.outcome.Err? then Reply(live.state, Err(live.outcome.error))
    else
      var t, room := live.state, live.outcome.value;
      if actor !in room.grants then Reply(t, Err(Denied))
      else Issue(t, r, actor, room.grants[actor].role, token, now)
  }

  ghost function Revoke(s: State, r: RoomId, actor: string, now: Time): Reply<()> {
    var live := Live(s, r, now);
    if live.outcome.Err? then Reply(live.state, Err(live.outcome.error))
    else if live.outcome.value.host != actor then Reply(live.state, Err(Denied))
    else Reply(EndRoom(live.state, r, HostRevoked), Ok(()))
  }

  ghost predicate Admits(room: Room, token: string, now: Time, actor: string) {
    && |token| == 64
    && actor in room.grants
    && room.grants[actor].token == token
    && now < room.grants[actor].expires
  }

  // The grant a token is good for. Tokens of one room are pairwise distinct, so the choice is forced.
  ghost function Admitted(room: Room, token: string, now: Time): Option<Grant> {
    if exists actor :: Admits(room, token, now, actor)
    then
      var actor :| Admits(room, token, now, actor);
      Some(room.grants[actor])
    else None
  }

  ghost function Attach(s: State, r: RoomId, token: string, id: PeerId, now: Time): Reply<Subscription> {
    var live := Live(s, r, now);
    if live.outcome.Err? then Reply(live.state, Err(live.outcome.error))
    else
      var t, room := live.state, live.outcome.value;
      match Admitted(room, token, now)
      case None => Reply(t, Err(Denied))
      case Some(g) =>
        if |t.peers| >= MAX_CONNECTIONS || |room.peers| >= MAX_PEERS then Reply(t, Err(Budget))
        else if (g.role == Host && room.online) || (g.role == Viewer && !room.online) then Reply(t, Err(Denied))
        else Reply(Subscribed(t, r, g, id, now), Ok(Subscription(id, g.role)))
  }

  function Subscribed(t: State, r: RoomId, g: Grant, id: PeerId, now: Time): State
    requires r in t.rooms
  {
    var room := t.rooms[r].(peers := t.rooms[r].peers + {id}, online := t.rooms[r].online || g.role == Host);
    Broadcast(t.(rooms := t.rooms[r := room],
                 peers := t.peers[id := Peer(id, r, g.actor, g.role, g.expires)],
                 channels := t.channels[id := Channels(None, None, [])]), r, now)
  }

  ghost function Reauthenticate(s: State, p: PeerId, token: string, now: Time): Reply<()> {
    var t := Swept(s, now);
    if p !in t.peers || t.peers[p].room !in t.rooms then Reply(t, Err(Ended))
    else
      var peer := t.peers[p];
      match Admitted(t.rooms[peer.room], token, now)
      case None => Reply(t, Err(Denied))
      case Some(g) =>
        if g.actor != peer.actor || g.role != peer.role then Reply(t, Err(Denied))
        else Reply(t.(peers := t.peers[p := peer.(expires := g.expires)]), Ok(()))
  }

  function Published(t: State, r: RoomId, source: Bytes, now: Time): State
    requires r in t.rooms
  {
    var room := t.rooms[r];
    var room' := room.(snapshot := source, revision := (room.revision + 1) % TWO_TO_THE_64, idle := now + IDLE_TIMEOUT);
    Broadcast(t.(rooms := t.rooms[r := room'], bytes := t.bytes - |room.snapshot| + |source|), r, now)
  }

  // `wellFormed` is the verdict of the JSON scanner on the bytes.
  ghost function Publish(s: State, p: PeerId, source: Bytes, wellFormed: bool, now: Time): Reply<()> {
    if |source| == 0 || |source| > MAX_SNAPSHOT_BYTES || !wellFormed then Reply(s, Err(Invalid))
    else
      var t := Swept(s, now);
      if p !in t.peers || t.peers[p].room !in t.rooms then Reply(t, Err(Ended))
      else if t.peers[p].role != Host then Reply(t, Err(Denied))
      else
        var r := t.peers[p].room;
        if t.bytes - |t.rooms[r].snapshot| + |source| > MAX_STORED_BYTES then Reply(t, Err(Budget))
        else Reply(Published(t, r, source, now), Ok(()))
  }

  const ACTIVITIES := {"edit", "page", "pan_zoom", "keep_alive"}

  function Touched(t: State, r: RoomId, now: Time): State
    requires r in t.rooms
  {
    Broadcast(t.(rooms := t.rooms[r := t.rooms[r].(idle := now + IDLE_TIMEOUT)]), r, now)
  }

  ghost function Activity(s: State, p: PeerId, kind: string, now: Time): Reply<()> {
    if kind !in ACTIVITIES then Reply(s, Err(Invalid))
    else
      var t := Swept(s, now);
      if p !in t.peers || t.peers[p].room !in t.rooms then Reply(t, Err(Ended))
      else Reply(Touched(t, t.peers[p].room, now), Ok(()))
  }

  // A presence event only ever fills an empty mailbox.
  function Announced(t: State, p: PeerId, value: Bytes, now: Time): State
    requires p in t.peers && t.peers[p].room in t.rooms
  {
    var room := t.rooms[t.peers[p].room];
    t.(channels := map q | q in t.channels ::
      if q in room.peers && q != p && t.channels[q].events == None
      then t.channels[q].(events := Some(Presence(p, value, now, room.idle)))
      else t.channels[q])
  }

  ghost function ShowPresence(s: State, p: PeerId, value: Bytes, wellFormed: bool, now: Time): Reply<()> {
    if |value| > 2048 || !wellFormed then Reply(s, Err(Invalid))
    else
      var t := Swept(s, now);
      if p !in t.peers || t.peers[p].room !in t.rooms then Reply(t, Err(Ended))
      else Reply(Announced(t, p, value, now), Ok(()))
  }

  function Detach(s: State, p: PeerId, now: Time): State {
    if p in s.peers && s.peers[p].room in s.rooms then Remove(s, p, HostDisconnected, now) else s
  }

  // Every room ends, whatever the order.
  function Close(s: State): State {
    State(map[], map[], 0, true,
          TerminateAll(s.channels, s.peers.Keys, RelayStopped))
  }
}
