/** Coalesced delivery. A viewer's mailbox holds one event, newer events replace older ones, and its
    socket writer drops the snapshot from a state event whose revision it has already sent. Still the
    viewer always holds exactly the source published at the revision it last received. */
module RelayDelivery {
  import opened Wrappers
  import opened RelayState
  import opened RelayInvariant
  import opened RelayRuns
  import opened RelayLifetime

  // The writer's local revision, and the snapshot its client has put together from the frames sent.
  // `seen` is for the statements only: how many publications there were at the last state frame.
  datatype Reader = Reader(room: RoomId, role: Role, revision: nat, held: Bytes, seen: nat)

  type Histories = map<RoomId, seq<Bytes>>
  type Readers = map<PeerId, Reader>

  // `history[r][k]` is the source of room r after k publications, the first entry being no source.
  datatype World = World(relay: State, history: Histories, readers: Readers)

  // One frame: the snapshot is left out when the revision did not change since the last state frame.
  // `count` is how many publications there were by then.
  function Deliver(reader: Reader, event: Event, count: nat): Reader {
    if event.SessionState? then
      reader.(revision := event.revision, held := if event.revision == reader.revision then reader.held else event.snapshot, seen := count)
    else reader
  }

  // How often a room was published to.
  function Count(history: Histories, r: RoomId): nat {
    if r in history && history[r] != [] then |history[r]| - 1 else 0
  }

  function Waiting(mail: Mail, p: PeerId): Option<Event> {
    if p in mail then mail[p].events else None
  }

  ghost function Next(w: World, a: Action, now: Time): World {
    World(Step(w.relay, a, now), NextHistory(w, a, now), NextReaders(w, a, now))
  }

  ghost function NextHistory(w: World, a: Action, now: Time): Histories {
    match a
    case DoCreate(actor, id, invite, token) =>
      if Create(w.relay, actor, id, invite, token, now).outcome.Ok? then w.history[id := [[]]] else w.history
    case DoPublish(p, source, wellFormed) =>
      if Publish(w.relay, p, source, wellFormed, now).outcome.Ok? && p in w.relay.peers && w.relay.peers[p].room in w.history
      then var r := w.relay.peers[p].room; w.history[r := w.history[r] + [source]]
      else w.history
    case _ => w.history
  }

  function NewReader(r: RoomId, role: Role): Reader {
    Reader(r, role, 0, [], 0)
  }

  ghost function NextReaders(w: World, a: Action, now: Time): Readers {
    match a
    case DoAttach(r, token, p) =>
      var reply := Attach(w.relay, r, token, p, now);
      if reply.outcome.Ok? then w.readers[p := NewReader(r, reply.outcome.value.role)] else w.readers
    case DoRead(p) =>
      if p in w.readers && Waiting(w.relay.channels, p).Some?
      then w.readers[p := Deliver(w.readers[p], Waiting(w.relay.channels, p).value, Count(w.history, w.readers[p].room))]
      else w.readers
    case _ => w.readers
  }

  // ---------------------------------------------------------------- the delivery invariant

  function Last<T>(s: seq<T>): T
    requires s != []
  {
    s[|s| - 1]
  }

  // Every room shows its latest publication, counted modulo 2^64.
  predicate Recorded(rooms: Rooms, history: Histories) {
    && (forall r :: r in history ==> history[r] != [] && history[r][0] == [])
    && (forall r :: r in rooms ==> r in history && rooms[r].snapshot == Last(history[r]) &&
                                   rooms[r].revision == Count(history, r) % TWO_TO_THE_64)
  }

  // A reader has the revision of its last state frame, and a viewer holds what was published by then.
  predicate Faithful(reader: Reader, history: Histories) {
    && reader.room in history && reader.seen < |history[reader.room]|
    && reader.revision == reader.seen % TWO_TO_THE_64
    && (reader.role == Viewer ==> reader.held == history[reader.room][reader.seen])
  }

  // The waiting event is the current state of the room; without a waiting state event the reader was
  // sent a frame after the last publication.
  predicate UpToDate(peer: Peer, room: Room, reader: Reader, waiting: Option<Event>, count: nat) {
    && reader.room == peer.room && reader.role == peer.role
    && if waiting.Some? && waiting.value.SessionState?
       then waiting.value.revision == room.revision && waiting.value.snapshot == if peer.role == Host then [] else room.snapshot
       else reader.seen == count
  }

  predicate Current(rooms: Rooms, peers: Peers, mail: Mail, readers: Readers, history: Histories) {
    forall p :: p in peers && peers[p].room in rooms ==>
      p in readers && UpToDate(peers[p], rooms[peers[p].room], readers[p], Waiting(mail, p), Count(history, peers[p].room))
  }

  predicate ReadersFaithful(readers: Readers, history: Histories) {
    forall p :: p in readers ==> Faithful(readers[p], history)
  }

  ghost predicate Delivered(w: World) {
    && Valid(w.relay)
    && Recorded(w.relay.rooms, w.history)
    && Current(w.relay.rooms, w.relay.peers, w.relay.channels, w.readers, w.history)
    && ReadersFaithful(w.readers, w.history)
    && w.readers.Keys <= w.relay.channels.Keys
  }

  // ---------------------------------------------------------------- steps without a publication

  predicate RoomsCalm(rooms: Rooms, rooms': Rooms) {
    && rooms'.Keys <= rooms.Keys
    && (forall r :: r in rooms' ==> rooms'[r].snapshot == rooms[r].snapshot && rooms'[r].revision == rooms[r].revision)
  }

  ghost predicate Calm(s: State, t: State) {
    && RoomsCalm(s.rooms, t.rooms)
    && PeersQuiet(s.peers, t.peers)
    && MailMoves(s.channels, t.rooms, t.peers, t.channels)
    && s.channels.Keys <= t.channels.Keys
  }

  lemma QuietIsCalm(s: State, t: State)
    requires Quiet(s, t)
    ensures Calm(s, t)
  {
    hide SameRoom, Moved, PeersQuiet;
  }

  lemma CalmKeepsCurrent(s: State, t: State, readers: Readers, history: Histories)
    requires Calm(s, t) && Linked(s.rooms, s.peers) && s.peers.Keys <= s.channels.Keys
    requires Current(s.rooms, s.peers, s.channels, readers, history)
    ensures Current(t.rooms, t.peers, t.channels, readers, history)
  {
    hide Count;
    forall p | p in t.peers && t.peers[p].room in t.rooms
      ensures p in readers && UpToDate(t.peers[p], t.rooms[t.peers[p].room], readers[p], Waiting(t.channels, p), Count(history, t.peers[p].room))
    {
      var r := t.peers[p].room;
      MovedUpToDate(s.peers[p], t.peers[p], s.rooms[r], t.rooms[r], readers[p], s.channels[p].events, t.channels[p].events, Count(history, r));
    }
  }

  lemma MovedUpToDate(p: Peer, q: Peer, room: Room, room': Room, reader: Reader, before: Option<Event>, after: Option<Event>, count: nat)
    requires SamePerson(p, q) && room'.snapshot == room.snapshot && room'.revision == room.revision
    requires Moved(q, room', before, after) && UpToDate(p, room, reader, before, count)
    ensures UpToDate(q, room', reader, after, count)
  {
  }

  lemma CalmKeepsRecorded(rooms: Rooms, rooms': Rooms, history: Histories)
    requires RoomsCalm(rooms, rooms') && Recorded(rooms, history)
    ensures Recorded(rooms', history)
  {
  }

  lemma CalmKeepsDelivered(w: World, t: State)
    requires Delivered(w) && Valid(t) && Calm(w.relay, t)
    ensures Delivered(w.(relay := t))
  {
    hide Valid, Recorded, Current, ReadersFaithful, RoomsCalm, MailMoves, PeersQuiet;
    ValidFacts(w.relay);
    CalmKeepsRecorded(w.relay.rooms, t.rooms, w.history);
    CalmKeepsCurrent(w.relay, t, w.readers, w.history);
  }

  lemma SweptDelivered(w: World, now: Time)
    requires Delivered(w)
    ensures Delivered(w.(relay := Swept(w.relay, now)))
  {
    hide Valid, Quiet, Calm, Recorded, Current, ReadersFaithful, Swept;
    SweptQuiet(w.relay, now);
    SweptKeepsValid(w.relay, now);
    QuietIsCalm(w.relay, Swept(w.relay, now));
    CalmKeepsDelivered(w, Swept(w.relay, now));
  }

  lemma TouchedCalm(t: State, r: RoomId, now: Time)
    requires Linked(t.rooms, t.peers) && r in t.rooms
    ensures Calm(t, Touched(t, r, now))
  {
  }

  lemma ActivityDelivered(w: World, p: PeerId, kind: string, now: Time)
    requires Delivered(w)
    ensures Delivered(w.(relay := Activity(w.relay, p, kind, now).state))
  {
    hide Valid, Delivered, Calm, Swept, Touched;
    FromDelivered(w);
    SweptDelivered(w, now);
    var t := Swept(w.relay, now);
    FromDelivered(w.(relay := t));
    if p in t.peers && t.peers[p].room in t.rooms {
      ValidFacts(t);
      TouchedCalm(t, t.peers[p].room, now);
      TouchedKeepsValid(t, t.peers[p].room, now);
      CalmKeepsDelivered(w.(relay := t), Touched(t, t.peers[p].room, now));
    }
  }

  lemma FromDelivered(w: World)
    requires Delivered(w)
    ensures Valid(w.relay)
  {
    hide Valid;
  }

  // ---------------------------------------------------------------- a new room

  lemma CreateDelivered(w: World, actor: string, id: RoomId, invite: string, token: string, now: Time)
    requires Delivered(w) && id !in w.history
    ensures Delivered(Next(w, DoCreate(actor, id, invite, token), now))
  {
    hide Valid, Swept, Linked, Staffed, Mailboxes, Current, ReadersFaithful, RoomsOf;
    SweptDelivered(w, now);
    var t := Swept(w.relay, now);
    CreateKeepsValid(w.relay, actor, id, invite, token, now);
    Subscribers(t);
    assert id !in w.relay.rooms && id !in t.rooms;
    hide Recorded;
    NewRoomDelivered(w, t, actor, id, invite, token, now);
  }

  lemma NewRoomDelivered(w: World, t: State, actor: string, id: RoomId, invite: string, token: string, now: Time)
    requires Linked(t.rooms, t.peers) && id !in t.rooms && id !in w.history
    requires Recorded(t.rooms, w.history) && Current(t.rooms, t.peers, t.channels, w.readers, w.history)
    requires ReadersFaithful(w.readers, w.history)
    ensures Recorded(t.rooms[id := NewRoom(id, actor, invite, token, now)], w.history[id := [[]]])
    ensures Current(t.rooms[id := NewRoom(id, actor, invite, token, now)], t.peers, t.channels, w.readers, w.history[id := [[]]])
    ensures ReadersFaithful(w.readers, w.history[id := [[]]])
  {
    hide UpToDate;
  }

  // ---------------------------------------------------------------- a new subscriber

  lemma SeatMail(t: State, r: RoomId, g: Grant, id: PeerId, now: Time, q: PeerId, count: nat)
    requires Linked(t.rooms, t.peers) && t.peers.Keys <= t.channels.Keys && r in t.rooms && id !in t.channels
    requires q == id || (q in t.peers && t.peers[q].room in t.rooms)
    ensures var u := Subscribed(t, r, g, id, now);
      q in u.peers && u.peers[q].room in u.rooms && q in u.channels &&
      (q == id ==> UpToDate(u.peers[q], u.rooms[r], NewReader(r, g.role), u.channels[q].events, count)) &&
      (q != id ==> Moved(u.peers[q], u.rooms[u.peers[q].room], t.channels[q].events, u.channels[q].events))
  {
  }

  lemma SeatRooms(t: State, r: RoomId, g: Grant, id: PeerId, now: Time)
    requires r in t.rooms && id !in t.peers
    ensures RoomsCalm(t.rooms, Subscribed(t, r, g, id, now).rooms)
    ensures Subscribed(t, r, g, id, now).rooms.Keys == t.rooms.Keys
    ensures Subscribed(t, r, g, id, now).peers == t.peers[id := Peer(id, r, g.actor, g.role, g.expires)]
    ensures Subscribed(t, r, g, id, now).channels.Keys == t.channels.Keys + {id}
  {
    hide StateEvent;
  }

  lemma SubscribedCurrent(t: State, r: RoomId, g: Grant, id: PeerId, now: Time, readers: Readers, history: Histories)
    requires Linked(t.rooms, t.peers) && t.peers.Keys <= t.channels.Keys && r in t.rooms && id !in t.channels
    requires Current(t.rooms, t.peers, t.channels, readers, history)
    ensures var u := Subscribed(t, r, g, id, now);
      Current(u.rooms, u.peers, u.channels, readers[id := NewReader(r, g.role)], history)
  {
    hide Linked, UpToDate, Moved, Count, Subscribed;
    var u := Subscribed(t, r, g, id, now);
    SeatRooms(t, r, g, id, now);
    forall q | q in u.peers && u.peers[q].room in u.rooms
      ensures UpToDate(u.peers[q], u.rooms[u.peers[q].room], readers[id := NewReader(r, g.role)][q], Waiting(u.channels, q), Count(history, u.peers[q].room))
    {
      SeatMail(t, r, g, id, now, q, Count(history, r));
      if q != id {
        assert UpToDate(t.peers[q], t.rooms[t.peers[q].room], readers[q], Waiting(t.channels, q), Count(history, t.peers[q].room));
        MovedUpToDate(t.peers[q], u.peers[q], t.rooms[t.peers[q].room], u.rooms[u.peers[q].room], readers[q],
                      t.channels[q].events, u.channels[q].events, Count(history, t.peers[q].room));
      }
    }
  }

  lemma Subscribers(t: State)
    requires Valid(t)
    ensures Linked(t.rooms, t.peers) && t.peers.Keys <= t.channels.Keys
  {
    hide Staffed, RoomsValid, PeersValid, Total;
  }

  lemma StillReads(readers: Readers, history: Histories, r: RoomId, g: Grant, id: PeerId)
    requires ReadersFaithful(readers, history) && r in history && history[r] != [] && history[r][0] == []
    ensures ReadersFaithful(readers[id := NewReader(r, g.role)], history)
  {
  }

  lemma SeatDelivered(w: World, t: State, r: RoomId, g: Grant, id: PeerId, now: Time)
    requires Delivered(w.(relay := t)) && r in t.rooms && id !in t.channels && Valid(Subscribed(t, r, g, id, now))
    ensures Delivered(World(Subscribed(t, r, g, id, now), w.history, w.readers[id := NewReader(r, g.role)]))
  {
    hide Valid, Linked, Staffed, Mailboxes, Current, Recorded, ReadersFaithful, Subscribed, UpToDate;
    Subscribers(t);
    FirstSource(t.rooms, w.history, r);
    StillReads(w.readers, w.history, r, g, id);
    AttachFresh(t, id);
    SubscribedCurrent(t, r, g, id, now, w.readers, w.history);
    SeatRooms(t, r, g, id, now);
    CalmKeepsRecorded(t.rooms, Subscribed(t, r, g, id, now).rooms, w.history);
  }

  lemma AttachDelivered(w: World, r: RoomId, token: string, id: PeerId, now: Time)
    requires Delivered(w) && id !in w.relay.channels
    ensures Delivered(Next(w, DoAttach(r, token, id), now))
  {
    hide Valid, Delivered, Swept, Live, Admitted, Subscribed;
    FromDelivered(w);
    LiveDelivered(w, r, now);
    LiveKeepsValid(w.relay, r, now);
    SweptShrinks(w.relay, now);
    AttachFresh(w.relay, id);
    AttachKeepsValid(w.relay, r, token, id, now);
    var live := Live(w.relay, r, now);
    if live.outcome.Ok? && Attach(w.relay, r, token, id, now).outcome.Ok? {
      SeatDelivered(w, live.state, r, Admitted(live.outcome.value, token, now).value, id, now);
    }
  }

  lemma FirstSource(rooms: Rooms, history: Histories, r: RoomId)
    requires Recorded(rooms, history) && r in rooms
    ensures r in history && history[r] != [] && history[r][0] == []
  {
  }

  lemma LiveDelivered(w: World, r: RoomId, now: Time)
    requires Delivered(w)
    ensures Delivered(w.(relay := Live(w.relay, r, now).state))
  {
    hide Delivered, Swept;
    SweptDelivered(w, now);
  }

  // ---------------------------------------------------------------- a publication

  lemma PublishedMail(t: State, r: RoomId, source: Bytes, now: Time, q: PeerId)
    requires Linked(t.rooms, t.peers) && t.peers.Keys <= t.channels.Keys && r in t.rooms
    requires q in t.peers
    ensures var u := Published(t, r, source, now);
      q in u.peers && u.peers[q] == t.peers[q] && u.peers[q].room in u.rooms && q in u.channels &&
      if u.peers[q].room == r then u.channels[q].events == Some(StateEvent(u.rooms[r], u.peers[q], now))
      else u.channels[q] == t.channels[q] && u.rooms[u.peers[q].room] == t.rooms[t.peers[q].room]
  {
  }

  lemma PublishedCurrent(t: State, r: RoomId, source: Bytes, now: Time, readers: Readers, history: Histories)
    requires Linked(t.rooms, t.peers) && t.peers.Keys <= t.channels.Keys && r in t.rooms && r in history
    requires Current(t.rooms, t.peers, t.channels, readers, history)
    ensures var u := Published(t, r, source, now); Current(u.rooms, u.peers, u.channels, readers, history[r := history[r] + [source]])
  {
    var u := Published(t, r, source, now);
    assert u.peers == t.peers;
    forall q | q in u.peers && u.peers[q].room in u.rooms
      ensures q in readers &&
        UpToDate(u.peers[q], u.rooms[u.peers[q].room], readers[q], Waiting(u.channels, q), Count(history[r := history[r] + [source]], u.peers[q].room))
    {
      PublishedMail(t, r, source, now, q);
      assert UpToDate(t.peers[q], t.rooms[t.peers[q].room], readers[q], Waiting(t.channels, q), Count(history, t.peers[q].room));
    }
  }

  lemma PublishedRecorded(t: State, r: RoomId, source: Bytes, now: Time, history: Histories)
    requires r in t.rooms && Recorded(t.rooms, history)
    ensures Recorded(Published(t, r, source, now).rooms, history[r := history[r] + [source]])
  {
    hide Announce;
    NextRevision(Count(history, r));
  }

  lemma NextRevision(n: nat)
    ensures (n % TWO_TO_THE_64 + 1) % TWO_TO_THE_64 == (n + 1) % TWO_TO_THE_64
  {
  }

  lemma StillFaithful(readers: Readers, history: Histories, r: RoomId, source: Bytes)
    requires ReadersFaithful(readers, history) && r in history
    ensures ReadersFaithful(readers, history[r := history[r] + [source]])
  {
  }

  lemma PublishDelivered(w: World, p: PeerId, source: Bytes, wellFormed: bool, now: Time)
    requires Delivered(w)
    ensures Delivered(Next(w, DoPublish(p, source, wellFormed), now))
  {
    hide Valid, Swept, Linked, Current, Recorded, ReadersFaithful, Published;
    SweptDelivered(w, now);
    PublishKeepsValid(w.relay, p, source, wellFormed, now);
    var reply := Publish(w.relay, p, source, wellFormed, now);
    if reply.outcome.Ok? {
      var t := Swept(w.relay, now);
      var r := t.peers[p].room;
      Persists(w.relay, p, now);
      ValidFacts(t);
      FirstSource(t.rooms, w.history, r);
      PublishedCurrent(t, r, source, now, w.readers, w.history);
      PublishedRecorded(t, r, source, now, w.history);
      StillFaithful(w.readers, w.history, r, source);
      assert reply.state == Published(t, r, source, now);
      PublishedSockets(t, r, source, now);
    }
  }

  lemma PublishedSockets(t: State, r: RoomId, source: Bytes, now: Time)
    requires r in t.rooms
    ensures Published(t, r, source, now).channels.Keys == t.channels.Keys
  {
  }

  lemma Persists(s: State, p: PeerId, now: Time)
    requires p in Swept(s, now).peers
    ensures p in s.peers && s.peers[p] == Swept(s, now).peers[p]
  {
    hide Total;
  }

  // ---------------------------------------------------------------- a frame

  // Exactly when the omission of an unchanged revision is harmless: the writer leaves its client with
  // the event's snapshot unless the revision was seen before with another snapshot.
  lemma DeliverIsExact(reader: Reader, event: Event, count: nat)
    requires event.SessionState?
    ensures Deliver(reader, event, count).held == event.snapshot <==>
            (event.revision != reader.revision || reader.held == event.snapshot)
    ensures Deliver(reader, event, count).revision == event.revision
  {
  }

  // A viewer takes a state frame when the counter has come round since its last one: there were
  // publications in between, their number is a multiple of 2^64, and the last one changed the source.
  predicate ComesRound(w: World, p: PeerId) {
    && p in w.readers && w.readers[p].role == Viewer && w.readers[p].room in w.history
    && StateWaiting(w.relay.channels, p)
    && var count := Count(w.history, w.readers[p].room);
       w.readers[p].seen < count && (count - w.readers[p].seen) % TWO_TO_THE_64 == 0 &&
       w.readers[p].held != Last(w.history[w.readers[p].room])
  }

  predicate StateWaiting(mail: Mail, p: PeerId) {
    Waiting(mail, p).Some? && Waiting(mail, p).value.SessionState?
  }

  lemma SameRemainder(a: nat, b: nat)
    requires a <= b
    ensures a % TWO_TO_THE_64 == b % TWO_TO_THE_64 <==> (b - a) % TWO_TO_THE_64 == 0
  {
  }

  // Reading keeps delivery exactly if the counter has not come round.
  lemma ReadDelivered(w: World, p: PeerId, now: Time)
    requires Delivered(w)
    ensures Delivered(Next(w, DoRead(p), now)) <==> !ComesRound(w, p)
  {
    hide Valid, Current, Recorded, Faithful, Deliver, UpToDate, ComesRound, Count;
    TakeKeepsValid(w.relay, p);
    TakeRooms(w.relay, p);
    var readers := NextReaders(w, DoRead(p), now);
    HasReader(w, p);
    if Waiting(w.relay.channels, p).Some? {
      WaitingIsAttached(w.relay, p);
      ReadFaithful(w, p);
      assert readers[p] == Deliver(w.readers[p], Waiting(w.relay.channels, p).value, Count(w.history, w.readers[p].room));
    } else {
      if p in w.relay.peers && w.relay.peers[p].room in w.relay.rooms { NothingWaiting(w, p); }
      NothingComesRound(w, p);
    }
    ReadCurrent(w, p, readers);
  }

  lemma NothingComesRound(w: World, p: PeerId)
    requires Waiting(w.relay.channels, p) == None
    ensures !ComesRound(w, p)
  {
  }

  lemma HasReader(w: World, p: PeerId)
    requires Current(w.relay.rooms, w.relay.peers, w.relay.channels, w.readers, w.history)
    ensures p in w.relay.peers && w.relay.peers[p].room in w.relay.rooms ==> p in w.readers
  {
  }

  lemma NothingWaiting(w: World, p: PeerId)
    requires Current(w.relay.rooms, w.relay.peers, w.relay.channels, w.readers, w.history)
    requires p in w.relay.peers && w.relay.peers[p].room in w.relay.rooms && Waiting(w.relay.channels, p) == None
    ensures p in w.readers && UpToDate(w.relay.peers[p], w.relay.rooms[w.relay.peers[p].room], w.readers[p], None, Count(w.history, w.relay.peers[p].room))
  {
  }

  lemma WaitingIsAttached(s: State, p: PeerId)
    requires Valid(s) && Waiting(s.channels, p).Some?
    ensures p in s.peers && s.peers[p].room in s.rooms
  {
    hide Staffed, RoomsValid, PeersValid, Total;
  }

  lemma ReadFaithful(w: World, p: PeerId)
    requires Recorded(w.relay.rooms, w.history) && Current(w.relay.rooms, w.relay.peers, w.relay.channels, w.readers, w.history)
    requires ReadersFaithful(w.readers, w.history)
    requires p in w.readers && p in w.relay.peers && w.relay.peers[p].room in w.relay.rooms
    requires Waiting(w.relay.channels, p).Some?
    ensures var reader := Deliver(w.readers[p], Waiting(w.relay.channels, p).value, Count(w.history, w.readers[p].room));
      (Faithful(reader, w.history) <==> !ComesRound(w, p)) &&
      UpToDate(w.relay.peers[p], w.relay.rooms[w.relay.peers[p].room], reader, None, Count(w.history, w.relay.peers[p].room))
  {
    var r := w.relay.peers[p].room;
    var count := Count(w.history, r);
    assert UpToDate(w.relay.peers[p], w.relay.rooms[r], w.readers[p], Waiting(w.relay.channels, p), count);
    assert Faithful(w.readers[p], w.history);
    SameRemainder(w.readers[p].seen, count);
    if StateWaiting(w.relay.channels, p) { DeliverIsExact(w.readers[p], Waiting(w.relay.channels, p).value, count); }
  }

  lemma ReadCurrent(w: World, p: PeerId, readers: Readers)
    requires Current(w.relay.rooms, w.relay.peers, w.relay.channels, w.readers, w.history)
    requires forall q :: q in w.readers ==> q in readers && (q != p ==> readers[q] == w.readers[q])
    requires p in w.relay.peers && w.relay.peers[p].room in w.relay.rooms ==>
      p in readers && UpToDate(w.relay.peers[p], w.relay.rooms[w.relay.peers[p].room], readers[p], None, Count(w.history, w.relay.peers[p].room))
    ensures Current(Take(w.relay, p).rooms, Take(w.relay, p).peers, Take(w.relay, p).channels, readers, w.history)
  {
    hide UpToDate, Count;
    assert Take(w.relay, p).rooms == w.relay.rooms && Take(w.relay, p).peers == w.relay.peers;
    assert Waiting(Take(w.relay, p).channels, p) == None;
    assert forall q :: q != p ==> Waiting(Take(w.relay, p).channels, q) == Waiting(w.relay.channels, q);
  }

  // ---------------------------------------------------------------- every step, every run

  lemma EndedDelivered(w: World, p: PeerId, now: Time)
    requires Delivered(w)
    ensures Delivered(w.(relay := TakeEnded(w.relay, p)))
  {
    hide Valid, Linked, Staffed, Mailboxes, Recorded, ReadersFaithful, UpToDate;
    TakeKeepsValid(w.relay, p);
    Subscribers(w.relay);
    CalmKeepsDelivered(w, TakeEnded(w.relay, p)) by {
      assert forall q :: q in w.relay.channels ==> TakeEnded(w.relay, p).channels[q].events == w.relay.channels[q].events;
    }
  }

  // The one step that can break delivery is a frame taken when the counter has come round, and it does.
  lemma StepDelivered(w: World, a: Action, now: Time)
    requires Delivered(w) && Fresh(w.relay, w.history.Keys, a)
    ensures Delivered(Next(w, a, now)) <==> !(a.DoRead? && ComesRound(w, a.peer))
  {
    hide Valid, Delivered, Quiet, Calm, Swept, Take, TakeEnded, ComesRound, Unissued;
    hide Create, Join, Renew, Revoke, Attach, Reauthenticate, Publish, Activity, ShowPresence, Detach, Close;
    FromDelivered(w);
    RecordedRooms(w);
    match a
    case DoCreate(actor, id, invite, token) => CreateDelivered(w, actor, id, invite, token, now);
    case DoAttach(r, token, p) => AttachDelivered(w, r, token, p, now);
    case DoPublish(p, source, wellFormed) => PublishDelivered(w, p, source, wellFormed, now);
    case DoActivity(p, kind) => ActivityDelivered(w, p, kind, now);
    case DoRead(p) => ReadDelivered(w, p, now);
    case DoReadEnded(p) => EndedDelivered(w, p, now);
    case _ =>
      QuietStep(w.relay, w.history.Keys, a, now);
      StepKeepsValid(w.relay, w.history.Keys, a, now);
      QuietIsCalm(w.relay, Step(w.relay, a, now));
      CalmKeepsDelivered(w, Step(w.relay, a, now));
  }

  const START := World(EMPTY, map[], map[])

  ghost function Run(w: World, run: seq<Timed>): World
    decreases |run|
  {
    if run == [] then w else Run(Next(w, run[0].action, run[0].at), run[1..])
  }

  // A schedule of operations and reads, with fresh identifiers.
  ghost predicate Possible(w: World, run: seq<Timed>)
    decreases |run|
  {
    run == [] || (Fresh(w.relay, w.history.Keys, run[0].action) && Possible(Next(w, run[0].action, run[0].at), run[1..]))
  }

  // No frame is taken on it when the counter has come round.
  ghost predicate NeverRound(w: World, run: seq<Timed>)
    decreases |run|
  {
    run == [] ||
    (!(run[0].action.DoRead? && ComesRound(w, run[0].action.peer)) && NeverRound(Next(w, run[0].action, run[0].at), run[1..]))
  }

  ghost predicate AlwaysDelivered(w: World, run: seq<Timed>) {
    forall i :: 0 <= i <= |run| ==> Delivered(Run(w, run[..i]))
  }

  lemma AlwaysDeliveredSplits(w: World, run: seq<Timed>)
    requires run != []
    ensures AlwaysDelivered(w, run) <==> Delivered(w) && AlwaysDelivered(Next(w, run[0].action, run[0].at), run[1..])
  {
    hide Delivered, Next;
    var t := Next(w, run[0].action, run[0].at);
    assert run[..0] == [] && Run(w, []) == w;
    forall i | 1 <= i <= |run| ensures Run(w, run[..i]) == Run(t, run[1..][..i - 1]) {
      assert run[..i][0] == run[0] && run[..i][1..] == run[1..][..i - 1];
    }
    if AlwaysDelivered(w, run) {
      forall i | 0 <= i <= |run[1..]| ensures Delivered(Run(t, run[1..][..i])) {
        assert Delivered(Run(w, run[..i + 1]));
      }
    }
  }

  // Over any schedule, delivery holds all the way exactly if no frame is taken on it when the counter
  // has come round.
  lemma {:induction false} DeliveredOverRun(w: World, run: seq<Timed>)
    requires Delivered(w) && Possible(w, run)
    ensures AlwaysDelivered(w, run) <==> NeverRound(w, run)
    decreases |run|
  {
    hide Delivered, Next, Fresh, ComesRound;
    if run == [] {
      assert run[..0] == [] && Run(w, []) == w;
    } else {
      var t := Next(w, run[0].action, run[0].at);
      AlwaysDeliveredSplits(w, run);
      StepDelivered(w, run[0].action, run[0].at);
      if Delivered(t) { DeliveredOverRun(t, run[1..]); }
      else { assert run[1..][..0] == [] && !Delivered(Run(t, run[1..][..0])); }
    }
  }

  lemma RecordedRooms(w: World)
    requires Delivered(w)
    ensures w.relay.rooms.Keys <= w.history.Keys
  {
    hide Valid, Current, ReadersFaithful;
  }

  lemma StartDelivered()
    ensures Delivered(START)
  {
    hide Linked, Staffed, RoomsValid, PeersValid, Total;
    NothingIsValid();
  }

  // The refinement of full-state delivery: after every schedule from an empty relay on which no frame
  // is taken when the counter has come round, each viewer holds the source that was published by its
  // last state frame, and unless a state event is waiting for it that is the latest of its room.
  lemma CoalescedDelivery(run: seq<Timed>, p: PeerId)
    requires Possible(START, run) && NeverRound(START, run)
    requires p in Run(START, run).readers && Run(START, run).readers[p].role == Viewer
    ensures Held(Run(START, run), Run(START, run).readers[p])
    ensures p in Run(START, run).relay.peers && !StateWaiting(Run(START, run).relay.channels, p) ==> HasLatest(Run(START, run), Run(START, run).readers[p])
  {
    hide Possible, NeverRound, Delivered, Next;
    StartDelivered();
    DeliveredOverRun(START, run);
    assert run[..|run|] == run;
    LatestOf(Run(START, run), p);
  }

  ghost predicate Held(w: World, reader: Reader) {
    reader.room in w.history && reader.seen < |w.history[reader.room]| && reader.held == w.history[reader.room][reader.seen]
  }

  ghost predicate HasLatest(w: World, reader: Reader) {
    && reader.room in w.history && w.history[reader.room] != [] && reader.room in w.relay.rooms
    && reader.seen == |w.history[reader.room]| - 1
    && reader.held == Last(w.history[reader.room]) == w.relay.rooms[reader.room].snapshot
  }

  lemma LatestOf(w: World, p: PeerId)
    requires Delivered(w) && p in w.readers && w.readers[p].role == Viewer
    ensures Held(w, w.readers[p])
    ensures p in w.relay.peers && !StateWaiting(w.relay.channels, p) ==> HasLatest(w, w.readers[p])
  {
    hide Staffed, RoomsValid, PeersValid, Mailboxes, Total;
    assert Faithful(w.readers[p], w.history);
    if p in w.relay.peers {
      assert UpToDate(w.relay.peers[p], w.relay.rooms[w.relay.peers[p].room], w.readers[p], Waiting(w.relay.channels, p),
                      Count(w.history, w.relay.peers[p].room));
    }
  }

  // It takes 2^64 publications: in a room with fewer the counter has not come round for anybody.
  lemma FewPublications(w: World, p: PeerId)
    requires p in w.readers ==> Count(w.history, w.readers[p].room) < TWO_TO_THE_64
    ensures !ComesRound(w, p)
  {
  }
}
