/** Where coalesced delivery ends: a schedule from an empty relay on which the revision counter comes
    round between two frames of a viewer, who is then left with the source of its first one. */
module RelayRound {
  import opened Wrappers
  import opened RelayState
  import opened RelayInvariant
  import opened RelayRuns
  import opened RelayLifetime
  import opened RelayDelivery
  import ResourceId

  // ---------------------------------------------------------------- reaching a world

  // The schedule is possible, goes well, and ends there.
  ghost predicate Reaches(w: World, run: seq<Timed>, u: World) {
    Possible(w, run) && NeverRound(w, run) && Run(w, run) == u
  }

  lemma ReachesNext(w: World, a: Action)
    requires Fresh(w.relay, w.history.Keys, a) && !(a.DoRead? && ComesRound(w, a.peer))
    ensures Reaches(w, [Timed(a, 0)], Next(w, a, 0))
  {
    hide Fresh, Next, ComesRound;
    var t := Next(w, a, 0);
    assert [Timed(a, 0)][1..] == [] && Possible(t, []) && NeverRound(t, []) && Run(t, []) == t;
  }

  lemma {:induction false} ReachesFurther(w: World, run: seq<Timed>, u: World, more: seq<Timed>, v: World)
    requires Reaches(w, run, u) && Reaches(u, more, v)
    ensures Reaches(w, run + more, v)
    decreases |run|
  {
    hide Fresh, Next, ComesRound;
    if run == [] {
      assert run + more == more;
    } else {
      assert (run + more)[0] == run[0] && (run + more)[1..] == run[1..] + more;
      ReachesFurther(Next(w, run[0].action, run[0].at), run[1..], u, more, v);
    }
  }

  // ---------------------------------------------------------------- the parties

  const ROOM := ResourceId.Small("lsh", '1')
  const ALICE := ResourceId.Small("usr", '1')
  const BOB := ResourceId.Small("usr", '2')
  const HOST: PeerId := "host"
  const VIEWER: PeerId := "viewer"
  const SOURCE: Bytes := [1]

  function Secret(c: char): (s: string)
    ensures |s| == 64 && s[0] == c
  {
    seq(64, i => c)
  }

  const INVITE := Secret('i')
  const ALICES_TOKEN := Secret('h')
  const BOBS_TOKEN := Secret('v')

  const ALICES_GRANT := Grant(ALICE, Host, ALICES_TOKEN, TOKEN_TTL)
  const BOBS_GRANT := Grant(BOB, Viewer, BOBS_TOKEN, TOKEN_TTL)

  lemma Parties()
    ensures ResourceId.Valid(ROOM, "lsh") && ResourceId.Valid(ALICE, "usr") && ResourceId.Valid(BOB, "usr") && ALICE != BOB
  {
    hide ResourceId.Valid, ResourceId.Zeros;
    ResourceId.SmallIsValid("lsh", '1');
    ResourceId.SmallIsValid("usr", '1');
    ResourceId.SmallIsValid("usr", '2');
    assert ALICE[31 - 1] == '1' && BOB[31 - 1] == '2';
  }

  // ---------------------------------------------------------------- no deadline is reached

  predicate Early(s: State) {
    (forall r :: r in s.rooms ==> 0 < s.rooms[r].idle && 0 < s.rooms[r].pending) && forall p :: p in s.peers ==> 0 < s.peers[p].expires
  }

  lemma NothingDue(s: State)
    requires Valid(s) && Early(s)
    ensures Swept(s, 0) == s
  {
    hide Staffed, RoomsValid, PeersValid, Mailboxes, Total;
    forall r | r in s.rooms ensures RoomFate(s, r, 0) == None {}
    forall p | p in s.peers ensures Stays(s, p, 0) {}
    forall r | r in s.rooms ensures SweptRoom(s, r, 0) == s.rooms[r] {
      assert SweptRoom(s, r, 0).peers == s.rooms[r].peers;
    }
    assert SweptRooms(s, 0) == s.rooms;
    assert SweptPeers(s, 0) == s.peers;
    assert (map p | p in s.channels :: SweptChannel(s, p, 0)) == s.channels;
  }

  // ---------------------------------------------------------------- the opening

  // Alice hosts a room, offline at first; `joined` is whether Bob has a grant.
  function Hosted(joined: bool, online: bool, peers: set<PeerId>): Room {
    Room(ROOM, ALICE, INVITE, 0, IDLE_TIMEOUT, PENDING_TIMEOUT, online, [],
         if joined then map[ALICE := ALICES_GRANT, BOB := BOBS_GRANT] else map[ALICE := ALICES_GRANT], peers)
  }

  const AT_HOST := Peer(HOST, ROOM, ALICE, Host, TOKEN_TTL)
  const AT_VIEWER := Peer(VIEWER, ROOM, BOB, Viewer, TOKEN_TTL)

  predicate Shows(s: State, room: Room, peers: Peers, sockets: set<PeerId>) {
    s.rooms == map[ROOM := room] && s.peers == peers && s.channels.Keys == sockets && !s.closed
  }

  lemma NothingSwept()
    ensures Swept(EMPTY, 0) == EMPTY
  {
    hide Linked, Staffed, RoomsValid, PeersValid, Total, Swept;
    NothingIsValid();
    NothingDue(EMPTY);
  }

  lemma RoomOpens()
    ensures var reply := Create(EMPTY, ALICE, ROOM, INVITE, ALICES_TOKEN, 0);
      Shows(reply.state, Hosted(false, false, {}), map[], {}) && reply.outcome.Ok?
  {
    hide Valid, ResourceId.Valid, ResourceId.Small, Secret, Swept;
    Parties();
    NothingSwept();
    assert RoomsOf(EMPTY.rooms, ALICE) == {};
  }

  lemma HostAttaches(s: State)
    requires Valid(s) && Shows(s, Hosted(false, false, {}), map[], {})
    ensures var reply := Attach(s, ROOM, ALICES_TOKEN, HOST, 0);
      Shows(reply.state, Hosted(false, true, {HOST}), map[HOST := AT_HOST], {HOST}) && reply.outcome == Ok(Subscription(HOST, Host))
  {
    hide Valid, ResourceId.Valid, ResourceId.Small, Secret, Swept, StateEvent;
    Parties();
    NothingDue(s);
    GrantOfRoom(Hosted(false, false, {}), ALICES_TOKEN, ALICE);
    assert {} + {HOST} == {HOST};
  }

  lemma GrantOfRoom(room: Room, token: string, actor: string)
    requires GrantsValid(room.host, room.grants) && |token| == 64
    requires actor in room.grants && room.grants[actor].token == token && 0 < room.grants[actor].expires
    ensures Admitted(room, token, 0) == Some(room.grants[actor])
  {
    AdmittedIsGrant(room, token, 0);
    assert Admits(room, token, 0, actor);
  }

  lemma ViewerJoins(s: State)
    requires Valid(s) && Shows(s, Hosted(false, true, {HOST}), map[HOST := AT_HOST], {HOST})
    ensures Unissued(s, BOBS_TOKEN)
    ensures Shows(Join(s, ROOM, BOB, INVITE, BOBS_TOKEN, 0).state, Hosted(true, true, {HOST}), map[HOST := AT_HOST], {HOST})
  {
    hide Valid, ResourceId.Valid, ResourceId.Small, Secret, Swept;
    Parties();
    NothingDue(s);
    assert |map[ALICE := ALICES_GRANT]| == 1;
  }

  lemma ViewerAttaches(s: State)
    requires Valid(s) && Shows(s, Hosted(true, true, {HOST}), map[HOST := AT_HOST], {HOST})
    ensures var reply := Attach(s, ROOM, BOBS_TOKEN, VIEWER, 0);
      Shows(reply.state, Hosted(true, true, {HOST, VIEWER}), map[HOST := AT_HOST, VIEWER := AT_VIEWER], {HOST, VIEWER}) &&
      reply.outcome == Ok(Subscription(VIEWER, Viewer))
  {
    hide Valid, ResourceId.Valid, ResourceId.Small, Secret, Swept, Subscribed;
    Parties();
    NothingDue(s);
    GrantOfRoom(Hosted(true, true, {HOST}), BOBS_TOKEN, BOB);
    assert |{HOST}| == 1 && |map[HOST := AT_HOST]| == 1;
    SubscribedHere(s);
  }

  lemma SubscribedHere(s: State)
    requires Shows(s, Hosted(true, true, {HOST}), map[HOST := AT_HOST], {HOST})
    ensures Shows(Subscribed(s, ROOM, BOBS_GRANT, VIEWER, 0), Hosted(true, true, {HOST, VIEWER}),
                  map[HOST := AT_HOST, VIEWER := AT_VIEWER], {HOST, VIEWER})
  {
    hide ResourceId.Valid, ResourceId.Small, Secret, StateEvent;
    assert {HOST} + {VIEWER} == {HOST, VIEWER};
  }

  // ---------------------------------------------------------------- publication after publication

  // Bob's reader was shown the empty room, and nothing since; n publications were made.
  ghost predicate Staged(w: World, n: nat) {
    && Delivered(w) && Early(w.relay)
    && w.relay.rooms.Keys == {ROOM} && HOST in w.relay.peers && VIEWER in w.relay.peers
    && w.relay.peers[HOST].room == ROOM && w.relay.peers[HOST].role == Host && w.relay.peers[VIEWER].room == ROOM
    && VIEWER in w.readers && w.readers[VIEWER] == NewReader(ROOM, Viewer)
    && ROOM in w.history && |w.history[ROOM]| == n + 1
    && (n > 0 ==> Last(w.history[ROOM]) == SOURCE && StateWaiting(w.relay.channels, VIEWER))
  }

  lemma OneRoomTotal(rooms: Rooms, r: RoomId)
    requires rooms.Keys == {r}
    ensures Total(rooms) == |rooms[r].snapshot|
  {
    TotalWithout(rooms, r);
    assert rooms - {r} == map[];
  }

  lemma RoomToSpare(s: State)
    requires Valid(s) && s.rooms.Keys == {ROOM}
    ensures s.bytes == |s.rooms[ROOM].snapshot| && Linked(s.rooms, s.peers) && s.peers.Keys <= s.channels.Keys
  {
    hide Linked, Staffed, RoomsValid, PeersValid, Total;
    OneRoomTotal(s.rooms, ROOM);
  }

  lemma PublishHere(s: State)
    requires Valid(s) && Early(s) && s.rooms.Keys == {ROOM} && HOST in s.peers && s.peers[HOST].room == ROOM && s.peers[HOST].role == Host
    ensures Publish(s, HOST, SOURCE, true, 0) == Reply(Published(s, ROOM, SOURCE, 0), Ok(()))
  {
    hide Valid, Swept, Published, Early;
    NothingDue(s);
    RoomToSpare(s);
  }

  lemma PublishedEarly(s: State)
    requires Early(s) && s.rooms.Keys == {ROOM}
    ensures var t := Published(s, ROOM, SOURCE, 0); Early(t) && t.rooms.Keys == {ROOM} && t.peers == s.peers
  {
    hide Announce;
  }

  lemma StagedPublish(w: World, n: nat)
    requires Staged(w, n)
    ensures Staged(Next(w, DoPublish(HOST, SOURCE, true), 0), n + 1)
  {
    hide Valid, Linked, Recorded, Current, ReadersFaithful, Published, Early, Publish;
    PublishHere(w.relay);
    RoomToSpare(w.relay);
    PublishedEarly(w.relay);
    PublishedMail(w.relay, ROOM, SOURCE, 0, VIEWER);
    StepDelivered(w, DoPublish(HOST, SOURCE, true), 0);
  }

  function Publications(n: nat): (run: seq<Timed>)
    ensures |run| == n
  {
    if n == 0 then [] else [Timed(DoPublish(HOST, SOURCE, true), 0)] + Publications(n - 1)
  }

  ghost function AfterPublications(w: World, n: nat): World
    decreases n
  {
    if n == 0 then w else AfterPublications(Next(w, DoPublish(HOST, SOURCE, true), 0), n - 1)
  }

  lemma {:induction false} ManyPublications(w: World, k: nat, n: nat)
    requires Staged(w, k)
    ensures Reaches(w, Publications(n), AfterPublications(w, n)) && Staged(AfterPublications(w, n), k + n)
    decreases n
  {
    hide Staged, Next, ComesRound, Reaches;
    if n == 0 {
      NoStep(w);
    } else {
      var a := DoPublish(HOST, SOURCE, true);
      StagedPublish(w, k);
      ReachesNext(w, a);
      ManyPublications(Next(w, a, 0), k + 1, n - 1);
      ReachesFurther(w, [Timed(a, 0)], Next(w, a, 0), Publications(n - 1), AfterPublications(w, n));
    }
  }

  lemma NoStep(w: World)
    ensures Reaches(w, [], w)
  {
  }

  // ---------------------------------------------------------------- the schedule

  ghost predicate Opened(w: World, room: Room, peers: Peers, sockets: set<PeerId>) {
    Delivered(w) && Shows(w.relay, room, peers, sockets) && w.history == map[ROOM := [[]]]
  }

  const OPEN := DoCreate(ALICE, ROOM, INVITE, ALICES_TOKEN)
  const HOST_IN := DoAttach(ROOM, ALICES_TOKEN, HOST)
  const JOINED := DoJoin(ROOM, BOB, INVITE, BOBS_TOKEN)
  const VIEWER_IN := DoAttach(ROOM, BOBS_TOKEN, VIEWER)

  lemma Opens() returns (w: World)
    ensures Reaches(START, [Timed(OPEN, 0)], w) && Opened(w, Hosted(false, false, {}), map[], {})
  {
    hide Delivered, Reaches, Create, ComesRound, Shows;
    RoomOpens();
    StartDelivered();
    StepDelivered(START, OPEN, 0);
    ReachesNext(START, OPEN);
    w := Next(START, OPEN, 0);
  }

  lemma HostComes(w: World) returns (t: World)
    requires Opened(w, Hosted(false, false, {}), map[], {})
    ensures Reaches(w, [Timed(HOST_IN, 0)], t) && Opened(t, Hosted(false, true, {HOST}), map[HOST := AT_HOST], {HOST})
  {
    hide Delivered, Reaches, Attach, ComesRound;
    FromDelivered(w);
    HostAttaches(w.relay);
    StepDelivered(w, HOST_IN, 0);
    ReachesNext(w, HOST_IN);
    t := Next(w, HOST_IN, 0);
  }

  lemma BobJoins(w: World) returns (t: World)
    requires Opened(w, Hosted(false, true, {HOST}), map[HOST := AT_HOST], {HOST})
    ensures Reaches(w, [Timed(JOINED, 0)], t) && Opened(t, Hosted(true, true, {HOST}), map[HOST := AT_HOST], {HOST})
  {
    hide Delivered, Reaches, Join, ComesRound, Shows, Unissued;
    FromDelivered(w);
    ViewerJoins(w.relay);
    StepDelivered(w, JOINED, 0);
    ReachesNext(w, JOINED);
    t := Next(w, JOINED, 0);
  }

  lemma BobComes(w: World) returns (t: World)
    requires Opened(w, Hosted(true, true, {HOST}), map[HOST := AT_HOST], {HOST})
    ensures Reaches(w, [Timed(VIEWER_IN, 0)], t) && Staged(t, 0)
  {
    hide Delivered, Reaches, ComesRound, Staged, Fresh, Opened, Next;
    BobIsNew(w);
    StepDelivered(w, VIEWER_IN, 0);
    ReachesNext(w, VIEWER_IN);
    t := Next(w, VIEWER_IN, 0);
    BobIsIn(w);
    StagedAtFirst(t);
  }

  lemma BobIsIn(w: World)
    requires Opened(w, Hosted(true, true, {HOST}), map[HOST := AT_HOST], {HOST}) && Delivered(Next(w, VIEWER_IN, 0))
    ensures var t := Next(w, VIEWER_IN, 0);
      Opened(t, Hosted(true, true, {HOST, VIEWER}), map[HOST := AT_HOST, VIEWER := AT_VIEWER], {HOST, VIEWER}) &&
      VIEWER in t.readers && t.readers[VIEWER] == NewReader(ROOM, Viewer)
  {
    hide Delivered, Attach, Shows;
    FromDelivered(w);
    ViewerAttaches(w.relay);
  }

  lemma BobIsNew(w: World)
    requires Opened(w, Hosted(true, true, {HOST}), map[HOST := AT_HOST], {HOST})
    ensures Delivered(w) && Fresh(w.relay, w.history.Keys, VIEWER_IN)
  {
    hide Delivered;
  }

  lemma StagedAtFirst(w: World)
    requires Opened(w, Hosted(true, true, {HOST, VIEWER}), map[HOST := AT_HOST, VIEWER := AT_VIEWER], {HOST, VIEWER})
    requires VIEWER in w.readers && w.readers[VIEWER] == NewReader(ROOM, Viewer)
    ensures Staged(w, 0)
  {
    hide Delivered;
  }

  // Bob's reader takes its first frame, which shows the empty room.
  lemma BobReads(w: World) returns (t: World)
    requires Staged(w, 0)
    ensures Reaches(w, [Timed(DoRead(VIEWER), 0)], t) && Staged(t, 0)
  {
    hide Valid, Reaches, ComesRound, Early;
    FewPublications(w, VIEWER);
    StepDelivered(w, DoRead(VIEWER), 0);
    ReachesNext(w, DoRead(VIEWER));
    t := Next(w, DoRead(VIEWER), 0);
    FirstFrame(w);
    TakeRooms(w.relay, VIEWER);
    TakenEarly(w.relay);
  }

  lemma FirstFrame(w: World)
    requires Staged(w, 0)
    ensures Waiting(w.relay.channels, VIEWER).Some? ==>
      Deliver(w.readers[VIEWER], Waiting(w.relay.channels, VIEWER).value, 0) == NewReader(ROOM, Viewer)
  {
    hide Valid, ReadersFaithful, Early;
    assert UpToDate(w.relay.peers[VIEWER], w.relay.rooms[ROOM], w.readers[VIEWER], Waiting(w.relay.channels, VIEWER), Count(w.history, ROOM));
  }

  lemma TakenEarly(s: State)
    requires Early(s)
    ensures Early(Take(s, VIEWER))
  {
  }

  // The failure is real: after 2^64 publications Bob's reader takes its second frame, and Bob is left
  // with the empty source of the first one.
  lemma CounterComesRound() returns (run: seq<Timed>)
    ensures Possible(START, run) && NeverRound(START, run)
    ensures var w := Run(START, run);
      Delivered(w) && VIEWER in w.readers && ComesRound(w, VIEWER) && !Delivered(Next(w, DoRead(VIEWER), 0))
  {
    hide Delivered, Early, NeverRound, Possible, Run, Next, Publications, AfterPublications, Opened;
    var a := Opens();
    var b := HostComes(a);
    var c := BobJoins(b);
    var d := BobComes(c);
    var e := BobReads(d);
    ManyPublications(e, 0, TWO_TO_THE_64);
    var w := AfterPublications(e, TWO_TO_THE_64);
    var opening := [Timed(OPEN, 0)];
    Joined(START, opening, a, Timed(HOST_IN, 0), b);
    Joined(START, opening + [Timed(HOST_IN, 0)], b, Timed(JOINED, 0), c);
    Joined(START, opening + [Timed(HOST_IN, 0)] + [Timed(JOINED, 0)], c, Timed(VIEWER_IN, 0), d);
    opening := opening + [Timed(HOST_IN, 0)] + [Timed(JOINED, 0)] + [Timed(VIEWER_IN, 0)];
    Joined(START, opening, d, Timed(DoRead(VIEWER), 0), e);
    run := opening + [Timed(DoRead(VIEWER), 0)] + Publications(TWO_TO_THE_64);
    ReachesFurther(START, opening + [Timed(DoRead(VIEWER), 0)], e, Publications(TWO_TO_THE_64), w);
    StagedComesRound(w);
    ReadDelivered(w, VIEWER, 0);
  }

  lemma Joined(w: World, run: seq<Timed>, u: World, step: Timed, v: World)
    requires Reaches(w, run, u) && Reaches(u, [step], v)
    ensures Reaches(w, run + [step], v)
  {
    hide Reaches;
    ReachesFurther(w, run, u, [step], v);
  }

  lemma StagedComesRound(w: World)
    requires Staged(w, TWO_TO_THE_64)
    ensures ComesRound(w, VIEWER) && Delivered(w) && VIEWER in w.readers
  {
    hide Delivered, Early;
  }
}
