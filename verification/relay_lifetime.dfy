/** Lifetimes over whole runs of the relay under a clock that never goes back: a room that is over
    stays over, grants and peers keep their actor and role, a subscriber is told once. */
module RelayLifetime {
  import opened Wrappers
  import opened RelayState
  import opened RelayInvariant
  import opened RelayRuns
  import opened RelayTokens
  import ResourceId

  // ---------------------------------------------------------------- what every step keeps

  // Rooms, grants and peers keep their identity; a removed peer's socket hears nothing more.
  ghost predicate Lasting(s: State, t: State) {
    && (forall r :: r in s.rooms && r in t.rooms ==> SameRoom(s.rooms[r], t.rooms[r]))
    && (forall p :: p in s.peers && p in t.peers ==> SamePerson(s.peers[p], t.peers[p]))
    && SocketsKept(s.peers.Keys, s.channels, t.peers.Keys, t.channels)
  }

  lemma QuietLasts(s: State, t: State)
    requires Quiet(s, t)
    ensures Lasting(s, t)
  {
    hide SameRoom, SamePerson, SocketsKept, MailMoves;
  }

  lemma QuietThenLasts(s: State, t: State, u: State)
    requires Quiet(s, t) && Lasting(t, u)
    requires forall r :: r in s.rooms && r in u.rooms ==> r in t.rooms
    requires forall p :: p in s.peers && p in u.peers ==> p in t.peers
    ensures Lasting(s, u)
  {
    hide MailMoves, SocketsKept;
    SocketsTwice(s, t, u);
  }

  lemma SubscribedLasts(t: State, r: RoomId, g: Grant, id: PeerId, now: Time)
    requires r in t.rooms && id !in t.channels && id !in t.peers
    ensures Lasting(t, Subscribed(t, r, g, id, now))
  {
    hide StateEvent;
  }

  lemma PublishedLasts(t: State, r: RoomId, source: Bytes, now: Time)
    requires r in t.rooms
    ensures Lasting(t, Published(t, r, source, now)) && Published(t, r, source, now).rooms.Keys == t.rooms.Keys
  {
    hide StateEvent;
  }

  lemma TouchedLasts(t: State, r: RoomId, now: Time)
    requires r in t.rooms
    ensures Lasting(t, Touched(t, r, now)) && Touched(t, r, now).rooms.Keys == t.rooms.Keys
  {
    hide StateEvent;
  }

  lemma AttachLasts(s: State, r: RoomId, token: string, id: PeerId, now: Time)
    requires Valid(s) && id !in s.channels
    ensures Lasting(s, Attach(s, r, token, id, now).state)
  {
    hide Valid, Live, Subscribed, Admitted, Quiet, Lasting, Swept;
    LiveQuiet(s, r, now);
    LiveKeepsValid(s, r, now);
    SweptShrinks(s, now);
    AttachFresh(s, id);
    var live := Live(s, r, now);
    QuietLasts(s, live.state);
    if live.outcome.Ok? {
      var g := Admitted(live.state.rooms[r], token, now);
      if g.Some? {
        SubscribedLasts(live.state, r, g.value, id, now);
        SubscribedKeys(live.state, r, g.value, id, now);
        QuietThenLasts(s, live.state, Subscribed(live.state, r, g.value, id, now));
      }
    }
  }

  lemma SubscribedKeys(t: State, r: RoomId, g: Grant, id: PeerId, now: Time)
    requires r in t.rooms
    ensures Subscribed(t, r, g, id, now).rooms.Keys == t.rooms.Keys
    ensures Subscribed(t, r, g, id, now).peers.Keys == t.peers.Keys + {id}
  {
  }

  lemma PublishLasts(s: State, p: PeerId, source: Bytes, wellFormed: bool, now: Time)
    requires Valid(s)
    ensures Lasting(s, Publish(s, p, source, wellFormed, now).state)
  {
    hide Valid, Swept, Quiet, Lasting;
    NothingQuiet(s);
    SweptQuiet(s, now);
    var t := Swept(s, now);
    QuietLasts(s, s);
    QuietLasts(s, t);
    if p in t.peers && t.peers[p].room in t.rooms {
      PublishedLasts(t, t.peers[p].room, source, now);
      QuietThenLasts(s, t, Published(t, t.peers[p].room, source, now));
    }
  }

  lemma ActivityLasts(s: State, p: PeerId, kind: string, now: Time)
    requires Valid(s)
    ensures Lasting(s, Activity(s, p, kind, now).state)
  {
    hide Valid, Swept, Quiet, Lasting;
    NothingQuiet(s);
    SweptQuiet(s, now);
    var t := Swept(s, now);
    QuietLasts(s, s);
    QuietLasts(s, t);
    if p in t.peers && t.peers[p].room in t.rooms {
      TouchedLasts(t, t.peers[p].room, now);
      QuietThenLasts(s, t, Touched(t, t.peers[p].room, now));
    }
  }

  lemma CreateLasts(s: State, actor: string, id: RoomId, invite: string, token: string, now: Time)
    requires Valid(s) && id !in s.rooms
    ensures Lasting(s, Create(s, actor, id, invite, token, now).state)
  {
    hide Valid, Swept, Quiet, SocketsKept;
    NothingQuiet(s);
    SweptQuiet(s, now);
    QuietLasts(s, s);
    QuietLasts(s, Swept(s, now));
  }

  lemma TakeLasts(s: State, p: PeerId)
    ensures Lasting(s, Take(s, p)) && Lasting(s, TakeEnded(s, p))
  {
  }

  lemma StepLasts(s: State, used: set<RoomId>, a: Action, now: Time)
    requires Valid(s) && s.rooms.Keys <= used && Fresh(s, used, a)
    ensures Lasting(s, Step(s, a, now))
  {
    hide Valid, Quiet, Lasting, Create, Join, Renew, Revoke, Attach, Reauthenticate, Publish, Activity, ShowPresence, Detach, Close;
    hide Swept, Take, TakeEnded, Unissued;
    if IsQuiet(a) {
      QuietStep(s, used, a, now);
      QuietLasts(s, Step(s, a, now));
    } else {
      match a
      case DoCreate(actor, id, invite, token) => CreateLasts(s, actor, id, invite, token, now);
      case DoAttach(r, token, p) => AttachLasts(s, r, token, p, now);
      case DoPublish(p, source, wellFormed) => PublishLasts(s, p, source, wellFormed, now);
      case DoActivity(p, kind) => ActivityLasts(s, p, kind, now);
      case DoRead(p) => TakeLasts(s, p);
      case DoReadEnded(p) => TakeLasts(s, p);
    }
  }

  // A step that removes a peer takes it out of both indexes, empties its mailbox and sends exactly
  // one reason; a peer removed earlier is sent no second one and finds no event.
  lemma ToldOnce(s: State, used: set<RoomId>, a: Action, now: Time, p: PeerId)
    requires Valid(s) && s.rooms.Keys <= used && Fresh(s, used, a)
    requires p in s.channels && p !in Step(s, a, now).peers
    ensures p in Step(s, a, now).channels && Told(s, Step(s, a, now), p)
  {
    hide Valid, Step, Told, Lasting, Unissued;
    StepKeepsValid(s, used, a, now);
    StepLasts(s, used, a, now);
    ToldBetween(s, Step(s, a, now), p);
  }

  ghost predicate Told(s: State, t: State, p: PeerId)
    requires p in s.channels && p in t.channels
  {
    && (forall r :: r in t.rooms ==> p !in t.rooms[r].peers)
    && t.channels[p].events == None
    && |t.channels[p].reasons| == 1
    && s.channels[p].reasons == if p in s.peers then [] else t.channels[p].reasons
  }

  lemma ToldBetween(s: State, t: State, p: PeerId)
    requires Valid(s) && Valid(t) && Lasting(s, t)
    requires p in s.channels && p !in t.peers
    ensures p in t.channels && Told(s, t, p)
  {
    hide Staffed, RoomsValid, PeersValid, Total, SameRoom, SamePerson;
  }

  // ---------------------------------------------------------------- a room that is over

  // Gone, or taken by the next sweep: idle or host deadline reached, or the host's token ran out.
  ghost predicate Over(s: State, r: RoomId, now: Time) {
    r !in s.rooms || RoomFate(s, r, now).Some?
  }

  lemma OverIsSwept(s: State, r: RoomId, now: Time)
    requires Over(s, r, now)
    ensures r !in Swept(s, now).rooms
    ensures forall p :: p in s.peers && s.peers[p].room == r ==> p !in Swept(s, now).peers
  {
    hide Total;
  }

  // Whatever is asked of a room that is over, by room id or through one of its peers, is refused.
  lemma OverRefusesActors(s: State, r: RoomId, actor: string, secret: string, token: string, now: Time)
    requires Over(s, r, now) && ResourceId.Valid(r, "lsh")
    ensures Join(s, r, actor, secret, token, now).outcome == Err(Ended)
    ensures Renew(s, r, actor, token, now).outcome == Err(Ended)
    ensures Revoke(s, r, actor, now).outcome == Err(Ended)
    ensures forall p :: Attach(s, r, token, p, now).outcome == Err(Ended)
  {
    hide Swept, Over, ResourceId.Valid;
    OverIsSwept(s, r, now);
  }

  lemma OverRefusesPeers(s: State, r: RoomId, p: PeerId, now: Time)
    requires Over(s, r, now) && (p in s.peers ==> s.peers[p].room == r)
    ensures forall token :: Reauthenticate(s, p, token, now).outcome == Err(Ended)
    ensures forall source, wellFormed :: Publish(s, p, source, wellFormed, now).outcome in {Err(Ended), Err(Invalid)}
    ensures forall kind :: Activity(s, p, kind, now).outcome in {Err(Ended), Err(Invalid)}
    ensures forall value, wellFormed :: ShowPresence(s, p, value, wellFormed, now).outcome in {Err(Ended), Err(Invalid)}
  {
    hide Swept, Over;
    OverIsSwept(s, r, now);
    SweptShrinks(s, now);
  }

  lemma OverLater(s: State, r: RoomId, t: Time, now: Time)
    requires Over(s, r, t) && t <= now
    ensures Over(s, r, now)
  {
    if r in s.rooms && Overdue(s.rooms[r], t) == None {
      var p :| Hosts(s.rooms, s.peers, r, p) && s.peers[p].expires <= t;
      assert s.peers[p].expires <= now;
    }
  }

  // An operation that sweeps first and adds no room.
  ghost predicate AddsNone(s: State, t: State, now: Time) {
    t == s || t.rooms.Keys <= Swept(s, now).rooms.Keys
  }

  lemma CreateAfterSweep(s: State, actor: string, id: RoomId, invite: string, token: string, now: Time)
    ensures var t := Create(s, actor, id, invite, token, now).state;
      t == s || t.rooms.Keys <= Swept(s, now).rooms.Keys + {id}
  {
    hide Swept, Total;
  }

  lemma GrantsAfterSweep(s: State, r: RoomId, actor: string, invite: string, token: string, now: Time)
    ensures AddsNone(s, Join(s, r, actor, invite, token, now).state, now)
    ensures AddsNone(s, Renew(s, r, actor, token, now).state, now)
    ensures AddsNone(s, Revoke(s, r, actor, now).state, now)
  {
    hide Swept, Total;
  }

  lemma SocketsAfterSweep(s: State, r: RoomId, p: PeerId, token: string, now: Time)
    ensures AddsNone(s, Attach(s, r, token, p, now).state, now)
    ensures AddsNone(s, Reauthenticate(s, p, token, now).state, now)
  {
    hide Swept, Total, Admitted, Announce;
  }

  lemma EventsAfterSweep(s: State, p: PeerId, data: Bytes, wellFormed: bool, kind: string, now: Time)
    ensures AddsNone(s, Publish(s, p, data, wellFormed, now).state, now)
    ensures AddsNone(s, Activity(s, p, kind, now).state, now)
    ensures AddsNone(s, ShowPresence(s, p, data, wellFormed, now).state, now)
  {
    hide Swept, Total, Announce;
  }

  // The steps that sweep first add no room but the one created.
  lemma StepAfterSweep(s: State, a: Action, now: Time)
    requires !a.DoDetach? && !a.DoRead? && !a.DoReadEnded?
    ensures Step(s, a, now) == s ||
      Step(s, a, now).rooms.Keys <= Swept(s, now).rooms.Keys + (if a.DoCreate? then {a.id} else {})
  {
    hide Swept, Create, Join, Renew, Revoke, Attach, Reauthenticate, Publish, Activity, ShowPresence;
    match a
    case DoCreate(actor, id, invite, token) => CreateAfterSweep(s, actor, id, invite, token, now);
    case DoJoin(r, actor, invite, token) => GrantsAfterSweep(s, r, actor, invite, token, now);
    case DoRenew(r, actor, token) => GrantsAfterSweep(s, r, actor, "", token, now);
    case DoRevoke(r, actor) => GrantsAfterSweep(s, r, actor, "", "", now);
    case DoAttach(r, token, p) => SocketsAfterSweep(s, r, p, token, now);
    case DoReauthenticate(p, token) => SocketsAfterSweep(s, "", p, token, now);
    case DoPublish(p, source, wellFormed) => EventsAfterSweep(s, p, source, wellFormed, "", now);
    case DoActivity(p, kind) => EventsAfterSweep(s, p, [], true, kind, now);
    case DoPresence(p, value, wellFormed) => EventsAfterSweep(s, p, value, wellFormed, "", now);
    case _ =>
  }

  lemma SameDeadlines(room: Room, other: Room, now: Time)
    requires other.idle == room.idle && other.pending == room.pending && other.online == room.online
    ensures Overdue(other, now) == Overdue(room, now)
  {
  }

  lemma OverThroughDetach(s: State, r: RoomId, p: PeerId, now: Time)
    requires Valid(s) && Over(s, r, now)
    ensures Over(Detach(s, p, now), r, now)
  {
    hide RoomsValid, PeersValid, Mailboxes, Total, Announce, TerminateAll, Staffed, Overdue;
    var t := Detach(s, p, now);
    if r in t.rooms && Overdue(s.rooms[r], now) == None {
      var q :| Hosts(s.rooms, s.peers, r, q) && s.peers[q].expires <= now;
      assert Hosts(t.rooms, t.peers, r, q);
      assert RoomFate(t, r, now).Some?;
    } else if r in t.rooms {
      SameDeadlines(s.rooms[r], t.rooms[r], now);
    }
  }

  lemma OverThroughTake(s: State, r: RoomId, p: PeerId, now: Time)
    requires Over(s, r, now)
    ensures Over(Take(s, p), r, now) && Over(TakeEnded(s, p), r, now)
  {
    if r in s.rooms && Overdue(s.rooms[r], now) == None {
      var q :| Hosts(s.rooms, s.peers, r, q) && s.peers[q].expires <= now;
      assert Hosts(Take(s, p).rooms, Take(s, p).peers, r, q);
      assert Hosts(TakeEnded(s, p).rooms, TakeEnded(s, p).peers, r, q);
    }
  }

  lemma OverStays(s: State, used: set<RoomId>, a: Action, r: RoomId, t: Time, now: Time)
    requires Valid(s) && Fresh(s, used, a) && r in used && t <= now && Over(s, r, t)
    ensures Over(Step(s, a, now), r, now)
  {
    hide Valid, Swept, RoomFate, Detach, Take, TakeEnded, Create, Join, Renew, Revoke, Attach, Reauthenticate, Publish, Activity, ShowPresence;
    hide Unissued;
    OverLater(s, r, t, now);
    if a.DoDetach? {
      OverThroughDetach(s, r, a.peer, now);
    } else if a.DoRead? || a.DoReadEnded? {
      OverThroughTake(s, r, a.peer, now);
    } else {
      StepAfterSweep(s, a, now);
      OverIsSwept(s, r, now);
    }
  }

  // ---------------------------------------------------------------- whole runs

  datatype Timed = Timed(action: Action, at: Time)

  function Uses(a: Action): set<RoomId> {
    if a.DoCreate? then {a.id} else {}
  }

  ghost function After(s: State, run: seq<Timed>): State
    decreases |run|
  {
    if run == [] then s else After(Step(s, run[0].action, run[0].at), run[1..])
  }

  // The clock does not go back, and no room id or token is handed out twice: `used` and `spent` hold
  // those handed out so far.
  ghost predicate Legal(s: State, used: set<RoomId>, spent: set<string>, clock: Time, run: seq<Timed>)
    decreases |run|
  {
    run == [] ||
    (clock <= run[0].at && NeverSeen(s, used, spent, run[0].action) &&
     Legal(Step(s, run[0].action, run[0].at), used + Uses(run[0].action), spent + TokensOf(run[0].action), run[0].at, run[1..]))
  }

  function LastTime(clock: Time, run: seq<Timed>): Time {
    if run == [] then clock else run[|run| - 1].at
  }

  lemma StepRooms(s: State, a: Action, now: Time)
    requires Valid(s)
    ensures Step(s, a, now).rooms.Keys <= s.rooms.Keys + Uses(a)
  {
    hide Valid, Swept, Create, Join, Renew, Revoke, Attach, Reauthenticate, Publish, Activity, ShowPresence, Take, TakeEnded;
    SweptShrinks(s, now);
    if a.DoDetach? { DetachRooms(s, a.peer, now); }
    else if a.DoRead? || a.DoReadEnded? { TakeRooms(s, a.peer); }
    else { StepAfterSweep(s, a, now); }
  }

  lemma DetachRooms(s: State, p: PeerId, now: Time)
    ensures Detach(s, p, now).rooms.Keys <= s.rooms.Keys
  {
  }

  lemma TakeRooms(s: State, p: PeerId)
    ensures Take(s, p).rooms == s.rooms == TakeEnded(s, p).rooms
  {
  }

  lemma KnownKept(s: State, used: set<RoomId>, spent: set<string>, a: Action, now: Time)
    requires Valid(s) && Known(s, used, spent) && NeverSeen(s, used, spent, a)
    ensures Known(Step(s, a, now), used + Uses(a), spent + TokensOf(a))
  {
    hide Valid, Step, GrantsFrom, TokensKnown;
    StepRooms(s, a, now);
    StepGrants(s, a, now);
    TokensStayKnown(s, Step(s, a, now), spent, GiftOf(a));
  }

  // What the first step of a legal run keeps.
  lemma FirstStep(s: State, used: set<RoomId>, spent: set<string>, clock: Time, run: seq<Timed>)
    requires Valid(s) && Known(s, used, spent) && Legal(s, used, spent, clock, run) && run != []
    ensures var t := Step(s, run[0].action, run[0].at);
      && s.rooms.Keys <= used && Fresh(s, used, run[0].action) && clock <= run[0].at
      && Valid(t) && Known(t, used + Uses(run[0].action), spent + TokensOf(run[0].action))
      && Legal(t, used + Uses(run[0].action), spent + TokensOf(run[0].action), run[0].at, run[1..])
      && After(s, run) == After(t, run[1..])
  {
    hide Valid, Step, Unissued, NeverSeen, Granted, GrantOf;
    NeverSeenIsFresh(s, used, spent, run[0].action);
    StepKeepsValid(s, used, run[0].action, run[0].at);
    KnownKept(s, used, spent, run[0].action, run[0].at);
  }

  // In every reachable state of the relay the representation invariant holds.
  lemma {:induction false} RunKeepsValid(s: State, used: set<RoomId>, spent: set<string>, clock: Time, run: seq<Timed>)
    requires Valid(s) && Known(s, used, spent) && Legal(s, used, spent, clock, run)
    ensures Valid(After(s, run))
    decreases |run|
  {
    hide Valid, Step, Fresh, Known;
    if run != [] {
      FirstStep(s, used, spent, clock, run);
      RunKeepsValid(Step(s, run[0].action, run[0].at), used + Uses(run[0].action), spent + TokensOf(run[0].action), run[0].at, run[1..]);
    }
  }

  // A room that is over at some time is over after every later run, so `OverRefusesActors` and
  // `OverRefusesPeers` apply for good: it is never revived.
  lemma {:induction false} OverForGood(s: State, used: set<RoomId>, spent: set<string>, clock: Time, run: seq<Timed>, r: RoomId)
    requires Valid(s) && Known(s, used, spent) && Legal(s, used, spent, clock, run)
    requires r in used && Over(s, r, clock)
    ensures Over(After(s, run), r, LastTime(clock, run))
    decreases |run|
  {
    hide Valid, Step, Fresh, Over, Known, Legal;
    if run != [] {
      FirstStep(s, used, spent, clock, run);
      OverStays(s, used, run[0].action, r, clock, run[0].at);
      OverForGood(Step(s, run[0].action, run[0].at), used + Uses(run[0].action), spent + TokensOf(run[0].action), run[0].at, run[1..], r);
      assert LastTime(clock, run) == LastTime(run[0].at, run[1..]);
    }
  }

  // A removed subscriber keeps the one reason it was sent, however long the run.
  lemma {:induction false} ToldForGood(s: State, used: set<RoomId>, spent: set<string>, clock: Time, run: seq<Timed>, p: PeerId)
    requires Valid(s) && Known(s, used, spent) && Legal(s, used, spent, clock, run)
    requires p in s.channels && p !in s.peers
    ensures p !in After(s, run).peers && p in After(s, run).channels
    ensures After(s, run).channels[p].reasons == s.channels[p].reasons && |s.channels[p].reasons| == 1
    ensures After(s, run).channels[p].events == None
    decreases |run|
  {
    hide Step, Linked, Staffed, RoomsValid, PeersValid, Total, Fresh, SameRoom, SamePerson, Known, Legal;
    if run != [] {
      FirstStep(s, used, spent, clock, run);
      StepLasts(s, used, run[0].action, run[0].at);
      ToldForGood(Step(s, run[0].action, run[0].at), used + Uses(run[0].action), spent + TokensOf(run[0].action), run[0].at, run[1..], p);
    }
  }

  // ---------------------------------------------------------------- identity over whole runs

  // However long the run, a peer that is still attached has its room, actor and role.
  lemma {:induction false} PeerKeepsIdentity(s: State, used: set<RoomId>, spent: set<string>, clock: Time, run: seq<Timed>, p: PeerId)
    requires Valid(s) && Known(s, used, spent) && Legal(s, used, spent, clock, run)
    requires p in s.peers && p in After(s, run).peers
    ensures SamePerson(s.peers[p], After(s, run).peers[p])
    decreases |run|
  {
    hide Valid, Step, Fresh, SameRoom, Known, Legal;
    if run != [] {
      var t := Step(s, run[0].action, run[0].at);
      FirstStep(s, used, spent, clock, run);
      StepLasts(s, used, run[0].action, run[0].at);
      HasChannel(s, p);
      if p !in t.peers {
        ToldForGood(t, used + Uses(run[0].action), spent + TokensOf(run[0].action), run[0].at, run[1..], p);
      } else {
        PeerKeepsIdentity(t, used + Uses(run[0].action), spent + TokensOf(run[0].action), run[0].at, run[1..], p);
      }
    }
  }

  lemma HasChannel(s: State, p: PeerId)
    requires Valid(s) && p in s.peers
    ensures p in s.channels
  {
    hide Linked, Staffed, RoomsValid, PeersValid, Total;
  }

  // The id of a room that is gone does not come back.
  lemma {:induction false} RoomStaysGone(s: State, used: set<RoomId>, spent: set<string>, clock: Time, run: seq<Timed>, r: RoomId)
    requires Valid(s) && Known(s, used, spent) && Legal(s, used, spent, clock, run) && r in used && r !in s.rooms
    ensures r !in After(s, run).rooms
    decreases |run|
  {
    hide Valid, Step, Fresh, Known;
    if run != [] {
      FirstStep(s, used, spent, clock, run);
      StepRooms(s, run[0].action, run[0].at);
      RoomStaysGone(Step(s, run[0].action, run[0].at), used + Uses(run[0].action), spent + TokensOf(run[0].action), run[0].at, run[1..], r);
    }
  }

  lemma SameRoomTwice(a: Room, b: Room, c: Room)
    requires SameRoom(a, b) && SameRoom(b, c)
    ensures SameRoom(a, c)
  {
  }

  // However long the run, a room that is still there has its host and its invite, and every grant it
  // had is for the same actor in the same role.
  lemma {:induction false} RoomKeepsIdentity(s: State, used: set<RoomId>, spent: set<string>, clock: Time, run: seq<Timed>, r: RoomId)
    requires Valid(s) && Known(s, used, spent) && Legal(s, used, spent, clock, run)
    requires r in s.rooms && r in After(s, run).rooms
    ensures SameRoom(s.rooms[r], After(s, run).rooms[r])
    decreases |run|
  {
    hide Valid, Step, Fresh, Known, Legal, SocketsKept, SamePerson;
    if run != [] {
      var t := Step(s, run[0].action, run[0].at);
      FirstStep(s, used, spent, clock, run);
      StepLasts(s, used, run[0].action, run[0].at);
      if r !in t.rooms {
        RoomStaysGone(t, used + Uses(run[0].action), spent + TokensOf(run[0].action), run[0].at, run[1..], r);
      } else {
        RoomKeepsIdentity(t, used + Uses(run[0].action), spent + TokensOf(run[0].action), run[0].at, run[1..], r);
        SameRoomTwice(s.rooms[r], t.rooms[r], After(s, run).rooms[r]);
      }
    }
  }

  // ---------------------------------------------------------------- superseded tokens

  // A token that was handed out and is in no grant is never in one again.
  lemma {:induction false} TokenStaysGone(s: State, used: set<RoomId>, spent: set<string>, clock: Time, run: seq<Timed>, former: string)
    requires Valid(s) && Known(s, used, spent) && Legal(s, used, spent, clock, run)
    requires former in spent && Unissued(s, former)
    ensures Unissued(After(s, run), former)
    decreases |run|
  {
    hide Valid, Step, Fresh, Known, Unissued;
    if run != [] {
      FirstStep(s, used, spent, clock, run);
      StepGrants(s, run[0].action, run[0].at);
      StillUnissuedAfter(s, Step(s, run[0].action, run[0].at), GiftOf(run[0].action), former);
      TokenStaysGone(Step(s, run[0].action, run[0].at), used + Uses(run[0].action), spent + TokensOf(run[0].action), run[0].at, run[1..], former);
    }
  }

  lemma StillUnissuedAfter(s: State, t: State, gift: Gift, former: string)
    requires GrantsFrom(s, t, gift) && Unissued(s, former) && (gift.Token? ==> gift.token != former)
    ensures Unissued(t, former)
  {
    forall r, actor | r in t.rooms && actor in t.rooms[r].grants ensures t.rooms[r].grants[actor].token != former {
      assert Granted(t, r, actor);
    }
  }

  lemma UnissuedIsRefused(s: State, token: string, q: RoomId, later: Time)
    requires Unissued(s, token) && q in s.rooms
    ensures Admitted(s.rooms[q], token, later) == None
  {
  }

  // The action gives the actor of a room a new token.
  ghost predicate Reissues(s: State, step: Timed, r: RoomId, actor: string) {
    match step.action
    case DoJoin(q, who, invite, token) => q == r && who == actor && Join(s, r, actor, invite, token, step.at).outcome.Ok?
    case DoRenew(q, who, token) => q == r && who == actor && Renew(s, r, actor, token, step.at).outcome.Ok?
    case _ => false
  }

  lemma ReissuedHere(s: State, step: Timed, r: RoomId, actor: string)
    requires Reissues(s, step, r, actor)
    ensures GiftOf(step.action).Token? && Granted(Step(s, step.action, step.at), r, actor)
    ensures GrantOf(Step(s, step.action, step.at), r, actor).token == GiftOf(step.action).token
  {
    hide Swept;
  }

  lemma ReissueDrops(s: State, used: set<RoomId>, spent: set<string>, step: Timed, r: RoomId, actor: string)
    requires Known(s, used, spent) && NeverSeen(s, used, spent, step.action) && Reissues(s, step, r, actor) && Granted(s, r, actor)
    ensures Unissued(Step(s, step.action, step.at), GrantOf(s, r, actor).token)
  {
    hide Step, Reissues;
    var t, former := Step(s, step.action, step.at), GrantOf(s, r, actor).token;
    StepGrants(s, step.action, step.at);
    ReissuedHere(s, step, r, actor);
    forall q, x | q in t.rooms && x in t.rooms[q].grants ensures t.rooms[q].grants[x].token != former {
      assert Granted(t, q, x);
      assert Granted(s, q, x) && GrantOf(s, q, x).token == former ==> SameToken(s, q, x, r, actor);
    }
  }

  // Only the latest token of an actor is ever admitted: once a new one was issued, then after every
  // later run the one before it is good for no grant of any room at any time.
  lemma NewTokenSupersedes(s: State, used: set<RoomId>, spent: set<string>, clock: Time, run: seq<Timed>, r: RoomId, actor: string, q: RoomId, later: Time)
    requires Valid(s) && Known(s, used, spent) && Legal(s, used, spent, clock, run) && run != []
    requires Granted(s, r, actor) && Reissues(s, run[0], r, actor) && q in After(s, run).rooms
    ensures Admitted(After(s, run).rooms[q], GrantOf(s, r, actor).token, later) == None
  {
    hide Valid, Step, Fresh, Reissues, Unissued, NeverSeen;
    FirstStep(s, used, spent, clock, run);
    ReissueDrops(s, used, spent, run[0], r, actor);
    TokenStaysGone(Step(s, run[0].action, run[0].at), used + Uses(run[0].action), spent + TokensOf(run[0].action), run[0].at, run[1..], GrantOf(s, r, actor).token);
    UnissuedIsRefused(After(s, run), GrantOf(s, r, actor).token, q, later);
  }

  // So neither a new socket nor an attached one gets anywhere with it.
  lemma SupersededTokenIsUseless(s: State, token: string, q: RoomId, p: PeerId, now: Time)
    requires Unissued(s, token)
    ensures Attach(s, q, token, p, now).outcome.Err? && Reauthenticate(s, p, token, now).outcome.Err?
  {
    hide Swept, Unissued;
    var t := Swept(s, now);
    SweptGrants(s, now);
    StillUnissuedAfter(s, t, Nothing, token);
    forall r | r in t.rooms ensures Admitted(t.rooms[r], token, now) == None { UnissuedIsRefused(t, token, r, now); }
  }

  // ---------------------------------------------------------------- tokens and deadlines

  // Nothing but a publication or an activity frame moves the idle deadline of a room.
  lemma OnlyActivityMovesIdle(s: State, used: set<RoomId>, a: Action, now: Time, r: RoomId)
    requires Valid(s) && s.rooms.Keys <= used && Fresh(s, used, a) && !a.DoPublish? && !a.DoActivity?
    requires r in s.rooms && r in Step(s, a, now).rooms
    ensures Step(s, a, now).rooms[r].idle == s.rooms[r].idle
  {
    hide Valid, Total, Admitted, Announce, Swept, SameRoom, Unissued;
    SweptQuiet(s, now);
    if IsQuiet(a) { QuietStep(s, used, a, now); }
  }

  // So over any run without them the deadline of a room that is still there has not moved.
  lemma {:induction false} IdleStaysWithoutActivity(s: State, used: set<RoomId>, spent: set<string>, clock: Time, run: seq<Timed>, r: RoomId)
    requires Valid(s) && Known(s, used, spent) && Legal(s, used, spent, clock, run)
    requires forall i :: 0 <= i < |run| ==> !run[i].action.DoPublish? && !run[i].action.DoActivity?
    requires r in s.rooms && r in After(s, run).rooms
    ensures After(s, run).rooms[r].idle == s.rooms[r].idle
    decreases |run|
  {
    hide Valid, Step, Fresh, Known, Legal;
    if run != [] {
      var t := Step(s, run[0].action, run[0].at);
      FirstStep(s, used, spent, clock, run);
      if r !in t.rooms {
        RoomStaysGone(t, used + Uses(run[0].action), spent + TokensOf(run[0].action), run[0].at, run[1..], r);
      } else {
        OnlyActivityMovesIdle(s, used, run[0].action, run[0].at, r);
        IdleStaysWithoutActivity(t, used + Uses(run[0].action), spent + TokensOf(run[0].action), run[0].at, run[1..], r);
      }
    }
  }

  // An interaction or a publication gives its room thirty minutes, to the instant.
  lemma InteractionLastsThirtyMinutes(s: State, p: PeerId, kind: string, source: Bytes, wellFormed: bool, now: Time, later: Time)
    requires Valid(s) && p in Swept(s, now).peers
    ensures var r := Swept(s, now).peers[p].room;
      && (Activity(s, p, kind, now).outcome.Ok? ==>
            r in Activity(s, p, kind, now).state.rooms &&
            (Overdue(Activity(s, p, kind, now).state.rooms[r], later) == Some(IdleTimeout) <==> now + IDLE_TIMEOUT <= later))
      && (Publish(s, p, source, wellFormed, now).outcome.Ok? ==>
            r in Publish(s, p, source, wellFormed, now).state.rooms &&
            (Overdue(Publish(s, p, source, wellFormed, now).state.rooms[r], later) == Some(IdleTimeout) <==> now + IDLE_TIMEOUT <= later))
  {
    hide Valid, Swept, Announce, Total;
  }

  // A new room waits ten seconds for its host.
  lemma NewRoomWaitsTenSeconds(s: State, actor: string, id: RoomId, invite: string, token: string, now: Time, later: Time)
    requires Create(s, actor, id, invite, token, now).outcome.Ok?
    ensures var t := Create(s, actor, id, invite, token, now).state;
      id in t.rooms && (later < now + IDLE_TIMEOUT ==> (Overdue(t.rooms[id], later) == Some(HostAbsent) <==> now + PENDING_TIMEOUT <= later))
  {
    hide Swept, Total;
  }

  // A token is good for five minutes from its issue, for the actor and role it was issued to.
  lemma TokenLastsFiveMinutes(s: State, r: RoomId, actor: string, role: Role, token: string, now: Time, later: Time)
    requires Valid(s) && r in s.rooms && Unissued(s, token) && |token| == 64
    requires role == (if actor == s.rooms[r].host then Host else Viewer)
    ensures var g := Admitted(Issue(s, r, actor, role, token, now).state.rooms[r], token, later);
      if later < now + TOKEN_TTL then g == Some(Grant(actor, role, token, now + TOKEN_TTL)) else g == None
  {
    hide Linked, Staffed, PeersValid, Mailboxes, Total, Admitted, Admits;
    GrantLasts(s.rooms[r], actor, Grant(actor, role, token, now + TOKEN_TTL), later);
  }

  lemma GrantLasts(room: Room, actor: string, g: Grant, later: Time)
    requires GrantsValid(room.host, room.grants) && g.actor == actor && |g.token| == 64
    requires forall a :: a in room.grants ==> room.grants[a].token != g.token
    ensures Admitted(room.(grants := room.grants[actor := g]), g.token, later) == if later < g.expires then Some(g) else None
  {
    hide GrantsValid;
    var next := room.(grants := room.grants[actor := g]);
    assert forall a :: Admits(next, g.token, later, a) ==> a == actor;
    if later < g.expires { assert Admits(next, g.token, later, actor); }
  }
}
