/** Presence in one collaboration room: who owns which presence ID, which clocks are broadcast, and
    what every member has been shown. A member is one socket; it is never reused. */
module Presence {
  type Member = nat
  type User = string
  type Fields = map<string, string>   // a JSON object, by raw value

  const MAX_ID := 0x1F_FFFF_FFFF_FFFF  // 2^53 - 1
  const MAX_ENTRIES := 5

  // What a presence says: nothing any more, or an object.
  datatype Content = Gone | Shown(fields: Fields)

  // A state string as the client wrote it.
  datatype Text = NullText | ObjectText(fields: Fields) | OtherText

  // One entry of an awareness message. `unreachable` are the recipients whose recheck or write
  // fails if the entry is broadcast.
  datatype Entry = Entry(id: nat, clock: nat, text: Text, unreachable: set<Member>)

  // A decoded message: how many entries it announces, the entries it holds, and whether bytes follow.
  datatype Message = Message(count: nat, entries: seq<Entry>, trailing: bool)

  datatype Sight = Sight(id: nat, clock: nat, content: Content)

  // What a socket shows by presence ID: a frame has nothing else to tell whose it is.
  type View = map<nat, Sight>

  datatype Seat = Seat(user: User, ready: bool, stopped: bool, now: Sight, view: View)

  type Seats = map<Member, Seat>

  // `last` marks the tombstone of a member that leaves.
  datatype Broadcast = Broadcast(source: Member, sight: Sight, last: bool)

  // `users` names everyone who ever joined; `log` is what was broadcast, in order.
  datatype Room = Room(seats: Seats, failed: bool, users: map<Member, User>, log: seq<Broadcast>)

  const NOTHING := Sight(0, 0, Gone)

  function Empty(): Room {
    Room(map[], false, map[], [])
  }

  // ---------------------------------------------------------------- operations

  predicate Taken(seats: Seats, p: Member, id: nat) {
    exists q :: q in seats && q != p && seats[q].now.id == id
  }

  datatype Verdict = Refuse | Skip | Take(sight: Sight)

  function Judge(seats: Seats, p: Member, e: Entry): Verdict
    requires p in seats
  {
    var own := seats[p].now;
    if e.id == 0 || e.id > MAX_ID || e.clock > MAX_ID - 1 then Refuse
    else if e.text.NullText? && e.id != own.id then Skip
    else if own.id != 0 && e.id != own.id then Refuse
    else if Taken(seats, p, e.id) then Refuse
    else if own.id != 0 && e.clock <= own.clock then Skip
    else match e.text
      case NullText => Take(Sight(e.id, e.clock, Gone))
      case ObjectText(fields) => Take(Sight(e.id, e.clock, Shown(fields["user" := seats[p].user])))
      case OtherText => Refuse
  }

  // Every admitted member but the source is shown its presence, or stopped.
  function Told(seats: Seats, p: Member, sight: Sight, unreachable: set<Member>): Seats {
    map q | q in seats ::
      if q == p || !seats[q].ready then seats[q]
      else if q in unreachable || seats[q].stopped then seats[q].(stopped := true)
      else seats[q].(view := seats[q].view[sight.id := sight])
  }

  function Announce(room: Room, p: Member, sight: Sight, unreachable: set<Member>): Room
    requires p in room.seats
  {
    room.(seats := Told(room.seats[p := room.seats[p].(now := sight)], p, sight, unreachable),
          log := room.log + [Broadcast(p, sight, false)])
  }

  function Stop(room: Room, p: Member): Room {
    if p in room.seats then room.(seats := room.seats[p := room.seats[p].(stopped := true)]) else room
  }

  // Entries take effect one by one; the first refused one ends the socket, and what came before stays.
  function Entries(room: Room, p: Member, entries: seq<Entry>): (Room, bool)
    requires p in room.seats
    decreases |entries|
  {
    if entries == [] then (room, true)
    else match Judge(room.seats, p, entries[0])
      case Refuse => (room, false)
      case Skip => Entries(room, p, entries[1..])
      case Take(sight) => Entries(Announce(room, p, sight, entries[0].unreachable), p, entries[1..])
  }

  function Counted(m: Message): seq<Entry> {
    if m.count <= |m.entries| then m.entries[..m.count] else m.entries
  }

  // `allowed` is the outcome of the access check that precedes.
  function Awareness(room: Room, p: Member, allowed: bool, m: Message): Room {
    if p !in room.seats || !room.seats[p].ready then room
    else if !allowed || m.count > MAX_ENTRIES || room.failed then Stop(room, p)
    else
      var r := Entries(room, p, Counted(m));
      if r.1 && m.count == |m.entries| && !m.trailing then r.0 else Stop(r.0, p)
  }

  function Enter(room: Room, p: Member, user: User): Room {
    if p in room.users || room.failed then room
    else room.(seats := room.seats[p := Seat(user, false, false, NOTHING, map[])], users := room.users[p := user])
  }

  function Ids(seats: Seats, among: set<Member>): set<nat> {
    set q | q in seats && q in among && seats[q].now.id != 0 :: seats[q].now.id
  }

  ghost function NowOf(seats: Seats, among: set<Member>, id: nat): Sight
    requires id in Ids(seats, among)
  {
    var q :| q in seats && q in among && seats[q].now.id == id;
    seats[q].now
  }

  // The presences of these members. No two have one ID, so the choice is forced.
  ghost function Presences(seats: Seats, among: set<Member>): View {
    map id | id in Ids(seats, among) :: NowOf(seats, among, id)
  }

  // A member becomes ready and is shown everyone else; `sent` is whether every write succeeded.
  ghost function MakeReady(room: Room, p: Member, sent: bool): Room {
    if p !in room.seats || room.seats[p].ready then room
    else if room.failed then Stop(room, p)
    else
      var seat := room.seats[p].(ready := true);
      room.(seats := room.seats[p := if sent then seat.(view := seat.view + Presences(room.seats, room.seats.Keys - {p})) else seat.(stopped := true)])
  }

  // A client asks for everyone's presence, its own included.
  ghost function Query(room: Room, p: Member, allowed: bool, sent: bool): Room {
    if p !in room.seats || !room.seats[p].ready then room
    else if !allowed || !sent then Stop(room, p)
    else room.(seats := room.seats[p := room.seats[p].(view := room.seats[p].view + Presences(room.seats, room.seats.Keys))])
  }

  function Tombstone(sight: Sight): Sight {
    Sight(sight.id, sight.clock + 1, Gone)
  }

  function Leave(room: Room, p: Member, unreachable: set<Member>): Room {
    if p !in room.seats then room
    else
      var seats := room.seats - {p};
      var now := room.seats[p].now;
      if now.id == 0 then room.(seats := seats)
      else room.(seats := Told(seats, p, Tombstone(now), unreachable), log := room.log + [Broadcast(p, Tombstone(now), true)])
  }

  function Abort(room: Room): Room {
    room.(failed := true, seats := map q | q in room.seats :: room.seats[q].(stopped := true))
  }

  datatype Step =
    | DoEnter(p: Member, user: User)
    | DoReady(p: Member, sent: bool)
    | DoAwareness(p: Member, allowed: bool, m: Message)
    | DoQuery(p: Member, allowed: bool, sent: bool)
    | DoLeave(p: Member, unreachable: set<Member>)
    | DoStop(p: Member)
    | DoAbort

  ghost function Next(room: Room, step: Step): Room {
    match step
    case DoEnter(p, user) => Enter(room, p, user)
    case DoReady(p, sent) => MakeReady(room, p, sent)
    case DoAwareness(p, allowed, m) => Awareness(room, p, allowed, m)
    case DoQuery(p, allowed, sent) => Query(room, p, allowed, sent)
    case DoLeave(p, unreachable) => Leave(room, p, unreachable)
    case DoStop(p) => Stop(room, p)
    case DoAbort => Abort(room)
  }

  ghost function Run(room: Room, run: seq<Step>): Room
    decreases |run|
  {
    if run == [] then room else Run(Next(room, run[0]), run[1..])
  }

  // ---------------------------------------------------------------- the invariant

  predicate Owned(seats: Seats) {
    forall p, q :: p in seats && q in seats && p != q && seats[p].now.id != 0 ==> seats[p].now.id != seats[q].now.id
  }

  predicate InRange(seats: Seats) {
    forall p :: p in seats ==> seats[p].now.id <= MAX_ID && seats[p].now.clock <= MAX_ID - 1
  }

  predicate Named(seats: Seats, users: map<Member, User>) {
    forall p :: p in seats ==> p in users && users[p] == seats[p].user
  }

  // A served member has been shown the current presence of every other, and an ID that it shows as
  // present is somebody's.
  ghost predicate Current(v: Member, seat: Seat, seats: Seats) {
    && (forall q :: q in seats && q != v && seats[q].now.id != 0 ==> seats[q].now.id in seat.view && seat.view[seats[q].now.id] == seats[q].now)
    && (forall id :: id in seat.view && seat.view[id].content.Shown? ==> Present(seats, id))
  }

  ghost predicate Present(seats: Seats, id: nat) {
    exists q :: q in seats && seats[q].now.id == id
  }

  ghost predicate AllCurrent(seats: Seats) {
    forall v :: v in seats && seats[v].ready && !seats[v].stopped ==> Current(v, seats[v], seats)
  }

  predicate Unshown(seats: Seats) {
    forall v :: v in seats && !seats[v].ready ==> seats[v].view == map[]
  }

  // Only presences with an ID were ever shown.
  predicate Numbered(seats: Seats) {
    forall v :: v in seats ==> 0 !in seats[v].view
  }

  ghost predicate Views(seats: Seats) {
    AllCurrent(seats) && Unshown(seats) && Numbered(seats)
  }

  // Broadcasts of one member keep its ID, and their clocks increase up to the tombstone.
  predicate Ordered(log: seq<Broadcast>) {
    forall i, j :: 0 <= i < j < |log| && log[i].source == log[j].source ==>
      log[i].sight.id == log[j].sight.id && log[i].sight.clock < log[j].sight.clock && !log[i].last
  }

  predicate Behind(b: Broadcast, seats: Seats, users: map<Member, User>) {
    && b.source in users
    && 0 < b.sight.id <= MAX_ID && b.sight.clock <= MAX_ID
    && (b.source in seats ==>
          !b.last && seats[b.source].now.id == b.sight.id && b.sight.clock <= seats[b.source].now.clock)
    && (b.sight.content.Shown? ==>
          "user" in b.sight.content.fields && b.sight.content.fields["user"] == users[b.source])
  }

  predicate Logged(log: seq<Broadcast>, seats: Seats, users: map<Member, User>) {
    forall i :: 0 <= i < |log| ==> Behind(log[i], seats, users)
  }

  ghost predicate Inv(room: Room) {
    && Owned(room.seats)
    && InRange(room.seats)
    && Named(room.seats, room.users)
    && Views(room.seats)
    && Ordered(room.log)
    && Logged(room.log, room.seats, room.users)
  }

  // ---------------------------------------------------------------- frames

  // Seats that show the same presences.
  predicate SameNow(seats: Seats, seats': Seats) {
    && seats'.Keys == seats.Keys
    && (forall p :: p in seats ==> seats'[p].now == seats[p].now && seats'[p].user == seats[p].user)
  }

  lemma SameNowKeeps(room: Room, seats: Seats)
    requires Inv(room) && SameNow(room.seats, seats)
    ensures Owned(seats) && InRange(seats) && Named(seats, room.users) && Logged(room.log, seats, room.users)
  {
    hide Views, Ordered;
  }

  lemma OthersFrame(v: Member, seat: Seat, seats: Seats, seats': Seats)
    requires SameNow(seats, seats') && Current(v, seat, seats)
    ensures Current(v, seat, seats')
  {
    forall id | id in seat.view && seat.view[id].content.Shown? ensures Present(seats', id) {
      var q :| q in seats && seats[q].now.id == id;
      assert seats'[q].now.id == id;
    }
  }

  lemma StopViews(seats: Seats, p: Member)
    requires Views(seats) && p in seats
    ensures Views(seats[p := seats[p].(stopped := true)])
  {
    hide Current;
    var seats' := seats[p := seats[p].(stopped := true)];
    forall v | v in seats' && seats'[v].ready && !seats'[v].stopped ensures Current(v, seats'[v], seats') {
      OthersFrame(v, seats[v], seats, seats');
    }
  }

  lemma StopKeeps(room: Room, p: Member)
    requires Inv(room)
    ensures Inv(Stop(room, p))
  {
    hide Owned, InRange, Named, Views, Ordered, Logged;
    if p in room.seats {
      SameNowKeeps(room, Stop(room, p).seats);
      StopViews(room.seats, p);
    }
  }

  lemma AbortKeeps(room: Room)
    requires Inv(room)
    ensures Inv(Abort(room))
  {
    hide Owned, InRange, Named, Ordered, Logged;
    SameNowKeeps(room, Abort(room).seats);
  }

  lemma EnterKeeps(room: Room, p: Member, user: User)
    requires Inv(room)
    ensures Inv(Enter(room, p, user))
  {
    hide Views;
    if p !in room.users && !room.failed { EnterViews(room, p, user); }
  }

  lemma EnterViews(room: Room, p: Member, user: User)
    requires Inv(room) && p !in room.users && !room.failed
    ensures Views(Enter(room, p, user).seats)
  {
    hide Ordered, Logged, Owned, InRange, AllCurrent;
    assert p !in room.seats;
    EnterCurrent(room.seats, p, Enter(room, p, user).seats[p]);
  }

  lemma EnterCurrent(seats: Seats, p: Member, seat: Seat)
    requires AllCurrent(seats) && p !in seats && seat.now.id == 0 && !seat.ready
    ensures AllCurrent(seats[p := seat])
  {
    forall v, id | v in seats && id in seats[v].view && Present(seats, id) ensures Present(seats[p := seat], id) {
      var q :| q in seats && seats[q].now.id == id;
      assert seats[p := seat][q].now.id == id;
    }
  }

  // A member is shown the presences in `seen`, all of them current.
  lemma ShownKeeps(room: Room, p: Member, seat: Seat)
    requires Inv(room) && p in room.seats && seat.now == room.seats[p].now && seat.user == room.seats[p].user && seat.ready
    requires 0 !in seat.view
    requires seat.stopped || Current(p, seat, room.seats)
    ensures Inv(room.(seats := room.seats[p := seat]))
  {
    hide Owned, InRange, Named, Ordered, Logged, Current;
    var seats' := room.seats[p := seat];
    SameNowKeeps(room, seats');
    forall v | v in seats' && seats'[v].ready && !seats'[v].stopped ensures Current(v, seats'[v], seats') {
      OthersFrame(v, seats'[v], room.seats, seats');
    }
  }

  lemma PresenceOf(seats: Seats, among: set<Member>, q: Member)
    requires Owned(seats) && q in seats && q in among && seats[q].now.id != 0
    ensures seats[q].now.id in Presences(seats, among) && Presences(seats, among)[seats[q].now.id] == seats[q].now
  {
  }

  lemma PresencesMore(seats: Seats, among: set<Member>, q: Member)
    requires Owned(seats) && q in seats
    ensures Presences(seats, among + {q}) ==
      if seats[q].now.id == 0 then Presences(seats, among) else Presences(seats, among)[seats[q].now.id := seats[q].now]
  {
    hide Presences, Owned;
    var more := if seats[q].now.id == 0 then Presences(seats, among) else Presences(seats, among)[seats[q].now.id := seats[q].now];
    forall id ensures id in Presences(seats, among + {q}) <==> id in more { KeysAreIds(seats, among, id); KeysAreIds(seats, among + {q}, id); }
    forall id | id in more ensures Presences(seats, among + {q})[id] == more[id] {
      KeysAreIds(seats, among, id);
      KeysAreIds(seats, among + {q}, id);
      var k :| k in seats && k in among + {q} && seats[k].now.id == id && id != 0;
      PresenceOf(seats, among + {q}, k);
      if id == seats[q].now.id { PresenceOf(seats, among + {q}, q); }
      else { PresenceOf(seats, among, k); }
    }
  }

  lemma NoPresences(seats: Seats)
    ensures Presences(seats, {}) == map[]
  {
    assert Ids(seats, {}) == {};
  }

  lemma OwnedHere(room: Room)
    requires Inv(room)
    ensures Owned(room.seats)
  {
  }

  lemma KeysAreIds(seats: Seats, among: set<Member>, id: nat)
    ensures id in Presences(seats, among) <==> exists q :: q in seats && q in among && seats[q].now.id == id && id != 0
  {
    if id in Presences(seats, among) { var q :| q in seats && q in among && seats[q].now.id != 0 && seats[q].now.id == id; }
  }

  // Being shown the presences of all others makes a view current, whatever it held before of those present.
  lemma ShownIsCurrent(seats: Seats, p: Member, seat: Seat, before: View, among: set<Member>)
    requires Owned(seats) && seats.Keys - {p} <= among && seat.view == before + Presences(seats, among)
    requires forall id :: id in before && before[id].content.Shown? ==> Present(seats, id)
    requires 0 !in before
    ensures Current(p, seat, seats) && 0 !in seat.view
  {
    hide Presences, Owned;
    forall q | q in seats && q != p && seats[q].now.id != 0
      ensures seats[q].now.id in seat.view && seat.view[seats[q].now.id] == seats[q].now
    {
      PresenceOf(seats, among, q);
    }
    forall id | id in seat.view && seat.view[id].content.Shown? ensures Present(seats, id) { KeysAreIds(seats, among, id); }
    KeysAreIds(seats, among, 0);
  }

  lemma ReadyKeeps(room: Room, p: Member, sent: bool)
    requires Inv(room)
    ensures Inv(MakeReady(room, p, sent))
  {
    hide Owned, InRange, Ordered, Logged, Presences, Current, AllCurrent;
    if p in room.seats && !room.seats[p].ready {
      if room.failed { StopKeeps(room, p); }
      else {
        var seat := MakeReady(room, p, sent).seats[p];
        if sent { ShownIsCurrent(room.seats, p, seat, map[], room.seats.Keys - {p}); }
        ShownKeeps(room, p, seat);
      }
    }
  }

  lemma QueryKeeps(room: Room, p: Member, allowed: bool, sent: bool)
    requires Inv(room)
    ensures Inv(Query(room, p, allowed, sent))
  {
    hide Owned, InRange, Ordered, Logged, Presences;
    if p in room.seats && room.seats[p].ready {
      if !allowed || !sent { StopKeeps(room, p); }
      else {
        var seat := Query(room, p, allowed, sent).seats[p];
        if seat.stopped { KeysAreIds(room.seats, room.seats.Keys, 0); }
        else { ShownIsCurrent(room.seats, p, seat, room.seats[p].view, room.seats.Keys); }
        ShownKeeps(room, p, seat);
      }
    }
  }

  // ---------------------------------------------------------------- broadcasts

  // `before` is the room without the broadcast, `seats` holds the source's new presence or lacks the
  // source. Nobody else has the ID.
  predicate Changed(before: Seats, seats: Seats, p: Member, sight: Sight) {
    && (forall q :: q in seats && q != p ==> q in before && seats[q] == before[q])
    && (forall q :: q in before && q != p ==> q in seats && before[q].now.id != sight.id)
    && p in before && sight.id != 0 && (before[p].now.id == 0 || before[p].now.id == sight.id)
    && (if p in seats then seats[p] == before[p].(now := sight) else sight.content == Gone)
  }

  lemma StillPresent(before: Seats, seats: Seats, p: Member, sight: Sight, id: nat)
    requires Changed(before, seats, p, sight) && Present(before, id) && id != 0 && (id == sight.id ==> p in seats)
    ensures Present(seats, id)
  {
    var q :| q in before && before[q].now.id == id;
    if q != p { assert seats[q].now.id == id; }
    else { assert seats[p].now.id == id; }
  }

  lemma ToldOne(before: Seats, seats: Seats, p: Member, sight: Sight, unreachable: set<Member>, v: Member)
    requires Changed(before, seats, p, sight)
    requires v in seats && Told(seats, p, sight, unreachable)[v].ready && !Told(seats, p, sight, unreachable)[v].stopped
    requires Current(v, before[v], before) && 0 !in before[v].view
    ensures Current(v, Told(seats, p, sight, unreachable)[v], Told(seats, p, sight, unreachable))
  {
    hide Present;
    var told := Told(seats, p, sight, unreachable);
    forall id | id in told[v].view && told[v].view[id].content.Shown? ensures Present(told, id) {
      if v != p && id == sight.id { IsPresent(told, p); }
      else {
        if id == sight.id { IsPresent(seats, p); } else { StillPresent(before, seats, p, sight, id); }
        ToldPresent(seats, p, sight, unreachable, id);
      }
    }
  }

  lemma IsPresent(seats: Seats, p: Member)
    requires p in seats
    ensures Present(seats, seats[p].now.id)
  {
  }

  lemma ToldPresent(seats: Seats, p: Member, sight: Sight, unreachable: set<Member>, id: nat)
    requires Present(seats, id)
    ensures Present(Told(seats, p, sight, unreachable), id)
  {
    var q :| q in seats && seats[q].now.id == id;
    assert Told(seats, p, sight, unreachable)[q].now.id == id;
  }

  lemma ToldViews(before: Seats, seats: Seats, p: Member, sight: Sight, unreachable: set<Member>)
    requires Changed(before, seats, p, sight) && Views(before)
    ensures Views(Told(seats, p, sight, unreachable))
  {
    hide Current;
    var told := Told(seats, p, sight, unreachable);
    forall v | v in told && told[v].ready && !told[v].stopped ensures Current(v, told[v], told) {
      ToldOne(before, seats, p, sight, unreachable, v);
    }
  }

  lemma ToldNow(seats: Seats, p: Member, sight: Sight, unreachable: set<Member>)
    ensures SameNow(seats, Told(seats, p, sight, unreachable))
  {
  }

  lemma AnnounceKeeps(room: Room, p: Member, e: Entry)
    requires Inv(room) && p in room.seats && Judge(room.seats, p, e).Take?
    ensures Inv(Announce(room, p, Judge(room.seats, p, e).sight, e.unreachable))
  {
    hide Owned, InRange, Named, Views, Ordered, Logged, Told, SameNow;
    var sight := Judge(room.seats, p, e).sight;
    var moved := room.(seats := room.seats[p := room.seats[p].(now := sight)], log := room.log + [Broadcast(p, sight, false)]);
    NamedAt(room, p);
    MovedKeeps(room, p, e);
    MovedLog(room, p, e);
    ToldNow(moved.seats, p, sight, e.unreachable);
    ToldKeeps(moved, Told(moved.seats, p, sight, e.unreachable));
    assert Changed(room.seats, moved.seats, p, sight);
    ToldViews(room.seats, moved.seats, p, sight, e.unreachable);
  }

  lemma NamedAt(room: Room, p: Member)
    requires Inv(room) && p in room.seats
    ensures p in room.users
  {
    hide Owned, InRange, Views, Ordered, Logged;
  }

  lemma ToldKeeps(room: Room, seats: Seats)
    requires Owned(room.seats) && InRange(room.seats) && Named(room.seats, room.users) && Logged(room.log, room.seats, room.users)
    requires SameNow(room.seats, seats)
    ensures Owned(seats) && InRange(seats) && Named(seats, room.users) && Logged(room.log, seats, room.users)
  {
  }

  lemma MovedKeeps(room: Room, p: Member, e: Entry)
    requires Inv(room) && p in room.seats && Judge(room.seats, p, e).Take?
    ensures var seats := room.seats[p := room.seats[p].(now := Judge(room.seats, p, e).sight)];
      Owned(seats) && InRange(seats) && Named(seats, room.users)
  {
    hide Views, Ordered, Logged;
  }

  // The clock moved on, or this is the member's first presence and nothing of it was broadcast.
  lemma MovedLog(room: Room, p: Member, e: Entry)
    requires Inv(room) && p in room.seats && Judge(room.seats, p, e).Take?
    ensures var sight := Judge(room.seats, p, e).sight;
      var log := room.log + [Broadcast(p, sight, false)];
      Ordered(log) && Logged(log, room.seats[p := room.seats[p].(now := sight)], room.users)
  {
    hide Views, InRange, Owned;
  }

  lemma LeaveKeeps(room: Room, p: Member, unreachable: set<Member>)
    requires Inv(room)
    ensures Inv(Leave(room, p, unreachable))
  {
    hide Owned, InRange, Named, Views, Ordered, Logged, Told, SameNow;
    if p in room.seats {
      var now := room.seats[p].now;
      NamedAt(room, p);
      LeftKeeps(room, p);
      if now.id == 0 {
        UnseenViews(room, p);
      } else {
        var left := room.(seats := room.seats - {p}, log := room.log + [Broadcast(p, Tombstone(now), true)]);
        TombstoneLog(room, p);
        ToldNow(left.seats, p, Tombstone(now), unreachable);
        ToldKeeps(left, Told(left.seats, p, Tombstone(now), unreachable));
        LeavesAlone(room, p);
        ToldViews(room.seats, left.seats, p, Tombstone(now), unreachable);
      }
    }
  }

  lemma LeavesAlone(room: Room, p: Member)
    requires Inv(room) && p in room.seats && room.seats[p].now.id != 0
    ensures Changed(room.seats, room.seats - {p}, p, Tombstone(room.seats[p].now))
  {
    hide InRange, Named, Views, Ordered, Logged;
  }

  lemma LeftKeeps(room: Room, p: Member)
    requires Inv(room)
    ensures Owned(room.seats - {p}) && InRange(room.seats - {p}) && Named(room.seats - {p}, room.users)
    ensures Logged(room.log, room.seats - {p}, room.users)
  {
    hide Views, Ordered;
  }

  lemma TombstoneLog(room: Room, p: Member)
    requires Inv(room) && p in room.seats && room.seats[p].now.id != 0
    ensures var log := room.log + [Broadcast(p, Tombstone(room.seats[p].now), true)];
      Ordered(log) && Logged(log, room.seats - {p}, room.users)
  {
    hide Views, Owned;
  }

  // Nobody was shown a member without a presence.
  lemma UnseenViews(room: Room, p: Member)
    requires Inv(room) && p in room.seats && room.seats[p].now.id == 0
    ensures Views(room.seats - {p})
  {
    hide Owned, InRange, Named, Ordered, Logged, Present;
    forall v, id | v in room.seats && id in room.seats[v].view && Present(room.seats, id) ensures Present(room.seats - {p}, id) {
      PresentWithout(room.seats, p, id);
    }
  }

  lemma PresentWithout(seats: Seats, p: Member, id: nat)
    requires Present(seats, id) && id != 0 && (p in seats ==> seats[p].now.id == 0)
    ensures Present(seats - {p}, id)
  {
    var q :| q in seats && seats[q].now.id == id;
    assert (seats - {p})[q].now.id == id;
  }

  // ---------------------------------------------------------------- every run

  lemma {:induction false} EntriesKeeps(room: Room, p: Member, entries: seq<Entry>)
    requires Inv(room) && p in room.seats
    ensures Inv(Entries(room, p, entries).0)
    decreases |entries|
  {
    hide Inv, Judge;
    if entries != [] {
      match Judge(room.seats, p, entries[0])
      case Refuse =>
      case Skip => EntriesKeeps(room, p, entries[1..]);
      case Take(sight) =>
        AnnounceKeeps(room, p, entries[0]);
        EntriesKeeps(Announce(room, p, sight, entries[0].unreachable), p, entries[1..]);
    }
  }

  lemma AwarenessKeeps(room: Room, p: Member, allowed: bool, m: Message)
    requires Inv(room)
    ensures Inv(Awareness(room, p, allowed, m))
  {
    hide Inv, Entries, Stop;
    if p in room.seats {
      StopKeeps(room, p);
      EntriesKeeps(room, p, Counted(m));
      StopKeeps(Entries(room, p, Counted(m)).0, p);
    }
  }

  lemma NextKeeps(room: Room, step: Step)
    requires Inv(room)
    ensures Inv(Next(room, step))
  {
    hide Inv, Enter, MakeReady, Awareness, Query, Leave, Stop, Abort;
    match step
    case DoEnter(p, user) => EnterKeeps(room, p, user);
    case DoReady(p, sent) => ReadyKeeps(room, p, sent);
    case DoAwareness(p, allowed, m) => AwarenessKeeps(room, p, allowed, m);
    case DoQuery(p, allowed, sent) => QueryKeeps(room, p, allowed, sent);
    case DoLeave(p, unreachable) => LeaveKeeps(room, p, unreachable);
    case DoStop(p) => StopKeeps(room, p);
    case DoAbort => AbortKeeps(room);
  }

  lemma {:induction false} RunKeeps(room: Room, run: seq<Step>)
    requires Inv(room)
    ensures Inv(Run(room, run))
    decreases |run|
  {
    hide Inv, Next;
    if run != [] {
      NextKeeps(room, run[0]);
      RunKeeps(Next(room, run[0]), run[1..]);
    }
  }

  lemma EmptyInv()
    ensures Inv(Empty())
  {
  }

  // Two members never hold the same presence ID at a time.
  lemma IdsAreOwned(run: seq<Step>, p: Member, q: Member)
    requires var seats := Run(Empty(), run).seats; p in seats && q in seats && p != q && seats[p].now.id != 0
    ensures Run(Empty(), run).seats[p].now.id != Run(Empty(), run).seats[q].now.id
  {
    hide Run, Views, Ordered, Logged;
    EmptyInv();
    RunKeeps(Empty(), run);
  }

  // Over a whole run, the broadcasts of one member carry one ID and strictly increasing clocks, none
  // follows its tombstone, and not even the tombstone's clock passes 2^53 - 1.
  lemma ClocksIncrease(run: seq<Step>, i: nat, j: nat)
    requires i < j < |Run(Empty(), run).log| && Run(Empty(), run).log[i].source == Run(Empty(), run).log[j].source
    ensures var log := Run(Empty(), run).log;
      0 < log[i].sight.id == log[j].sight.id <= MAX_ID && !log[i].last &&
      log[i].sight.clock < log[j].sight.clock <= MAX_ID
  {
    hide Run, Views, Owned, InRange, Named;
    EmptyInv();
    RunKeeps(Empty(), run);
    var room := Run(Empty(), run);
    assert Behind(room.log[j], room.seats, room.users);
  }

  // Whatever object a client sends, what is broadcast names the account that its socket was admitted for.
  lemma PresenceNamesItsAuthor(run: seq<Step>, i: nat)
    requires i < |Run(Empty(), run).log| && Run(Empty(), run).log[i].sight.content.Shown?
    ensures var room := Run(Empty(), run);
      var b := room.log[i];
      b.source in room.users && "user" in b.sight.content.fields && b.sight.content.fields["user"] == room.users[b.source]
  {
    hide Run, Views, Owned, InRange, Named, Ordered;
    EmptyInv();
    RunKeeps(Empty(), run);
    var room := Run(Empty(), run);
    assert Behind(room.log[i], room.seats, room.users);
  }

  // A served member's picture of the room is exact, by the IDs it shows: the ID of every other member
  // shows that member's latest presence, and an ID shown as present is some member's.
  lemma ViewsAreCurrent(run: seq<Step>, v: Member)
    requires var seats := Run(Empty(), run).seats; v in seats && seats[v].ready && !seats[v].stopped
    ensures var seats := Run(Empty(), run).seats;
      && (forall q :: q in seats && q != v && seats[q].now.id != 0 ==>
            seats[q].now.id in seats[v].view && seats[v].view[seats[q].now.id] == seats[q].now)
      && (forall id :: id in seats[v].view && seats[v].view[id].content.Shown? ==>
            id != 0 && exists q :: q in seats && seats[q].now.id == id && (q != v ==> seats[q].now == seats[v].view[id]))
  {
    hide Run, Owned, InRange, Named, Ordered, Logged;
    EmptyInv();
    RunKeeps(Empty(), run);
    var seats := Run(Empty(), run).seats;
    assert Current(v, seats[v], seats);
  }
}
