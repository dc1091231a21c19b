/** What each presence message leads to, told over the members of the room. */
module PresenceAnswers {
  import opened Presence

  // The member is served: shown what is broadcast.
  predicate Served(seats: Seats, q: Member) {
    q in seats && seats[q].ready && !seats[q].stopped
  }

  // An entry that the member may send now: numbers in range, its own ID or its first, nobody else's.
  predicate Proper(seats: Seats, p: Member, e: Entry)
    requires p in seats
  {
    && 1 <= e.id <= MAX_ID && e.clock < MAX_ID
    && (seats[p].now.id == 0 || seats[p].now.id == e.id)
    && forall q :: q in seats && q != p ==> seats[q].now.id != e.id
  }

  // The entry says something that was not said: an object first, anything later on a higher clock.
  predicate News(own: Sight, e: Entry) {
    if own.id == 0 then e.text.ObjectText? else e.clock > own.clock && !e.text.OtherText?
  }

  // An entry is taken exactly if it is proper and news. It shows the object under the member's own account.
  lemma TakenExactly(seats: Seats, p: Member, e: Entry)
    requires p in seats
    ensures Judge(seats, p, e).Take? <==> Proper(seats, p, e) && News(seats[p].now, e)
    ensures Judge(seats, p, e).Take? ==> Judge(seats, p, e).sight.id == e.id && Judge(seats, p, e).sight.clock == e.clock
    ensures Judge(seats, p, e).Take? && e.text.NullText? ==> Judge(seats, p, e).sight.content == Gone
    ensures Judge(seats, p, e).Take? && e.text.ObjectText? ==> Says(Judge(seats, p, e).sight.content, e.text.fields, seats[p].user)
  {
  }

  // The fields as sent, but for the account.
  predicate Says(content: Content, fields: Fields, user: User) {
    && content.Shown? && content.fields.Keys == fields.Keys + {"user"} && content.fields["user"] == user
    && forall name :: name in fields && name != "user" ==> content.fields[name] == fields[name]
  }

  // It is passed over exactly if its numbers are in range and it removes a presence that is not the
  // member's, or repeats or precedes the member's own clock.
  lemma SkippedExactly(seats: Seats, p: Member, e: Entry)
    requires p in seats
    ensures Judge(seats, p, e).Skip? <==> Idle(seats, p, e)
  {
  }

  predicate Idle(seats: Seats, p: Member, e: Entry)
    requires p in seats
  {
    && 1 <= e.id <= MAX_ID && e.clock < MAX_ID
    && ((e.text.NullText? && e.id != seats[p].now.id) || (Proper(seats, p, e) && seats[p].now.id == e.id && e.clock <= seats[p].now.clock))
  }

  // ---------------------------------------------------------------- one entry

  // A message of one entry that is news reaches every served member that can be reached, stops the
  // others of those, and changes nothing else.
  lemma NewsIsShown(room: Room, p: Member, e: Entry)
    requires Served(room.seats, p) && !room.failed && Proper(room.seats, p, e) && News(room.seats[p].now, e)
    ensures var after := Awareness(room, p, true, Message(1, [e], false));
      && after.seats.Keys == room.seats.Keys && after.failed == room.failed && after.users == room.users
      && after.seats[p] == room.seats[p].(now := after.seats[p].now)
      && after.seats[p].now.id == e.id && after.seats[p].now.clock == e.clock
      && (forall q :: q in room.seats && q != p ==> Shows(room.seats[q], after.seats[q], after.seats[p].now, q in e.unreachable))
      && after.log == room.log + [Broadcast(p, after.seats[p].now, false)]
  {
    TakenExactly(room.seats, p, e);
    var sight := Judge(room.seats, p, e).sight;
    assert [e][1..] == [];
    assert Counted(Message(1, [e], false)) == [e];
    assert Entries(room, p, [e]) == (Announce(room, p, sight, e.unreachable), true);
  }

  predicate Shows(before: Seat, after: Seat, sight: Sight, unreachable: bool) {
    if !before.ready then after == before
    else if unreachable || before.stopped then after == before.(stopped := true)
    else after == before.(view := before.view[sight.id := sight])
  }

  // Any other entry stops its sender and does nothing else.
  lemma OtherEntriesStop(room: Room, p: Member, e: Entry)
    requires Served(room.seats, p) && !room.failed && !(Proper(room.seats, p, e) && News(room.seats[p].now, e))
    ensures Awareness(room, p, true, Message(1, [e], false)) == if Idle(room.seats, p, e) then room else Stop(room, p)
  {
    TakenExactly(room.seats, p, e);
    SkippedExactly(room.seats, p, e);
    assert [e][1..] == [] && Counted(Message(1, [e], false)) == [e];
    if Judge(room.seats, p, e).Skip? { assert Entries(room, p, [e]) == (room, true); }
  }

  // Every message that is not well formed or not allowed stops its sender.
  lemma RefusedStops(room: Room, p: Member, allowed: bool, m: Message)
    requires Served(room.seats, p)
    requires !allowed || room.failed || m.count > MAX_ENTRIES || m.count != |m.entries| || m.trailing
    ensures p in Awareness(room, p, allowed, m).seats && Awareness(room, p, allowed, m).seats[p].stopped
    ensures !allowed || room.failed || m.count > MAX_ENTRIES ==> Awareness(room, p, allowed, m) == Stop(room, p)
  {
    hide Judge;
    EntriesKeepSeat(room, p, Counted(m));
  }

  lemma {:induction false} EntriesKeepSeat(room: Room, p: Member, entries: seq<Entry>)
    requires p in room.seats
    ensures p in Entries(room, p, entries).0.seats
    decreases |entries|
  {
    hide Judge;
    if entries != [] {
      match Judge(room.seats, p, entries[0])
      case Refuse =>
      case Skip => EntriesKeepSeat(room, p, entries[1..]);
      case Take(sight) => EntriesKeepSeat(Announce(room, p, sight, entries[0].unreachable), p, entries[1..]);
    }
  }

  // ---------------------------------------------------------------- several entries

  // Objects under the member's own ID, with clocks in range.
  predicate Repeats(id: nat, entries: seq<Entry>) {
    forall i :: 0 <= i < |entries| ==> entries[i].id == id && entries[i].clock < MAX_ID && entries[i].text.ObjectText?
  }

  // The highest clock of the entries, or the clock before if none is higher.
  function Highest(clock: nat, entries: seq<Entry>): nat
    decreases |entries|
  {
    if entries == [] then clock else Highest(Later(clock, entries[0].clock), entries[1..])
  }

  function Later(a: nat, b: nat): nat {
    if b > a then b else a
  }

  lemma {:induction false} HighestIs(clock: nat, entries: seq<Entry>)
    ensures Highest(clock, entries) >= clock && forall i :: 0 <= i < |entries| ==> Highest(clock, entries) >= entries[i].clock
    ensures Highest(clock, entries) == clock || exists i :: 0 <= i < |entries| && Highest(clock, entries) == entries[i].clock
    decreases |entries|
  {
    if entries != [] {
      HighestIs(Later(clock, entries[0].clock), entries[1..]);
      forall i | 0 <= i < |entries| ensures Highest(clock, entries) >= entries[i].clock {
        if i > 0 { assert entries[i] == entries[1..][i - 1]; }
      }
      if j :| 0 <= j < |entries[1..]| && Highest(clock, entries) == entries[1..][j].clock { assert entries[j + 1] == entries[1..][j]; }
    }
  }

  // Nothing is refused, the highest clock is shown at the end, and its object is that of the first entry
  // that carries it.
  lemma {:induction false} HighestClockWins(room: Room, p: Member, entries: seq<Entry>)
    requires p in room.seats && Repeats(room.seats[p].now.id, entries) && 1 <= room.seats[p].now.id <= MAX_ID && Owned(room.seats)
    ensures var (after, fine) := Entries(room, p, entries);
      fine && p in after.seats && after.seats[p].now.id == room.seats[p].now.id &&
      after.seats[p].now.clock == Highest(room.seats[p].now.clock, entries)
    ensures var own := room.seats[p].now;
      forall i :: 0 <= i < |entries| && FirstHighest(own.clock, entries, i) ==>
        Says(Entries(room, p, entries).0.seats[p].now.content, entries[i].text.fields, room.seats[p].user)
    ensures Highest(room.seats[p].now.clock, entries) == room.seats[p].now.clock ==> Entries(room, p, entries).0 == room
    decreases |entries|
  {
    hide Judge, Told, Says;
    if entries != [] {
      var e, own := entries[0], room.seats[p].now;
      TakenExactly(room.seats, p, e);
      SkippedExactly(room.seats, p, e);
      OwnedProper(room.seats, p, e);
      var next := if e.clock > own.clock then Announce(room, p, Judge(room.seats, p, e).sight, e.unreachable) else room;
      if e.clock > own.clock { AnnounceKeepsOwned(room, p, Judge(room.seats, p, e).sight, e.unreachable); }
      HighestClockWins(next, p, entries[1..]);
      HighestIs(next.seats[p].now.clock, entries[1..]);
      forall i | 0 <= i < |entries| && FirstHighest(own.clock, entries, i)
        ensures Says(Entries(room, p, entries).0.seats[p].now.content, entries[i].text.fields, room.seats[p].user)
      {
        if i > 0 { FirstHighestLater(own.clock, entries, i); }
      }
    }
  }

  // The entry at i is the first one with the highest clock, and that is higher than the clock before.
  predicate FirstHighest(clock: nat, entries: seq<Entry>, i: nat)
    requires i < |entries|
  {
    && entries[i].clock > clock
    && (forall j :: 0 <= j < i ==> entries[j].clock < entries[i].clock)
    && (forall j :: i < j < |entries| ==> entries[j].clock <= entries[i].clock)
  }

  lemma FirstHighestLater(clock: nat, entries: seq<Entry>, i: nat)
    requires 0 < i < |entries| && FirstHighest(clock, entries, i)
    ensures FirstHighest(Later(clock, entries[0].clock), entries[1..], i - 1)
    ensures entries[1..][i - 1] == entries[i]
  {
    assert forall j :: 0 <= j < |entries[1..]| ==> entries[1..][j] == entries[j + 1];
  }

  lemma OwnedProper(seats: Seats, p: Member, e: Entry)
    requires p in seats && Owned(seats) && e.id == seats[p].now.id && 1 <= e.id <= MAX_ID && e.clock < MAX_ID
    ensures Proper(seats, p, e)
  {
  }

  lemma AnnounceKeepsOwned(room: Room, p: Member, sight: Sight, unreachable: set<Member>)
    requires p in room.seats && Owned(room.seats) && sight.id == room.seats[p].now.id
    ensures Owned(Announce(room, p, sight, unreachable).seats)
    ensures p in Announce(room, p, sight, unreachable).seats && Announce(room, p, sight, unreachable).seats[p] == room.seats[p].(now := sight)
  {
  }

  // ---------------------------------------------------------------- becoming ready and leaving

  // A member that becomes ready is served if everything could be written, and shows exactly the others'
  // presences besides what it showed.
  lemma ReadyShows(room: Room, p: Member, sent: bool)
    requires Inv(room) && p in room.seats && !room.seats[p].ready && !room.seats[p].stopped && !room.failed
    ensures var after := MakeReady(room, p, sent);
      && after == room.(seats := room.seats[p := after.seats[p]])
      && after.seats[p].ready && after.seats[p].stopped == !sent && after.seats[p].now == room.seats[p].now
      && (sent ==> ShowsOthers(after.seats[p].view, room.seats, p))
  {
    hide Ordered, Logged, InRange, Named, AllCurrent, Presences;
    var others := room.seats.Keys - {p};
    forall id ensures id in Presences(room.seats, others) <==> OfAnother(room.seats, p, id) { KeysAreIds(room.seats, others, id); }
    forall q | q in room.seats && q != p && room.seats[q].now.id != 0
      ensures room.seats[q].now.id in Presences(room.seats, others) && Presences(room.seats, others)[room.seats[q].now.id] == room.seats[q].now
    {
      PresenceOf(room.seats, others, q);
    }
  }

  ghost predicate OfAnother(seats: Seats, p: Member, id: nat) {
    id != 0 && exists q :: q in seats && q != p && seats[q].now.id == id
  }

  ghost predicate ShowsOthers(view: View, seats: Seats, p: Member) {
    && (forall id :: id in view <==> OfAnother(seats, p, id))
    && (forall q :: q in seats && q != p && seats[q].now.id != 0 ==> seats[q].now.id in view && view[seats[q].now.id] == seats[q].now)
  }

  // When a member leaves, its presence is gone on the next clock for everyone who is served and can be
  // reached; who never had one leaves unnoticed.
  lemma LeaveTells(room: Room, p: Member, unreachable: set<Member>)
    requires p in room.seats
    ensures var (after, now) := (Leave(room, p, unreachable), room.seats[p].now);
      && after.seats.Keys == room.seats.Keys - {p} && after.failed == room.failed && after.users == room.users
      && (forall q :: q in after.seats ==>
            if now.id == 0 then after.seats[q] == room.seats[q]
            else Shows(room.seats[q], after.seats[q], Sight(now.id, now.clock + 1, Gone), q in unreachable))
      && after.log == (if now.id == 0 then room.log else room.log + [Broadcast(p, Sight(now.id, now.clock + 1, Gone), true)])
  {
    assert (room.seats - {p}).Keys == room.seats.Keys - {p};
  }

  // Everyone is admitted once, to a room that has not failed, with nothing to show.
  lemma EnterExactly(room: Room, p: Member, user: User)
    ensures p in room.users || room.failed ==> Enter(room, p, user) == room
    ensures !(p in room.users || room.failed) ==> Entered(room, Enter(room, p, user), p, user)
  {
  }

  predicate Entered(before: Room, after: Room, p: Member, user: User) {
    && !after.failed && after.users == before.users[p := user] && after.log == before.log && p in after.seats
    && after.seats == before.seats[p := after.seats[p]]
    && after.seats[p].user == user && after.seats[p].now.id == 0 && !after.seats[p].ready && !after.seats[p].stopped && after.seats[p].view == map[]
  }
}
