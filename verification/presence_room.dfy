/** The room object that serves presence. Its loops over members take them in any order. */
module PresenceRoom {
  import opened Presence

  class Members {
    var seats: Seats
    var failed: bool
    ghost var users: map<Member, User>
    ghost var log: seq<Broadcast>

    ghost function Model(): Room
      reads this
    {
      Room(seats, failed, users, log)
    }

    constructor ()
      ensures Model() == Empty() && Inv(Model())
    {
      seats, failed, users, log := map[], false, map[], [];
      new;
      EmptyInv();
    }

    method StopMember(p: Member)
      requires p in seats
      modifies this`seats
      ensures Model() == Stop(old(Model()), p)
    {
      seats := seats[p := seats[p].(stopped := true)];
    }

    method BroadcastPresence(p: Member, sight: Sight, unreachable: set<Member>)
      modifies this`seats
      ensures seats == Told(old(seats), p, sight, unreachable)
    {
      var todo := seats.Keys;
      while todo != {}
        invariant todo <= old(seats).Keys && seats.Keys == old(seats).Keys
        invariant forall q :: q in seats ==>
          seats[q] == if q in todo then old(seats)[q] else Told(old(seats), p, sight, unreachable)[q]
        decreases todo
      {
        var q :| q in todo;
        todo := todo - {q};
        if q == p || !seats[q].ready { continue; }
        if q in unreachable || seats[q].stopped {
          seats := seats[q := seats[q].(stopped := true)];
        } else {
          seats := seats[q := seats[q].(view := seats[q].view[sight.id := sight])];
        }
      }
    }

    method IdTaken(p: Member, id: nat) returns (taken: bool)
      ensures taken == Taken(seats, p, id)
    {
      var todo := seats.Keys;
      while todo != {}
        invariant todo <= seats.Keys
        invariant forall q :: q in seats && q !in todo && q != p ==> seats[q].now.id != id
        decreases todo
      {
        var q :| q in todo;
        if q != p && seats[q].now.id == id { return true; }
        todo := todo - {q};
      }
      return false;
    }

    // Decodes the entries one after the other and applies each at once.
    method HandleAwareness(p: Member, allowed: bool, m: Message)
      requires Inv(Model()) && p in seats && seats[p].ready
      modifies this
      ensures Model() == Awareness(old(Model()), p, allowed, m) && Inv(Model())
    {
      hide Inv, Told, Judge;
      AwarenessKeeps(Model(), p, allowed, m);
      if m.count > MAX_ENTRIES || !allowed || failed {
        StopMember(p);
        return;
      }
      ghost var counted := Counted(m);
      ghost var result := Entries(Model(), p, counted);
      var i := 0;
      while i < m.count
        invariant i <= m.count && i <= |m.entries| && p in seats
        invariant result == Entries(Model(), p, counted[i..])
      {
        if i == |m.entries| {
          StopMember(p);
          return;
        }
        var e := m.entries[i];
        assert counted[i] == e && counted[i..][1..] == counted[i + 1..];
        var verdict := Examine(p, e);
        match verdict {
          case Refuse =>
            StopMember(p);
            return;
          case Skip =>
          case Take(sight) =>
            seats := seats[p := seats[p].(now := sight)];
            log := log + [Broadcast(p, sight, false)];
            ToldNow(seats, p, sight, e.unreachable);
            BroadcastPresence(p, sight, e.unreachable);
        }
        i := i + 1;
      }
      if i < |m.entries| || m.trailing {
        StopMember(p);
      }
    }

    // The checks on one entry, in the order they are made.
    method Examine(p: Member, e: Entry) returns (verdict: Verdict)
      requires p in seats
      ensures verdict == Judge(seats, p, e)
    {
      var own := seats[p].now;
      if e.id == 0 || e.id > MAX_ID || e.clock > MAX_ID - 1 { return Refuse; }
      if e.text == NullText && e.id != own.id { return Skip; }
      if own.id != 0 && e.id != own.id { return Refuse; }
      var taken := IdTaken(p, e.id);
      if taken { return Refuse; }
      if own.id != 0 && e.clock <= own.clock { return Skip; }
      match e.text {
        case NullText => return Take(Sight(e.id, e.clock, Gone));
        case ObjectText(fields) => return Take(Sight(e.id, e.clock, Shown(fields["user" := seats[p].user])));
        case OtherText => return Refuse;
      }
    }

    method HandleLeave(p: Member, unreachable: set<Member>)
      requires Inv(Model()) && p in seats
      modifies this
      ensures Model() == Leave(old(Model()), p, unreachable) && Inv(Model())
    {
      hide Inv, Told;
      LeaveKeeps(Model(), p, unreachable);
      var now := seats[p].now;
      seats := seats - {p};
      if now.id != 0 {
        var tombstone := Sight(now.id, now.clock + 1, Gone);
        log := log + [Broadcast(p, tombstone, true)];
        BroadcastPresence(p, tombstone, unreachable);
      }
    }

    // Shows a member that becomes ready the presence of everyone else.
    method HandleReady(p: Member, sent: bool)
      requires Inv(Model()) && p in seats && !seats[p].ready
      modifies this
      ensures Model() == MakeReady(old(Model()), p, sent) && Inv(Model())
    {
      hide Inv, Told, Owned, Presences;
      ReadyKeeps(Model(), p, sent);
      OwnedHere(Model());
      NoPresences(seats);
      if failed {
        StopMember(p);
        return;
      }
      var seen: View := map[];
      var todo := seats.Keys - {p};
      ghost var done: set<Member> := {};
      while todo != {}
        invariant Model() == old(Model())
        invariant todo <= seats.Keys - {p} && done == seats.Keys - {p} - todo
        invariant seen == Presences(seats, done)
        decreases todo
      {
        var q :| q in todo;
        PresencesMore(seats, done, q);
        todo := todo - {q};
        done := done + {q};
        if seats[q].now.id != 0 {
          seen := seen[seats[q].now.id := seats[q].now];
        }
      }
      assert done == seats.Keys - {p};
      var seat := seats[p].(ready := true);
      if sent {
        seats := seats[p := seat.(view := seat.view + seen)];
      } else {
        seats := seats[p := seat.(stopped := true)];
      }
    }
  }
}
