/** Who gets into a room: over every run, whoever has a viewer's grant brought the room's invite. */
module RelayInvites {
  import opened RelayState
  import opened RelayInvariant
  import opened RelayRuns
  import opened RelayTokens
  import opened RelayLifetime
  import opened RelayAnswers

  predicate Brings(a: Action, r: RoomId, actor: string, invite: string) {
    a.DoJoin? && a.room == r && a.actor == actor && a.invite == invite && |invite| == 64
  }

  ghost predicate Invited(past: seq<Timed>, r: RoomId, actor: string, invite: string) {
    exists i :: 0 <= i < |past| && Brings(past[i].action, r, actor, invite)
  }

  ghost predicate AllInvited(s: State, past: seq<Timed>) {
    forall r, actor :: Granted(s, r, actor) && GrantOf(s, r, actor).role == Viewer ==> Invited(past, r, actor, s.rooms[r].invite)
  }

  lemma StillInvited(past: seq<Timed>, step: Timed, r: RoomId, actor: string, invite: string)
    ensures Invited(past, r, actor, invite) ==> Invited(past + [step], r, actor, invite)
    ensures Brings(step.action, r, actor, invite) ==> Invited(past + [step], r, actor, invite)
  {
    if Invited(past, r, actor, invite) {
      var i :| 0 <= i < |past| && Brings(past[i].action, r, actor, invite);
      assert (past + [step])[i] == past[i];
    }
    if Brings(step.action, r, actor, invite) { assert (past + [step])[|past|] == step; }
  }

  // A viewer's grant after a step was there before, for the same room, or came with the room's invite.
  lemma OneInvited(s: State, used: set<RoomId>, a: Action, now: Time, r: RoomId, actor: string)
    requires Valid(s) && s.rooms.Keys <= used && Fresh(s, used, a)
    requires Granted(Step(s, a, now), r, actor) && GrantOf(Step(s, a, now), r, actor).role == Viewer
    ensures Brings(a, r, actor, Step(s, a, now).rooms[r].invite) ||
      (Granted(s, r, actor) && GrantOf(s, r, actor).role == Viewer && s.rooms[r].invite == Step(s, a, now).rooms[r].invite)
  {
    hide Valid, Step, Fresh, GrantsFrom;
    InviteStays(s, used, a, now, r);
    StepGrants(s, a, now);
    GrantFrom(s, Step(s, a, now), GiftOf(a), r, actor);
    if GiftOf(a) == Token(r, actor, GrantOf(Step(s, a, now), r, actor).token) { GivenGrant(s, used, a, now, r, actor); }
  }

  lemma GrantFrom(s: State, t: State, gift: Gift, r: RoomId, actor: string)
    requires GrantsFrom(s, t, gift) && Granted(t, r, actor)
    ensures Token(r, actor, GrantOf(t, r, actor).token) == gift || (Granted(s, r, actor) && GrantOf(s, r, actor) == GrantOf(t, r, actor))
  {
    hide Granted, GrantOf;
  }

  lemma InviteStays(s: State, used: set<RoomId>, a: Action, now: Time, r: RoomId)
    requires Valid(s) && s.rooms.Keys <= used && Fresh(s, used, a)
    ensures r in s.rooms && r in Step(s, a, now).rooms ==> Step(s, a, now).rooms[r].invite == s.rooms[r].invite
  {
    hide Valid, Step, Fresh, SamePerson, SocketsKept;
    StepLasts(s, used, a, now);
  }

  lemma GivenGrant(s: State, used: set<RoomId>, a: Action, now: Time, r: RoomId, actor: string)
    requires Valid(s) && s.rooms.Keys <= used && Fresh(s, used, a)
    requires Granted(Step(s, a, now), r, actor) && GrantOf(Step(s, a, now), r, actor).role == Viewer
    requires GiftOf(a).Token? && GiftOf(a).room == r && GiftOf(a).actor == actor
    ensures (r in s.rooms && Brings(a, r, actor, s.rooms[r].invite)) || (Granted(s, r, actor) && GrantOf(s, r, actor).role == Viewer)
  {
    hide Valid, Create, Join, Renew, Revoke, Attach, Reauthenticate, Publish, Activity, ShowPresence, Detach, Close, Swept, Take, TakeEnded, Unissued;
    match a
    case DoCreate(who, id, invite, token) => CreatedGrant(s, who, id, invite, token, now, actor);
    case DoJoin(q, who, invite, token) => JoinedGrant(s, q, who, invite, token, now);
    case DoRenew(q, who, token) => RenewedGrant(s, q, who, token, now);
  }

  // A grant that is neither new nor the old one would be there although the operation was refused.
  lemma RefusedGrant(s: State, t: State, now: Time, r: RoomId, actor: string)
    requires t == s || t == Swept(s, now)
    requires Granted(t, r, actor)
    ensures Granted(s, r, actor) && GrantOf(s, r, actor) == GrantOf(t, r, actor)
  {
    hide Swept;
    SweptGrants(s, now);
  }

  lemma CreatedGrant(s: State, who: string, id: RoomId, invite: string, token: string, now: Time, actor: string)
    requires Valid(s) && id !in s.rooms && Granted(Create(s, who, id, invite, token, now).state, id, actor)
    ensures GrantOf(Create(s, who, id, invite, token, now).state, id, actor).role == Host
  {
    hide Valid, Create, Up;
    CreateAnswers(s, who, id, invite, token, now);
    RefusedActors(s, id, who, invite, token, now);
    if Create(s, who, id, invite, token, now).outcome.Err? { RefusedGrant(s, Create(s, who, id, invite, token, now).state, now, id, actor); }
  }

  lemma JoinedGrant(s: State, r: RoomId, who: string, invite: string, token: string, now: Time)
    requires Valid(s) && Granted(Join(s, r, who, invite, token, now).state, r, who)
    ensures var t := Join(s, r, who, invite, token, now).state;
      (r in s.rooms && invite == s.rooms[r].invite && |invite| == 64) || (Granted(s, r, who) && GrantOf(s, r, who) == GrantOf(t, r, who))
  {
    hide Valid, Join;
    JoinAnswers(s, r, who, invite, token, now);
    RefusedActors(s, r, who, invite, token, now);
    if Join(s, r, who, invite, token, now).outcome.Err? { RefusedGrant(s, Join(s, r, who, invite, token, now).state, now, r, who); }
  }

  lemma RenewedGrant(s: State, r: RoomId, who: string, token: string, now: Time)
    requires Valid(s) && Granted(Renew(s, r, who, token, now).state, r, who)
    ensures Granted(s, r, who) && GrantOf(s, r, who).role == GrantOf(Renew(s, r, who, token, now).state, r, who).role
  {
    hide Valid, Renew, Up;
    RenewAnswers(s, r, who, token, now);
    RefusedActors(s, r, who, "", token, now);
    if Renew(s, r, who, token, now).outcome.Err? { RefusedGrant(s, Renew(s, r, who, token, now).state, now, r, who); }
  }

  lemma StepInvited(s: State, used: set<RoomId>, past: seq<Timed>, a: Action, now: Time)
    requires Valid(s) && s.rooms.Keys <= used && Fresh(s, used, a) && AllInvited(s, past)
    ensures AllInvited(Step(s, a, now), past + [Timed(a, now)])
  {
    hide Valid, Step, Fresh, Invited;
    var t := Step(s, a, now);
    forall r, actor | Granted(t, r, actor) && GrantOf(t, r, actor).role == Viewer
      ensures Invited(past + [Timed(a, now)], r, actor, t.rooms[r].invite)
    {
      OneInvited(s, used, a, now, r, actor);
      StillInvited(past, Timed(a, now), r, actor, t.rooms[r].invite);
    }
  }

  lemma {:induction false} RunInvited(s: State, used: set<RoomId>, spent: set<string>, clock: Time, run: seq<Timed>, past: seq<Timed>)
    requires Valid(s) && Known(s, used, spent) && Legal(s, used, spent, clock, run) && AllInvited(s, past)
    ensures AllInvited(After(s, run), past + run)
    decreases |run|
  {
    hide Valid, Step, Fresh, Known, Legal, AllInvited;
    if run == [] {
      assert past + run == past;
    } else {
      FirstStep(s, used, spent, clock, run);
      StepInvited(s, used, past, run[0].action, run[0].at);
      RunInvited(Step(s, run[0].action, run[0].at), used + Uses(run[0].action), spent + TokensOf(run[0].action), run[0].at, run[1..],
                 past + [Timed(run[0].action, run[0].at)]);
      assert past + [Timed(run[0].action, run[0].at)] + run[1..] == past + run;
    }
  }

  // However a run of an empty relay goes: whoever has a viewer's grant of a room asked to join it with
  // the room's own invite.
  lemma ViewersWereInvited(clock: Time, run: seq<Timed>, r: RoomId, actor: string)
    requires Legal(EMPTY, {}, {}, clock, run)
    requires Granted(After(EMPTY, run), r, actor) && GrantOf(After(EMPTY, run), r, actor).role == Viewer
    ensures exists i :: 0 <= i < |run| && Brings(run[i].action, r, actor, After(EMPTY, run).rooms[r].invite)
  {
    hide Legal, After, Brings;
    EmptyValid();
    RunInvited(EMPTY, {}, {}, clock, run, []);
    assert [] + run == run;
  }

  lemma EmptyValid()
    ensures Valid(EMPTY) && Known(EMPTY, {}, {})
  {
    hide Linked, Staffed, RoomsValid, PeersValid, Total;
    NothingIsValid();
  }
}
