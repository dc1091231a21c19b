/** Where the tokens of a relay come from: a step only keeps grants, drops them, or gives out the token
    it brings along. Tokens are random, so a run never brings the same one twice. */
module RelayTokens {
  import opened RelayState
  import opened RelayRuns

  // The token an action brings along, and the grant it is for.
  datatype Gift = Nothing | Token(room: RoomId, actor: string, token: string)

  function GiftOf(a: Action): Gift {
    match a
    case DoCreate(actor, id, _, token) => Token(id, actor, token)
    case DoJoin(r, actor, _, token) => Token(r, actor, token)
    case DoRenew(r, actor, token) => Token(r, actor, token)
    case _ => Nothing
  }

  function TokensOf(a: Action): set<string> {
    if GiftOf(a).Token? then {GiftOf(a).token} else {}
  }

  predicate Granted(s: State, r: RoomId, actor: string) {
    r in s.rooms && actor in s.rooms[r].grants
  }

  function GrantOf(s: State, r: RoomId, actor: string): Grant
    requires Granted(s, r, actor)
  {
    s.rooms[r].grants[actor]
  }

  // Every grant of t is one of s, or the one given.
  ghost predicate GrantsFrom(s: State, t: State, gift: Gift) {
    forall r, actor :: Granted(t, r, actor) ==>
      Token(r, actor, GrantOf(t, r, actor).token) == gift || (Granted(s, r, actor) && GrantOf(s, r, actor) == GrantOf(t, r, actor))
  }

  lemma GrantsTwice(s: State, t: State, u: State, gift: Gift)
    requires GrantsFrom(s, t, Nothing) && GrantsFrom(t, u, gift)
    ensures GrantsFrom(s, u, gift)
  {
    hide Granted, GrantOf;
  }

  // A state with no new room and no other grants.
  predicate KeepsGrants(s: State, t: State) {
    forall r :: r in t.rooms ==> r in s.rooms && t.rooms[r].grants == s.rooms[r].grants
  }

  lemma SameGrants(s: State, t: State)
    requires KeepsGrants(s, t)
    ensures GrantsFrom(s, t, Nothing)
  {
  }

  lemma SweptGrants(s: State, now: Time)
    ensures GrantsFrom(s, Swept(s, now), Nothing) && GrantsFrom(s, s, Nothing)
  {
    hide Total, RoomFate;
    SameGrants(s, Swept(s, now));
  }

  lemma IssueGrants(t: State, r: RoomId, actor: string, role: Role, token: string, now: Time)
    requires r in t.rooms
    ensures GrantsFrom(t, Issue(t, r, actor, role, token, now).state, Token(r, actor, token))
  {
  }

  lemma MoreGiven(s: State, t: State, gift: Gift)
    requires GrantsFrom(s, t, Nothing)
    ensures GrantsFrom(s, t, gift)
  {
    hide Granted, GrantOf;
  }

  lemma CreateGrants(s: State, actor: string, id: RoomId, invite: string, token: string, now: Time)
    ensures GrantsFrom(s, Create(s, actor, id, invite, token, now).state, Token(id, actor, token))
  {
    hide Swept, Total;
    var t := Swept(s, now);
    SweptGrants(s, now);
    MoreGiven(s, s, Token(id, actor, token));
    MoreGiven(s, t, Token(id, actor, token));
    var u := t.(rooms := t.rooms[id := NewRoom(id, actor, invite, token, now)]);
    assert GrantsFrom(t, u, Token(id, actor, token));
    GrantsTwice(s, t, u, Token(id, actor, token));
  }

  lemma LiveGrants(s: State, r: RoomId, now: Time)
    ensures GrantsFrom(s, Live(s, r, now).state, Nothing)
  {
    hide Swept, GrantsFrom;
    SweptGrants(s, now);
  }

  lemma IssuedGrants(s: State, r: RoomId, actor: string, role: Role, token: string, now: Time)
    requires r in Live(s, r, now).state.rooms
    ensures GrantsFrom(s, Issue(Live(s, r, now).state, r, actor, role, token, now).state, Token(r, actor, token))
  {
    hide Live, GrantsFrom, Issue;
    LiveGrants(s, r, now);
    IssueGrants(Live(s, r, now).state, r, actor, role, token, now);
    GrantsTwice(s, Live(s, r, now).state, Issue(Live(s, r, now).state, r, actor, role, token, now).state, Token(r, actor, token));
  }

  lemma AdmissionGrants(s: State, r: RoomId, actor: string, invite: string, token: string, now: Time)
    ensures GrantsFrom(s, Join(s, r, actor, invite, token, now).state, Token(r, actor, token))
    ensures GrantsFrom(s, Renew(s, r, actor, token, now).state, Token(r, actor, token))
  {
    hide Swept, GrantsFrom, Issue;
    var live := Live(s, r, now);
    LiveGrants(s, r, now);
    MoreGiven(s, live.state, Token(r, actor, token));
    if live.outcome.Ok? {
      IssuedGrants(s, r, actor, Host, token, now);
      IssuedGrants(s, r, actor, Viewer, token, now);
      if actor in live.outcome.value.grants { IssuedGrants(s, r, actor, live.outcome.value.grants[actor].role, token, now); }
    }
  }

  lemma AfterSweep(s: State, u: State, now: Time)
    requires u == s || KeepsGrants(Swept(s, now), u)
    ensures GrantsFrom(s, u, Nothing)
  {
    hide Swept, GrantsFrom, KeepsGrants;
    SweptGrants(s, now);
    if u != s {
      SameGrants(Swept(s, now), u);
      GrantsTwice(s, Swept(s, now), u, Nothing);
    }
  }

  lemma RevokeGrants(s: State, r: RoomId, actor: string, now: Time)
    ensures GrantsFrom(s, Revoke(s, r, actor, now).state, Nothing)
  {
    hide Swept, GrantsFrom, TerminateAll;
    AfterSweep(s, Revoke(s, r, actor, now).state, now);
  }

  lemma AttachGrants(s: State, r: RoomId, p: PeerId, token: string, now: Time)
    ensures GrantsFrom(s, Attach(s, r, token, p, now).state, Nothing)
  {
    hide Swept, GrantsFrom, Announce, Admitted;
    AfterSweep(s, Attach(s, r, token, p, now).state, now);
  }

  lemma ReauthenticateGrants(s: State, p: PeerId, token: string, now: Time)
    ensures GrantsFrom(s, Reauthenticate(s, p, token, now).state, Nothing)
  {
    hide Swept, GrantsFrom, Admitted;
    AfterSweep(s, Reauthenticate(s, p, token, now).state, now);
  }

  lemma EventGrants(s: State, p: PeerId, data: Bytes, wellFormed: bool, kind: string, now: Time)
    ensures GrantsFrom(s, Publish(s, p, data, wellFormed, now).state, Nothing)
    ensures GrantsFrom(s, Activity(s, p, kind, now).state, Nothing)
    ensures GrantsFrom(s, ShowPresence(s, p, data, wellFormed, now).state, Nothing)
  {
    hide Swept, GrantsFrom, Announce, Total;
    AfterSweep(s, Publish(s, p, data, wellFormed, now).state, now);
    AfterSweep(s, Activity(s, p, kind, now).state, now);
    AfterSweep(s, ShowPresence(s, p, data, wellFormed, now).state, now);
  }

  lemma LeavingGrants(s: State, p: PeerId, now: Time)
    ensures GrantsFrom(s, Detach(s, p, now), Nothing) && GrantsFrom(s, Close(s), Nothing)
    ensures GrantsFrom(s, Take(s, p), Nothing) && GrantsFrom(s, TakeEnded(s, p), Nothing)
  {
    hide Announce, TerminateAll, GrantsFrom;
    SameGrants(s, Detach(s, p, now));
    SameGrants(s, Close(s));
    SameGrants(s, Take(s, p));
    SameGrants(s, TakeEnded(s, p));
  }

  // A step keeps grants as they are, drops them, or gives out the token it brings along.
  lemma StepGrants(s: State, a: Action, now: Time)
    ensures GrantsFrom(s, Step(s, a, now), GiftOf(a))
  {
    hide GrantsFrom, Create, Join, Renew, Revoke, Attach, Reauthenticate, Publish, Activity, ShowPresence, Detach, Close, Swept, Take, TakeEnded;
    match a
    case DoCreate(actor, id, invite, token) => CreateGrants(s, actor, id, invite, token, now);
    case DoJoin(r, actor, invite, token) => AdmissionGrants(s, r, actor, invite, token, now);
    case DoRenew(r, actor, token) => AdmissionGrants(s, r, actor, "", token, now);
    case DoRevoke(r, actor) => RevokeGrants(s, r, actor, now);
    case DoAttach(r, token, p) => AttachGrants(s, r, p, token, now);
    case DoReauthenticate(p, token) => ReauthenticateGrants(s, p, token, now);
    case DoPublish(p, source, wellFormed) => EventGrants(s, p, source, wellFormed, "", now);
    case DoActivity(p, kind) => EventGrants(s, p, [], true, kind, now);
    case DoPresence(p, value, wellFormed) => EventGrants(s, p, value, wellFormed, "", now);
    case DoDetach(p) => LeavingGrants(s, p, now);
    case DoSweep => SweptGrants(s, now);
    case DoClose => LeavingGrants(s, "", now);
    case DoRead(p) => LeavingGrants(s, p, now);
    case DoReadEnded(p) => LeavingGrants(s, p, now);
  }

  // ---------------------------------------------------------------- what was handed out before

  predicate SameToken(s: State, r: RoomId, actor: string, r': RoomId, actor': string) {
    Granted(s, r, actor) && Granted(s, r', actor') && GrantOf(s, r, actor).token == GrantOf(s, r', actor').token
  }

  // Every token in use was handed out before, and none is in use twice.
  ghost predicate TokensKnown(s: State, spent: set<string>) {
    && (forall r, actor :: Granted(s, r, actor) ==> GrantOf(s, r, actor).token in spent)
    && (forall r, actor, r', actor' :: SameToken(s, r, actor, r', actor') ==> r == r' && actor == actor')
  }

  // So was every room id in use.
  ghost predicate Known(s: State, used: set<RoomId>, spent: set<string>) {
    s.rooms.Keys <= used && TokensKnown(s, spent)
  }

  predicate Same(s: State, t: State, r: RoomId, actor: string) {
    Granted(s, r, actor) && Granted(t, r, actor) && GrantOf(s, r, actor) == GrantOf(t, r, actor)
  }

  lemma TokensStayKnown(s: State, t: State, spent: set<string>, gift: Gift)
    requires TokensKnown(s, spent) && GrantsFrom(s, t, gift) && (gift.Token? ==> gift.token !in spent)
    ensures TokensKnown(t, spent + if gift.Token? then {gift.token} else {})
  {
    hide Granted, GrantOf;
    forall r, actor, r', actor' | SameToken(t, r, actor, r', actor') ensures r == r' && actor == actor' {
      if Same(s, t, r, actor) && Same(s, t, r', actor') { assert SameToken(s, r, actor, r', actor'); }
    }
  }

  // Random identifiers and tokens were never handed out before.
  predicate NeverSeen(s: State, used: set<RoomId>, spent: set<string>, a: Action) {
    && TokensOf(a) !! spent
    && (a.DoCreate? ==> a.id !in used)
    && (a.DoAttach? ==> a.peer !in s.channels)
  }

  lemma NeverSeenIsFresh(s: State, used: set<RoomId>, spent: set<string>, a: Action)
    requires Known(s, used, spent) && NeverSeen(s, used, spent, a)
    ensures Fresh(s, used, a)
  {
    assert forall r, actor :: r in s.rooms && actor in s.rooms[r].grants ==> Granted(s, r, actor);
  }
}
