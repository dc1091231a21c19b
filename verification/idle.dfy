/** Idle sessions: the inactivity timer, and the session that reports it. Times and durations are
    nanoseconds of one clock that never goes back. */
module Idle {
  import opened Wrappers

  type Time = int

  const SECOND := 1_000_000_000
  const WARNING := 300

  predicate Supported(seconds: int) {
    seconds == 7200 || seconds == 14400
  }

  // ---------------------------------------------------------------- the timer

  datatype Timer = Timer(activity: Time, deadline: Time, seconds: int)

  function Started(now: Time, seconds: int): Option<Timer> {
    if Supported(seconds) then Some(Timer(now, now + seconds * SECOND, seconds)) else None
  }

  predicate Active(timer: Timer, now: Time) {
    now < timer.deadline
  }

  datatype Event = Touch(now: Time) | SetTier(now: Time, seconds: int)

  function Fire(timer: Timer, event: Event): Timer {
    if !Active(timer, event.now) then timer
    else match event
      case Touch(now) => Timer(now, now + timer.seconds * SECOND, timer.seconds)
      case SetTier(now, seconds) =>
        if Supported(seconds) then Timer(timer.activity, timer.activity + seconds * SECOND, seconds) else timer
  }

  function FireAll(timer: Timer, run: seq<Event>): Timer {
    if run == [] then timer else Fire(FireAll(timer, run[..|run| - 1]), run[|run| - 1])
  }

  // The clock of a run never goes back.
  predicate Timely(from: Time, run: seq<Event>, to: Time) {
    && (forall i, j :: 0 <= i < j < |run| ==> run[i].now <= run[j].now)
    && (forall i :: 0 <= i < |run| ==> from <= run[i].now <= to)
    && from <= to
  }

  predicate Consistent(timer: Timer) {
    Supported(timer.seconds) && timer.deadline == timer.activity + timer.seconds * SECOND
  }

  // ---------------------------------------------------------------- what the timer means

  // The last interaction and the last supported tier of a run, whatever the timer did with them.
  function LastTouch(start: Time, run: seq<Event>): Time {
    if run == [] then start
    else match run[|run| - 1]
      case Touch(now) => now
      case SetTier(_, _) => LastTouch(start, run[..|run| - 1])
  }

  function LastTier(tier: int, run: seq<Event>): int {
    if run == [] then tier
    else match run[|run| - 1]
      case Touch(_) => LastTier(tier, run[..|run| - 1])
      case SetTier(_, seconds) => if Supported(seconds) then seconds else LastTier(tier, run[..|run| - 1])
  }

  // Nobody was ever idle for the tier then in force: neither at an event nor at `now`.
  predicate NeverIdle(start: Time, tier: int, run: seq<Event>, now: Time) {
    && now < LastTouch(start, run) + LastTier(tier, run) * SECOND
    && (forall i :: 0 <= i < |run| ==>
          run[i].now < LastTouch(start, run[..i]) + LastTier(tier, run[..i]) * SECOND)
  }

  // A timer is active exactly when its user never idled; it then shows the last interaction and tier.
  lemma {:induction false} ActiveExactly(start: Time, tier: int, run: seq<Event>, now: Time)
    requires Supported(tier) && Timely(start, run, now)
    ensures var timer := FireAll(Started(start, tier).value, run);
      Active(timer, now) <==> NeverIdle(start, tier, run, now)
    ensures var timer := FireAll(Started(start, tier).value, run);
      Active(timer, now) ==> timer.activity == LastTouch(start, run) && timer.seconds == LastTier(tier, run)
  {
    hide NeverIdle;
    if run == [] {
      NeverIdleAtStart(start, tier, now);
    } else {
      var n := |run| - 1;
      ActiveExactly(start, tier, run[..n], run[n].now);
      FireAllConsistent(Started(start, tier).value, run[..n]);
      NeverIdleLonger(start, tier, run, now);
    }
  }

  lemma NeverIdleAtStart(start: Time, tier: int, now: Time)
    ensures NeverIdle(start, tier, [], now) <==> now < start + tier * SECOND
  {
  }

  lemma NeverIdleLonger(start: Time, tier: int, run: seq<Event>, now: Time)
    requires run != []
    ensures NeverIdle(start, tier, run, now) <==>
      (NeverIdle(start, tier, run[..|run| - 1], run[|run| - 1].now) && now < LastTouch(start, run) + LastTier(tier, run) * SECOND)
  {
    hide LastTouch, LastTier;
    var n := |run| - 1;
    assert forall i :: 0 <= i < n ==> run[..n][..i] == run[..i];
  }

  lemma {:induction false} FireAllConsistent(timer: Timer, run: seq<Event>)
    requires Consistent(timer)
    ensures Consistent(FireAll(timer, run))
  {
    if run != [] { FireAllConsistent(timer, run[..|run| - 1]); }
  }

  // Once expired, a timer ignores everything that follows.
  lemma {:induction false} ExpiredForGood(timer: Timer, since: Time, run: seq<Event>, now: Time)
    requires !Active(timer, since) && Timely(since, run, now)
    ensures FireAll(timer, run) == timer && !Active(FireAll(timer, run), now)
  {
    if run != [] { ExpiredForGood(timer, since, run[..|run| - 1], now); }
  }

  // ---------------------------------------------------------------- the timer object

  class IdleTimer {
    var activity: Time
    var deadline: Time
    var seconds: int

    ghost function Model(): Timer
      reads this
    {
      Timer(activity, deadline, seconds)
    }

    constructor (now: Time, seconds: int)
      requires Supported(seconds)
      ensures Started(now, seconds) == Some(Model()) && Consistent(Model())
    {
      activity, deadline, this.seconds := now, now + seconds * SECOND, seconds;
    }

    method Touch(now: Time) returns (ok: bool)
      requires Consistent(Model())
      modifies this
      ensures Model() == Fire(old(Model()), Event.Touch(now)) && Consistent(Model())
      ensures ok == Active(old(Model()), now)
      ensures ok ==> deadline - now == seconds * SECOND
    {
      if !(now < deadline) { return false; }
      activity := now;
      deadline := now + seconds * SECOND;
      return true;
    }

    // The tier changes counting from the last interaction; an expired session stays expired.
    method SetTier(now: Time, seconds: int) returns (ok: bool)
      requires Consistent(Model())
      modifies this
      ensures Model() == Fire(old(Model()), Event.SetTier(now, seconds)) && Consistent(Model())
      ensures ok == (Active(old(Model()), now) && Supported(seconds) && Active(Model(), now))
      ensures ok ==> this.seconds == seconds
    {
      if !(now < deadline) || (seconds != 7200 && seconds != 14400) { return false; }
      this.seconds := seconds;
      deadline := activity + seconds * SECOND;
      return now < deadline;
    }
  }

  // ---------------------------------------------------------------- the session

  // An idle notice, by the clock reading and the deadline it carries.
  datatype Notice = Notice(tier: int, deadline: Time, at: Time, warning: int)

  predicate ValidIdle(n: Notice) {
    Supported(n.tier) && n.warning == WARNING && n.at < n.deadline && n.deadline - n.at <= n.tier * SECOND
  }

  // What a peer's own reader is at: nothing, an activity, or a notice that it owes. It does one thing
  // after the other, and reads the clock before it takes the lock.
  datatype Own = Free | Acting(now: Time) | Owing | Reading(at: Time)

  // `tier` is the access record's; `noticed` is when activity was last reported. The readers of other
  // peers and the maintenance loop recheck the peer too: `owed` counts the notices they owe it, and
  // `readings` holds the clock readings of those they have begun.
  datatype Session = Session(clock: Time, timer: Timer, tier: int, ready: bool, ended: bool,
                             noticed: Option<Time>, sent: seq<Notice>, own: Own, owed: nat, readings: multiset<Time>)

  // Steps of the session, each one critical section or one clock reading; `own` says whose step it is.
  // A notice is owed after a tier change or a recorded activity only.
  datatype Step =
    | DoHello(now: Time, at: Time, tier: int)
    | DoCheck(own: bool, now: Time, later: Time, tier: int)
    | DoAct(now: Time)
    | DoActivity
    | DoRead(own: bool, now: Time)
    | DoNotice(own: bool, at: Time)
    | DoTick(now: Time)

  function NoticeAt(s: Session, at: Time): Notice {
    Notice(s.tier, s.timer.deadline, at, WARNING)
  }

  // A notice that does not validate is an error, which ends the session.
  function Notify(s: Session, at: Time): Session {
    if ValidIdle(NoticeAt(s, at)) then s.(sent := s.sent + [NoticeAt(s, at)]) else s.(ended := true)
  }

  function Hello(s: Session, now: Time, at: Time, tier: int): Session {
    if s.ready || s.ended || !(s.clock <= now <= at) then s
    else match Started(now, tier)
      case None => s.(clock := at, ended := true)
      case Some(timer) =>
        var t := Notify(s.(clock := at, timer := timer, tier := tier), at);
        if t.ended then t else t.(ready := true)
  }

  predicate Running(s: Session) {
    s.ready && !s.ended
  }

  function Owe(s: Session, own: bool): Session {
    if own then s.(own := Owing) else s.(owed := s.owed + 1)
  }

  function Check(s: Session, own: bool, now: Time, later: Time, tier: int): Session {
    if !Running(s) || (own && !s.own.Free?) || !(s.clock <= now <= later) then s
    else
      var changed := tier != s.tier;
      var timer := if changed then Fire(s.timer, SetTier(now, tier)) else s.timer;
      var ok := !changed || (Active(s.timer, now) && Supported(tier) && Active(timer, now));
      var t := s.(clock := later, timer := timer, tier := tier, ended := !ok || !Active(timer, later));
      if changed && !t.ended then Owe(t, own) else t
  }

  function Act(s: Session, now: Time): Session {
    if !Running(s) || !s.own.Free? || now < s.clock then s else s.(clock := now, own := Acting(now))
  }

  function Activity(s: Session): Session {
    if !Running(s) || !s.own.Acting? then s
    else
      var now := s.own.now;
      if !Active(s.timer, now) then s.(own := Free, ended := true)
      else if s.noticed.Some? && now - s.noticed.value < SECOND then s.(own := Free)
      else s.(own := Owing, timer := Fire(s.timer, Touch(now)), noticed := Some(now))
  }

  function ReadClock(s: Session, own: bool, now: Time): Session {
    if !Running(s) || now < s.clock then s
    else if own then if s.own.Owing? then s.(clock := now, own := Reading(now)) else s
    else if s.owed > 0 then s.(clock := now, owed := s.owed - 1, readings := s.readings + multiset{now}) else s
  }

  predicate Pending(s: Session, own: bool, at: Time) {
    if own then s.own == Reading(at) else at in s.readings
  }

  function IdleNotice(s: Session, own: bool, at: Time): Session {
    if !Running(s) || !Pending(s, own, at) then s
    else Notify(if own then s.(own := Free) else s.(readings := s.readings - multiset{at}), at)
  }

  function Tick(s: Session, now: Time): Session {
    if !Running(s) || now < s.clock then s
    else s.(clock := now, ended := !Active(s.timer, now))
  }

  function Next(s: Session, step: Step): Session {
    match step
    case DoHello(now, at, tier) => Hello(s, now, at, tier)
    case DoCheck(own, now, later, tier) => Check(s, own, now, later, tier)
    case DoAct(now) => Act(s, now)
    case DoActivity => Activity(s)
    case DoRead(own, now) => ReadClock(s, own, now)
    case DoNotice(own, at) => IdleNotice(s, own, at)
    case DoTick(now) => Tick(s, now)
  }

  function Run(s: Session, run: seq<Step>): Session
    decreases |run|
  {
    if run == [] then s else Run(Next(s, run[0]), run[1..])
  }

  function Unready(clock: Time): Session {
    Session(clock, Timer(clock, clock, 0), 0, false, false, None, [], Free, 0, multiset{})
  }

  // The peer's own reader never holds a clock reading from before the last recorded activity.
  predicate OwnIsCurrent(s: Session) {
    && (s.own.Acting? ==> s.timer.activity <= s.own.now <= s.clock)
    && (s.own.Reading? ==> s.timer.activity <= s.own.at <= s.clock)
  }

  // A running session's timer runs on the tier of its access record, and dates from the last report.
  ghost predicate Valid(s: Session) {
    && (Running(s) ==>
          s.timer.seconds == s.tier && Consistent(s.timer) && s.timer.activity <= s.clock && OwnIsCurrent(s) &&
          (s.noticed.Some? ==> s.noticed.value == s.timer.activity))
    && (!s.ready ==> s.noticed == None && s.own == Free && s.owed == 0)
    && (forall at :: at in s.readings ==> s.ready && at <= s.clock)
    && (forall n :: n in s.sent ==> ValidIdle(n))
  }

  lemma HelloValid(s: Session, now: Time, at: Time, tier: int)
    requires Valid(s)
    ensures Valid(Hello(s, now, at, tier))
  {
  }

  lemma CheckValid(s: Session, own: bool, now: Time, later: Time, tier: int)
    requires Valid(s)
    ensures Valid(Check(s, own, now, later, tier))
  {
    hide ValidIdle;
  }

  lemma ActValid(s: Session, now: Time)
    requires Valid(s)
    ensures Valid(Act(s, now)) && Valid(Activity(s)) && Valid(Tick(s, now))
  {
    hide ValidIdle;
  }

  lemma ReadValid(s: Session, own: bool, now: Time)
    requires Valid(s)
    ensures Valid(ReadClock(s, own, now))
  {
    hide ValidIdle;
  }

  lemma NoticeValid(s: Session, own: bool, at: Time)
    requires Valid(s)
    ensures Valid(IdleNotice(s, own, at))
  {
    hide ValidIdle;
  }

  lemma NextValid(s: Session, step: Step)
    requires Valid(s)
    ensures Valid(Next(s, step))
  {
    hide Valid, Hello, Check, Act, Activity, ReadClock, IdleNotice, Tick;
    match step
    case DoHello(now, at, tier) => HelloValid(s, now, at, tier);
    case DoCheck(own, now, later, tier) => CheckValid(s, own, now, later, tier);
    case DoAct(now) => ActValid(s, now);
    case DoActivity => ActValid(s, s.clock);
    case DoRead(own, now) => ReadValid(s, own, now);
    case DoNotice(own, at) => NoticeValid(s, own, at);
    case DoTick(now) => ActValid(s, now);
  }

  lemma {:induction false} RunValid(s: Session, run: seq<Step>)
    requires Valid(s)
    ensures Valid(Run(s, run))
    decreases |run|
  {
    hide Valid, Next;
    if run != [] {
      NextValid(s, run[0]);
      RunValid(Next(s, run[0]), run[1..]);
    }
  }

  // ---------------------------------------------------------------- notices

  // A pending notice ends its session, however it came about, exactly when the deadline had passed
  // at its clock reading, or it is somebody else's and an activity was recorded after the reading.
  lemma NoticeExactly(clock: Time, run: seq<Step>, own: bool, at: Time)
    requires var s := Run(Unready(clock), run); Running(s) && Pending(s, own, at)
    ensures var s := Run(Unready(clock), run);
      Next(s, DoNotice(own, at)).ended <==> s.timer.deadline <= at || (!own && at < s.timer.activity)
  {
    hide Run;
    RunValid(Unready(clock), run);
  }

  // So a peer's own notice never ends a session that is active: it is always sent.
  lemma OwnNoticeIsSent(clock: Time, run: seq<Step>, at: Time)
    requires var s := Run(Unready(clock), run); Running(s) && s.own == Reading(at) && Active(s.timer, s.clock)
    ensures var s := Run(Unready(clock), run);
      var t := Next(s, DoNotice(true, at));
      !t.ended && t.sent == s.sent + [Notice(s.timer.seconds, s.timer.deadline, at, WARNING)]
  {
    hide Run;
    RunValid(Unready(clock), run);
  }

  // Somebody else's may: the maintenance loop finds a new tier and reads the clock for the notice it
  // owes, then the user acts, and the notice ends a session that is active.
  lemma ActivityOvertakesNotice()
    ensures var s := Run(Unready(0), [DoHello(0, 0, 7200), DoCheck(false, 1, 1, 14400), DoRead(false, 1), DoAct(2), DoActivity]);
      Running(s) && Active(s.timer, s.clock) && Pending(s, false, 1) && Next(s, DoNotice(false, 1)).ended
  {
    RunFive(Unready(0), DoHello(0, 0, 7200), DoCheck(false, 1, 1, 14400), DoRead(false, 1), DoAct(2), DoActivity);
  }

  lemma RunFrom(s: Session, step: Step, run: seq<Step>)
    ensures Run(s, [step] + run) == Run(Next(s, step), run)
  {
    assert ([step] + run)[1..] == run;
  }

  lemma RunFive(s: Session, a: Step, b: Step, c: Step, d: Step, e: Step)
    ensures Run(s, [a, b, c, d, e]) == Next(Next(Next(Next(Next(s, a), b), c), d), e)
  {
    hide Next, Run;
    assert [a] + [b, c, d, e] == [a, b, c, d, e] && [b] + [c, d, e] == [b, c, d, e];
    assert [c] + [d, e] == [c, d, e] && [d] + [e] == [d, e] && [e] + [] == [e];
    RunFrom(s, a, [b, c, d, e]);
    RunFrom(Next(s, a), b, [c, d, e]);
    RunFrom(Next(Next(s, a), b), c, [d, e]);
    RunFrom(Next(Next(Next(s, a), b), c), d, [e]);
    RunFrom(Next(Next(Next(Next(s, a), b), c), d), e, []);
    RunNothing(Next(Next(Next(Next(Next(s, a), b), c), d), e));
  }

  lemma RunNothing(s: Session)
    ensures Run(s, []) == s
  {
  }

  // It takes a change of tier: while every answer names one tier, nobody else owes a notice.
  ghost predicate OneTier(run: seq<Step>, tier: int) {
    forall i :: 0 <= i < |run| ==> (run[i].DoHello? || run[i].DoCheck?) ==> run[i].tier == tier
  }

  lemma {:induction false} OneTierOwesNothing(s: Session, run: seq<Step>, tier: int)
    requires OneTier(run, tier) && s.owed == 0 && s.readings == multiset{} && (s.ready ==> s.tier == tier)
    ensures var t := Run(s, run); t.owed == 0 && t.readings == multiset{}
    decreases |run|
  {
    if run != [] {
      assert OneTier([run[0]], tier) && OneTier(run[1..], tier);
      OneTierOwesNothing(Next(s, run[0]), run[1..], tier);
    }
  }

  lemma NoActiveSessionEndsOnOneTier(clock: Time, run: seq<Step>, tier: int, own: bool, at: Time)
    requires OneTier(run, tier)
    requires var s := Run(Unready(clock), run); Running(s) && Active(s.timer, s.clock) && Pending(s, own, at)
    ensures !Next(Run(Unready(clock), run), DoNotice(own, at)).ended
  {
    hide Run;
    OneTierOwesNothing(Unready(clock), run, tier);
    RunValid(Unready(clock), run);
  }

  // Reports are limited to one a second; an activity never costs its user more than that second.
  lemma ThrottleCostsUnderASecond(clock: Time, run: seq<Step>)
    requires var s := Run(Unready(clock), run); Running(s) && s.own.Acting? && !Next(s, DoActivity).ended
    ensures var s := Run(Unready(clock), run);
      var t := Next(s, DoActivity);
      s.own.now + t.tier * SECOND - SECOND < t.timer.deadline <= s.own.now + t.tier * SECOND
  {
    hide Run;
    RunValid(Unready(clock), run);
  }

  // ---------------------------------------------------------------- what each step leads to

  // A session becomes ready exactly on a tier there is, if its first notice is written within it; its
  // deadline counts from the access check. Otherwise it has ended.
  lemma HelloExactly(s: Session, now: Time, at: Time, tier: int)
    requires !s.ready && !s.ended && s.clock <= now <= at
    ensures var t := Hello(s, now, at, tier);
      && (t.ended <==> !(Supported(tier) && at < now + tier * SECOND)) && t.ready == !t.ended && t.clock == at
      && (t.ready ==>
            && t.timer.activity == now && t.timer.deadline == now + tier * SECOND && t.timer.seconds == tier && t.tier == tier
            && t.sent == s.sent + [Notice(tier, now + tier * SECOND, at, WARNING)] && t.noticed == s.noticed && t.own == s.own)
  {
  }

  // A recheck on the same tier ends the session exactly past its deadline. On another tier it does so
  // exactly if there is no such tier, the deadline had passed, or the last interaction is longer ago than
  // the new tier allows. Otherwise the deadline counts from that interaction, and a change owes a notice.
  lemma CheckExactly(clock: Time, run: seq<Step>, own: bool, now: Time, later: Time, tier: int)
    requires var s := Run(Unready(clock), run); Running(s) && (own ==> s.own.Free?) && s.clock <= now <= later
    ensures var s := Run(Unready(clock), run);
      var t := Next(s, DoCheck(own, now, later, tier));
      && (t.ended <==>
            s.timer.activity + tier * SECOND <= later || (tier != s.tier && (!Supported(tier) || s.timer.deadline <= now)))
      && (!t.ended ==>
            && t.tier == tier && t.timer == Timer(s.timer.activity, s.timer.activity + tier * SECOND, tier)
            && t.clock == later && t.sent == s.sent && t.noticed == s.noticed && t.readings == s.readings
            && t.own == (if own && tier != s.tier then Owing else s.own)
            && t.owed == (if !own && tier != s.tier then s.owed + 1 else s.owed))
  {
    hide Run;
    RunValid(Unready(clock), run);
  }

  // An activity ends the session exactly if it began past the deadline. Otherwise it is not reported
  // within a second of the last one, and else counts from when it began and owes a notice.
  lemma ActivityExactly(s: Session)
    requires Running(s) && s.own.Acting? && s.timer.seconds == s.tier
    ensures var (t, now) := (Next(s, DoActivity), s.own.now);
      && (t.ended <==> s.timer.deadline <= now)
      && (!t.ended ==>
            var recent := s.noticed.Some? && now < s.noticed.value + SECOND;
            && t.timer == (if recent then s.timer else Timer(now, now + s.tier * SECOND, s.tier))
            && t.noticed == (if recent then s.noticed else Some(now)) && t.own == (if recent then Free else Owing))
      && t.sent == s.sent && t.clock == s.clock && t.tier == s.tier && t.owed == s.owed && t.readings == s.readings
  {
  }

  // A tick ends the session exactly if the last interaction is as long ago as the tier allows, and does
  // nothing else.
  lemma TickExactly(clock: Time, run: seq<Step>, now: Time)
    requires var s := Run(Unready(clock), run); Running(s) && s.clock <= now
    ensures var s := Run(Unready(clock), run);
      Next(s, DoTick(now)) == s.(clock := now, ended := s.timer.activity + s.tier * SECOND <= now)
  {
    hide Run;
    RunValid(Unready(clock), run);
  }

  // ---------------------------------------------------------------- expiry

  // Past its deadline, and without an activity begun before the deadline.
  predicate Expired(s: Session) {
    s.ready && !Active(s.timer, s.clock) && (s.own.Acting? ==> !Active(s.timer, s.own.now))
  }

  // An expired session is never active again.
  lemma {:induction false} SessionExpiresForGood(s: Session, run: seq<Step>)
    requires Expired(s)
    ensures Expired(Run(s, run))
    decreases |run|
  {
    hide Next, Expired;
    if run != [] {
      NextExpired(s, run[0]);
      SessionExpiresForGood(Next(s, run[0]), run[1..]);
    }
  }

  lemma NextExpired(s: Session, step: Step)
    requires Expired(s)
    ensures Expired(Next(s, step))
  {
  }

  // The one step that makes a session active past its deadline is an activity that began before it.
  lemma OnlyEarlierActivityRevives(clock: Time, run: seq<Step>, step: Step)
    requires var s := Run(Unready(clock), run); Running(s) && !Active(s.timer, s.clock)
    ensures var s := Run(Unready(clock), run);
      var t := Next(s, step);
      Active(t.timer, t.clock) <==>
      (step == DoActivity && s.own.Acting? && Active(s.timer, s.own.now) && s.clock < s.own.now + s.tier * SECOND &&
       (s.noticed == None || s.noticed.value + SECOND <= s.own.now))
  {
    hide Run;
    RunValid(Unready(clock), run);
  }

  // ---------------------------------------------------------------- the session object

  lemma KnownTimer(s: Session)
    requires Valid(s) && Running(s)
    ensures Consistent(s.timer)
  {
  }

  class PeerSession {
    var idle: IdleTimer
    var tier: int
    var lastNotice: Option<Time>
    var stopped: bool
    ghost var clock: Time
    ghost var sent: seq<Notice>
    ghost var own: Own
    ghost var owed: nat
    ghost var readings: multiset<Time>

    ghost function Model(): Session
      reads this, idle
    {
      Session(clock, idle.Model(), tier, true, stopped, lastNotice, sent, own, owed, readings)
    }

    // A session that has just become ready.
    constructor (now: Time, at: Time, tier: int)
      requires Supported(tier) && now <= at < now + tier * SECOND
      ensures fresh(idle) && Valid(Model())
      ensures Model() == Hello(Unready(now), now, at, tier)
    {
      idle := new IdleTimer(now, tier);
      this.tier, lastNotice, stopped, clock := tier, None, false, at;
      sent := [Notice(tier, now + tier * SECOND, at, WARNING)];
      own, owed, readings := Free, 0, multiset{};
    }

    // The recheck of access: `tier` is what the backend answers now; `owes` says that a notice follows.
    method CheckAccess(ghost byOwn: bool, now: Time, later: Time, tier: int) returns (owes: bool)
      requires Valid(Model()) && !stopped && clock <= now <= later && (byOwn ==> own.Free?)
      modifies this, idle
      ensures Model() == Check(old(Model()), byOwn, now, later, tier) && Valid(Model()) && idle == old(idle)
      ensures owes == (tier != old(this.tier) && !stopped)
    {
      hide Valid;
      ghost var was := Model();
      KnownTimer(was);
      CheckValid(was, byOwn, now, later, tier);
      var previous := this.tier;
      this.tier := tier;
      clock := later;
      if tier != previous {
        var ok := idle.SetTier(now, tier);
        if !ok {
          stopped := true;
          return false;
        }
      }
      stopped := !(later < idle.deadline);
      owes := tier != previous && !stopped;
      if owes {
        if byOwn { own := Owing; } else { owed := owed + 1; }
      }
    }

    // `now` is the clock reading the activity began with; `owes` says that a notice follows.
    method ActivityNotice(now: Time) returns (owes: bool)
      requires Valid(Model()) && !stopped && own == Acting(now)
      modifies this, idle
      ensures Model() == Activity(old(Model())) && Valid(Model()) && idle == old(idle)
      ensures owes <==> own.Owing?
    {
      own := Free;
      if !(now < idle.deadline) {
        stopped := true;
        return false;
      }
      if lastNotice.Some? && now - lastNotice.value < SECOND { return false; }
      var _ := idle.Touch(now);
      lastNotice := Some(now);
      own := Owing;
      return true;
    }

    // `at` is the clock reading the notice was started with.
    method IdleNotice(ghost byOwn: bool, at: Time)
      requires Valid(Model()) && !stopped && Pending(Model(), byOwn, at)
      modifies this
      ensures Model() == Next(old(Model()), DoNotice(byOwn, at)) && Valid(Model())
    {
      hide Valid;
      NoticeValid(Model(), byOwn, at);
      if byOwn { own := Free; } else { readings := readings - multiset{at}; }
      var left := idle.deadline - at;
      if (tier == 7200 || tier == 14400) && 0 < left <= tier * SECOND {
        sent := sent + [Notice(tier, idle.deadline, at, WARNING)];
      } else {
        stopped := true;
      }
    }
  }
}
