/** Weekly alerts by calls that overlap (run in iic_booking/automation/oic_alerts.py): looking for a row, sending and
    writing the row are separate steps, and no lock keeps two runs of it apart. */
module OicOverlap {
  import opened Common
  import opened WeekDates
  import opened OicAlerts

  /** What a call is at with an officer. */
  datatype Phase =
    | Idle
    | Unsent(mail: Mail)     // found no row, has yet to send
    | Unlogged(mail: Mail)   // has sent, has yet to write the row

  /** `lost` are the emails whose row was never written. */
  datatype World = World(log: seq<Entry>, outbox: seq<Mail>, calls: seq<Phase>, lost: seq<Mail>)

  datatype Event =
    | Check(w: nat, day: Day, user: UserId)
    | Send(w: nat)
    | Fail(w: nat, logged: bool)   // the email raises, and its row is written or not; or the call ends here
    | Write(w: nat)
    | Lose(w: nat)                 // the row is silently lost, or the call ends here

  function MailFor(day: Day, user: UserId): Mail {
    Mail(day, user, Target(WeekKey(day), user))
  }

  function Apply(s: World, e: Event): World {
    if e.w >= |s.calls| then s
    else
      var p := s.calls[e.w];
      match e
      case Check(w, day, user) =>
        if p.Idle? && !WasSent(s.log, MailFor(day, user).target) then
          s.(calls := s.calls[w := Unsent(MailFor(day, user))])
        else s
      case Send(w) =>
        if p.Unsent? then s.(outbox := s.outbox + [p.mail], calls := s.calls[w := Unlogged(p.mail)]) else s
      case Fail(w, logged) =>
        if p.Unsent? then
          s.(log := s.log + if logged then [Entry(Failed, p.mail.target)] else [], calls := s.calls[w := Idle])
        else s
      case Write(w) =>
        if p.Unlogged? then s.(log := s.log + [Entry(Sent, p.mail.target)], calls := s.calls[w := Idle]) else s
      case Lose(w) =>
        if p.Unlogged? then s.(lost := s.lost + [p.mail], calls := s.calls[w := Idle]) else s
  }

  function Run(s: World, events: seq<Event>): World {
    if events == [] then s else Apply(Run(s, events[..|events| - 1]), events[|events| - 1])
  }

  function Start(log: seq<Entry>, n: nat): World {
    World(log, [], seq(n, i => Idle), [])
  }

  /* ---- Counting ------------------------------------------------------------------------------------------------ */

  function CountMails(mails: seq<Mail>, target: string): nat {
    if mails == [] then 0
    else CountMails(mails[..|mails| - 1], target) + if mails[|mails| - 1].target == target then 1 else 0
  }

  function UnsentOn(calls: seq<Phase>, target: string): nat {
    if calls == [] then 0
    else UnsentOn(calls[..|calls| - 1], target) + IsUnsent(calls[|calls| - 1], target)
  }

  function UnloggedOn(calls: seq<Phase>, target: string): nat {
    if calls == [] then 0
    else UnloggedOn(calls[..|calls| - 1], target) + IsUnlogged(calls[|calls| - 1], target)
  }

  function IsUnsent(p: Phase, target: string): nat {
    if p.Unsent? && p.mail.target == target then 1 else 0
  }

  function IsUnlogged(p: Phase, target: string): nat {
    if p.Unlogged? && p.mail.target == target then 1 else 0
  }

  lemma CountMore(mails: seq<Mail>, m: Mail, target: string)
    ensures CountMails(mails + [m], target) == CountMails(mails, target) + if m.target == target then 1 else 0
  {
    assert (mails + [m])[..|mails|] == mails;
  }

  lemma {:induction false} PhaseUpdate(calls: seq<Phase>, w: nat, p: Phase, target: string)
    requires w < |calls|
    ensures UnsentOn(calls[w := p], target)
         == UnsentOn(calls, target) + IsUnsent(p, target) - IsUnsent(calls[w], target)
    ensures UnloggedOn(calls[w := p], target)
         == UnloggedOn(calls, target) + IsUnlogged(p, target) - IsUnlogged(calls[w], target)
  {
    hide IsUnsent, IsUnlogged;
    var n := |calls| - 1;
    if w == n {
      assert calls[w := p][..n] == calls[..n];
    } else {
      PhaseUpdate(calls[..n], w, p, target);
      assert calls[w := p][..n] == calls[..n][w := p];
    }
  }

  lemma {:induction false} PhaseBound(calls: seq<Phase>, target: string)
    ensures UnsentOn(calls, target) + UnloggedOn(calls, target) <= |calls|
  {
    if calls != [] {
      PhaseBound(calls[..|calls| - 1], target);
    }
  }

  lemma {:induction false} NobodyBusy(n: nat, target: string)
    ensures UnsentOn(Start([], n).calls, target) == 0 && UnloggedOn(Start([], n).calls, target) == 0
  {
    if n > 0 {
      NobodyBusy(n - 1, target);
      assert Start([], n).calls[..n - 1] == Start([], n - 1).calls;
    }
  }

  /* ---- At most one alert for each call ------------------------------------------------------------------------- */

  /** The emails of a target and the calls about to send one, together, are at most the calls and the rows lost; while
      none is logged, every email still waits for its row or has lost it. */
  ghost predicate Inv(log0: seq<Entry>, s: World, target: string) {
    && CountMails(s.outbox, target) + UnsentOn(s.calls, target) <= |s.calls| + CountMails(s.lost, target)
    && (!WasSent(s.log, target) ==>
          CountMails(s.outbox, target) == UnloggedOn(s.calls, target) + CountMails(s.lost, target))
    && (WasSent(log0, target) ==>
          WasSent(s.log, target) && CountMails(s.outbox, target) + UnsentOn(s.calls, target) == 0)
  }

  lemma SendKeeps(log0: seq<Entry>, s: World, w: nat, target: string)
    requires Inv(log0, s, target) && w < |s.calls| && s.calls[w].Unsent?
    ensures Inv(log0, Apply(s, Send(w)), target)
  {
    PhaseUpdate(s.calls, w, Unlogged(s.calls[w].mail), target);
    CountMore(s.outbox, s.calls[w].mail, target);
  }

  lemma CheckKeeps(log0: seq<Entry>, s: World, w: nat, day: Day, user: UserId, target: string)
    requires Inv(log0, s, target) && w < |s.calls| && s.calls[w].Idle?
    requires !WasSent(s.log, MailFor(day, user).target)
    ensures Inv(log0, Apply(s, Check(w, day, user)), target)
  {
    var p := Unsent(MailFor(day, user));
    PhaseUpdate(s.calls, w, p, target);
    PhaseBound(s.calls[w := p], target);
  }

  lemma StepKeeps(log0: seq<Entry>, s: World, e: Event, target: string)
    requires Inv(log0, s, target)
    ensures Inv(log0, Apply(s, e), target) && |Apply(s, e).calls| == |s.calls|
  {
    if e.w < |s.calls| {
      var p := s.calls[e.w];
      match e
      case Check(w, day, user) =>
        if p.Idle? && !WasSent(s.log, MailFor(day, user).target) {
          CheckKeeps(log0, s, w, day, user, target);
        }
      case Send(w) =>
        if p.Unsent? {
          SendKeeps(log0, s, w, target);
        }
      case Fail(w, _) => PhaseUpdate(s.calls, w, Idle, target);
      case Write(w) => PhaseUpdate(s.calls, w, Idle, target);
      case Lose(w) =>
        PhaseUpdate(s.calls, w, Idle, target);
        if p.Unlogged? {
          CountMore(s.lost, p.mail, target);
        }
    }
  }

  lemma {:induction false} RunKeeps(log0: seq<Entry>, n: nat, events: seq<Event>, target: string)
    ensures Inv(log0, Run(Start(log0, n), events), target) && |Run(Start(log0, n), events).calls| == n
  {
    if events == [] {
      NobodyBusy(n, target);
      assert Start(log0, n).calls == Start([], n).calls;
    } else {
      RunKeeps(log0, n, events[..|events| - 1], target);
      StepKeeps(log0, Run(Start(log0, n), events[..|events| - 1]), events[|events| - 1], target);
    }
  }

  /* ---- In terms of weeks and officers -------------------------------------------------------------------------- */

  /** The alerts to an officer for the week of a day. */
  function AlertsTo(outbox: seq<Mail>, day: Day, user: UserId): nat {
    if outbox == [] then 0
    else
      var m := outbox[|outbox| - 1];
      AlertsTo(outbox[..|outbox| - 1], day, user) + if m.user == user && MondayOf(m.day) == MondayOf(day) then 1 else 0
  }

  lemma {:induction false} AlertsByTarget(outbox: seq<Mail>, day: Day, user: UserId)
    requires RightTargets(outbox)
    ensures AlertsTo(outbox, day, user) == CountMails(outbox, Target(WeekKey(day), user))
  {
    hide Target, WeekKey, MondayOf;
    if outbox != [] {
      var m := outbox[|outbox| - 1];
      AlertsByTarget(outbox[..|outbox| - 1], day, user);
      assert RightTarget(m);
      TargetNamesWeekAndUser(m.day, m.user, day, user);
    }
  }

  ghost predicate AllRight(s: World) {
    && RightTargets(s.outbox) && RightTargets(s.lost)
    && forall p <- s.calls :: !p.Idle? ==> RightTarget(p.mail)
  }

  lemma StepRight(s: World, e: Event)
    requires AllRight(s)
    ensures AllRight(Apply(s, e))
  {
    hide Target, WeekKey;
    if e.w < |s.calls| {
      assert s.calls[e.w] in s.calls;
    }
  }

  lemma {:induction false} RunRight(log0: seq<Entry>, n: nat, events: seq<Event>)
    ensures AllRight(Run(Start(log0, n), events))
  {
    if events != [] {
      RunRight(log0, n, events[..|events| - 1]);
      StepRight(Run(Start(log0, n), events[..|events| - 1]), events[|events| - 1]);
    }
  }

  /** However n calls overlap, each for any days and officers, with any emails failing: an officer gets at most n alerts
      for a week, and one more for each row that is lost; and none if the log has one as sent from the start. */
  lemma AlertsPerWeek(log0: seq<Entry>, n: nat, events: seq<Event>, day: Day, user: UserId)
    ensures
      var s := Run(Start(log0, n), events);
      && AlertsTo(s.outbox, day, user) <= n + AlertsTo(s.lost, day, user)
      && (WasSent(log0, Target(WeekKey(day), user)) ==> AlertsTo(s.outbox, day, user) == 0)
  {
    var s := Run(Start(log0, n), events);
    RunKeeps(log0, n, events, Target(WeekKey(day), user));
    RunRight(log0, n, events);
    AlertsByTarget(s.outbox, day, user);
    AlertsByTarget(s.lost, day, user);
  }

  /* ---- The bound is reached ------------------------------------------------------------------------------------ */

  /** All n calls check the same officer, and then k of them send. */
  function CheckAll(n: nat, day: Day, user: UserId): seq<Event> {
    if n == 0 then [] else CheckAll(n - 1, day, user) + [Check(n - 1, day, user)]
  }

  function ThenSend(n: nat, k: nat, day: Day, user: UserId): seq<Event> {
    if k == 0 then CheckAll(n, day, user) else ThenSend(n, k - 1, day, user) + [Send(k - 1)]
  }

  lemma RunMore(s: World, events: seq<Event>, e: Event)
    ensures Run(s, events + [e]) == Apply(Run(s, events), e)
  {
    assert (events + [e])[..|events|] == events;
  }

  /** The first `checked` of n calls have checked, and the first `sent` of those have sent. */
  function Stage(log: seq<Entry>, mail: Mail, n: nat, checked: nat, sent: nat): World {
    World(log, seq(sent, i => mail),
          seq(n, i => if i < sent then Unlogged(mail) else if i < checked then Unsent(mail) else Idle), [])
  }

  lemma {:induction false} CheckAllRun(log: seq<Entry>, n: nat, k: nat, day: Day, user: UserId)
    requires k <= n && !WasSent(log, MailFor(day, user).target)
    ensures Run(Start(log, n), CheckAll(k, day, user)) == Stage(log, MailFor(day, user), n, k, 0)
  {
    hide MailFor;
    var mail := MailFor(day, user);
    if k > 0 {
      CheckAllRun(log, n, k - 1, day, user);
      RunMore(Start(log, n), CheckAll(k - 1, day, user), Check(k - 1, day, user));
      assert Stage(log, mail, n, k - 1, 0).calls[k - 1 := Unsent(mail)] == Stage(log, mail, n, k, 0).calls;
    } else {
      assert Start(log, n).calls == Stage(log, mail, n, 0, 0).calls;
    }
  }

  lemma {:induction false} ThenSendRun(log: seq<Entry>, n: nat, k: nat, day: Day, user: UserId)
    requires k <= n && !WasSent(log, MailFor(day, user).target)
    ensures Run(Start(log, n), ThenSend(n, k, day, user)) == Stage(log, MailFor(day, user), n, n, k)
  {
    hide MailFor;
    var mail := MailFor(day, user);
    if k > 0 {
      var s, s' := Stage(log, mail, n, n, k - 1), Stage(log, mail, n, n, k);
      ThenSendRun(log, n, k - 1, day, user);
      RunMore(Start(log, n), ThenSend(n, k - 1, day, user), Send(k - 1));
      assert s.calls[k - 1 := Unlogged(mail)] == s'.calls && s.outbox + [mail] == s'.outbox;
    } else {
      CheckAllRun(log, n, n, day, user);
    }
  }

  lemma {:induction false} AlertsOfOne(n: nat, day: Day, user: UserId)
    ensures AlertsTo(seq(n, i => MailFor(day, user)), day, user) == n
  {
    hide MondayOf;
    if n > 0 {
      AlertsOfOne(n - 1, day, user);
      assert seq(n, i => MailFor(day, user))[..n - 1] == seq(n - 1, i => MailFor(day, user));
    }
  }

  /** The bound cannot be lowered: n calls that all look before any of them writes send n alerts, and no row is lost. */
  lemma EveryCallSends(log: seq<Entry>, n: nat, day: Day, user: UserId)
    requires !WasSent(log, Target(WeekKey(day), user))
    ensures var s := Run(Start(log, n), ThenSend(n, n, day, user));
            AlertsTo(s.outbox, day, user) == n && s.lost == []
  {
    ThenSendRun(log, n, n, day, user);
    AlertsOfOne(n, day, user);
  }

  /* ---- One call left alone ------------------------------------------------------------------------------------- */

  /** What a call does with one officer. */
  function Steps(day: Day, user: UserId, a: Attempt): seq<Event> {
    [Check(0, day, user)] +
    if a.delivers then [Send(0), if a.logged then Write(0) else Lose(0)] else [Fail(0, a.logged)]
  }

  function StepsOfCall(call: Call, n: nat): seq<Event>
    requires n <= |call.users|
  {
    if n == 0 then [] else StepsOfCall(call, n - 1) + Steps(call.day, call.users[n - 1], call.fate(n - 1))
  }

  lemma {:induction false} RunConcat(s: World, first: seq<Event>, second: seq<Event>)
    ensures Run(s, first + second) == Run(Run(s, first), second)
  {
    hide Apply;
    var n := |second| - 1;
    if second == [] {
      assert first + second == first;
    } else {
      RunConcat(s, first, second[..n]);
      assert first + second == (first + second[..n]) + [second[n]];
      RunMore(s, first + second[..n], second[n]);
      assert Run(Run(s, first), second) == Apply(Run(Run(s, first), second[..n]), second[n]);
    }
  }

  lemma SendAndLog(s: World, mail: Mail, logged: bool)
    requires s.calls == [Unsent(mail)]
    ensures var s' := Apply(Apply(s, Send(0)), if logged then Write(0) else Lose(0));
            && s'.log == s.log + (if logged then [Entry(Sent, mail.target)] else [])
            && s'.outbox == s.outbox + [mail] && s'.calls == [Idle]
  {
  }

  lemma RunThree(s: World, a: Event, b: Event, c: Event)
    ensures Run(s, [a] + [b, c]) == Apply(Apply(Apply(s, a), b), c)
  {
    RunTwo(s, a, b);
    RunMore(s, [a] + [b], c);
    assert [a] + [b] + [c] == [a] + [b, c];
  }

  lemma RunTwo(s: World, a: Event, b: Event)
    ensures Run(s, [a] + [b]) == Apply(Apply(s, a), b)
  {
    RunMore(s, [], a);
    RunMore(s, [a], b);
    assert [] + [a] == [a];
  }

  lemma StepsRun(s: World, day: Day, user: UserId, a: Attempt)
    requires s.calls == [Idle]
    ensures var s', st := Run(s, Steps(day, user, a)), Offer(State(s.log, s.outbox), MailFor(day, user), a);
            s'.log == st.log && s'.outbox == st.outbox && s'.calls == [Idle]
  {
    hide MailFor, Run;
    var c, mail := Check(0, day, user), MailFor(day, user);
    var last := if a.logged then Write(0) else Lose(0);
    if a.delivers {
      RunThree(s, c, Send(0), last);
    } else {
      RunTwo(s, c, Fail(0, a.logged));
    }
    if a.delivers && !WasSent(s.log, mail.target) {
      SendAndLog(Apply(s, c), mail, a.logged);
    }
  }

  /** Alone, a live call is a run of these steps to the same log and outbox. */
  lemma {:induction false} SoloCall(s: World, call: Call, n: nat)
    requires s.calls == [Idle] && n <= |call.users|
    ensures
      var s', st := Run(s, StepsOfCall(call, n)), OfferAll(State(s.log, s.outbox), WeekKey(call.day), call, n);
      s'.log == st.log && s'.outbox == st.outbox && s'.calls == [Idle]
  {
    assert Run(s, []) == s;
    hide Run, Steps, Offer, WeekKey, Target;
    if n > 0 {
      var user := call.users[n - 1];
      SoloCall(s, call, n - 1);
      RunConcat(s, StepsOfCall(call, n - 1), Steps(call.day, user, call.fate(n - 1)));
      StepsRun(Run(s, StepsOfCall(call, n - 1)), call.day, user, call.fate(n - 1));
    }
  }
}
