/** Weekly alerts to officers in charge (iic_booking/automation/oic_alerts.py): each officer at most once a week. */
module OicAlerts {
  import opened Common
  import opened Text
  import opened WeekDates

  type UserId = nat

  datatype Action = Sent | Failed

  /** A row of the action log; `target` names the week and the officer. */
  datatype Entry = Entry(action: Action, target: string)

  /** An email that went out for the week of a day, and the target it was looked up under. */
  datatype Mail = Mail(day: Day, user: UserId, target: string)

  datatype State = State(log: seq<Entry>, outbox: seq<Mail>)

  /** What happens when an email is tried: it goes out or raises, and the log row is written or silently lost. */
  datatype Attempt = Attempt(delivers: bool, logged: bool)

  /** One call: its flags, the day whose week is reported, the officers with flagged equipment, and what happens to
      the email of each of them. */
  datatype Call = Call(dryRun: bool, force: bool, enabled: bool, day: Day, users: seq<UserId>, fate: nat -> Attempt)

  datatype Summary = Summary(week: string, recipients: nat, sent: nat, skipped: nat)

  /** `f"{key}:{user.pk}"` */
  function Target(key: string, user: UserId): string {
    key + ":" + Decimal(user)
  }

  predicate WasSent(log: seq<Entry>, target: string) {
    Entry(Sent, target) in log
  }

  function Offer(st: State, mail: Mail, a: Attempt): State {
    if WasSent(st.log, mail.target) then st
    else
      var row := if a.logged then [Entry(if a.delivers then Sent else Failed, mail.target)] else [];
      State(st.log + row, if a.delivers then st.outbox + [mail] else st.outbox)
  }

  /** After the first n officers. */
  function OfferAll(st: State, key: string, call: Call, n: nat): State
    requires n <= |call.users|
  {
    if n == 0 then st
    else
      var user := call.users[n - 1];
      Offer(OfferAll(st, key, call, n - 1), Mail(call.day, user, Target(key, user)), call.fate(n - 1))
  }

  predicate IsLive(call: Call) {
    !call.dryRun && (call.enabled || call.force)
  }

  function After(st: State, call: Call): State {
    if IsLive(call) then OfferAll(st, WeekKey(call.day), call, |call.users|) else st
  }

  function AfterAll(st: State, calls: seq<Call>): State {
    if calls == [] then st else After(AfterAll(st, calls[..|calls| - 1]), calls[|calls| - 1])
  }

  ghost predicate AllLogged(call: Call) {
    forall i :: 0 <= i < |call.users| ==> call.fate(i).logged
  }

  /* ---- Targets ------------------------------------------------------------------------------------------------- */

  lemma TargetNamesUser(key: string, u: UserId, v: UserId)
    requires Target(key, u) == Target(key, v)
    ensures u == v
  {
    assert Target(key, u)[|key| + 1..] == Decimal(u) && Target(key, v)[|key| + 1..] == Decimal(v);
    DecimalInjective(u, v);
  }

  lemma TargetShape(year: string, week: string, user: string)
    ensures year + ("-W" + week) + ":" + user == year + ("-W" + (week + (":" + user)))
    ensures ("-W" + (week + (":" + user)))[2..] == week + (":" + user)
    ensures (":" + user)[1..] == user
  {
  }

  /** A target names one week and one officer. */
  lemma TargetNamesWeekAndUser(a: Day, u: UserId, b: Day, v: UserId)
    ensures Target(WeekKey(a), u) == Target(WeekKey(b), v) <==> MondayOf(a) == MondayOf(b) && u == v
  {
    WeekKeyNamesWeek(a, b);
    if Target(WeekKey(a), u) == Target(WeekKey(b), v) {
      KeyParts(a);
      KeyParts(b);
      PartsEqual(WeekYear(a), WeekNumber(a), u, WeekYear(b), WeekNumber(b), v);
    }
  }

  lemma PartsEqual(y: nat, w: nat, u: nat, y': nat, w': nat, u': nat)
    requires Decimal(y) + ("-W" + PadTwo(w)) + ":" + Decimal(u) == Decimal(y') + ("-W" + PadTwo(w')) + ":" + Decimal(u')
    ensures y == y' && w == w' && u == u'
  {
    TargetShape(Decimal(y), PadTwo(w), Decimal(u));
    TargetShape(Decimal(y'), PadTwo(w'), Decimal(u'));
    SplitAtNonDigit(Decimal(y), "-W" + (PadTwo(w) + (":" + Decimal(u))),
                    Decimal(y'), "-W" + (PadTwo(w') + (":" + Decimal(u'))));
    DecimalInjective(y, y');
    ParsePadded(w);
    ParsePadded(w');
    SplitAtNonDigit(PadTwo(w), ":" + Decimal(u), PadTwo(w'), ":" + Decimal(u'));
    DecimalInjective(u, u');
  }

  /* ---- At most once a week ------------------------------------------------------------------------------------- */

  /** Every email that went out is recorded, and no two of them have the same target. */
  ghost predicate Inv(st: State) {
    && (forall i :: 0 <= i < |st.outbox| ==> WasSent(st.log, st.outbox[i].target))
    && (forall i, j :: 0 <= i < j < |st.outbox| ==> st.outbox[i].target != st.outbox[j].target)
  }

  lemma OfferKeeps(st: State, mail: Mail, a: Attempt)
    requires Inv(st) && a.logged
    ensures Inv(Offer(st, mail, a))
  {
  }

  lemma {:induction false} OfferAllKeeps(st: State, key: string, call: Call, n: nat)
    requires Inv(st) && AllLogged(call) && n <= |call.users|
    ensures Inv(OfferAll(st, key, call, n))
  {
    if n > 0 {
      OfferAllKeeps(st, key, call, n - 1);
      var user := call.users[n - 1];
      OfferKeeps(OfferAll(st, key, call, n - 1), Mail(call.day, user, Target(key, user)), call.fate(n - 1));
    }
  }

  lemma {:induction false} AfterAllKeeps(st: State, calls: seq<Call>)
    requires Inv(st) && forall i :: 0 <= i < |calls| ==> AllLogged(calls[i])
    ensures Inv(AfterAll(st, calls))
  {
    if calls != [] {
      var init, call := calls[..|calls| - 1], calls[|calls| - 1];
      AfterAllKeeps(st, init);
      if IsLive(call) {
        OfferAllKeeps(AfterAll(st, init), WeekKey(call.day), call, |call.users|);
      }
    }
  }

  predicate RightTarget(m: Mail) {
    m.target == Target(WeekKey(m.day), m.user)
  }

  ghost predicate RightTargets(outbox: seq<Mail>) {
    forall i :: 0 <= i < |outbox| ==> RightTarget(outbox[i])
  }

  /** The emails of one call are for its day, under its key. */
  lemma {:induction false} OfferAllMails(st: State, key: string, call: Call, n: nat)
    requires n <= |call.users|
    ensures var now := OfferAll(st, key, call, n);
            && st.outbox <= now.outbox
            && forall i :: |st.outbox| <= i < |now.outbox| ==>
                 now.outbox[i].day == call.day && now.outbox[i].target == Target(key, now.outbox[i].user)
  {
    if n > 0 {
      OfferAllMails(st, key, call, n - 1);
    }
  }

  lemma {:induction false} AfterAllTargets(log: seq<Entry>, calls: seq<Call>)
    ensures RightTargets(AfterAll(State(log, []), calls).outbox)
  {
    if calls != [] {
      var init, call := calls[..|calls| - 1], calls[|calls| - 1];
      AfterAllTargets(log, init);
      OfferAllMails(AfterAll(State(log, []), init), WeekKey(call.day), call, |call.users|);
    }
  }

  /** Nothing is sent under a target that the log has as sent from the start. */
  ghost predicate ServedSkipped(log: seq<Entry>, st: State) {
    && log <= st.log
    && forall i :: 0 <= i < |st.outbox| ==> !WasSent(log, st.outbox[i].target)
  }

  lemma {:induction false} OfferAllSkips(log: seq<Entry>, st: State, key: string, call: Call, n: nat)
    requires ServedSkipped(log, st) && n <= |call.users|
    ensures ServedSkipped(log, OfferAll(st, key, call, n))
  {
    if n > 0 {
      OfferAllSkips(log, st, key, call, n - 1);
    }
  }

  lemma {:induction false} AfterAllSkips(log: seq<Entry>, calls: seq<Call>)
    ensures ServedSkipped(log, AfterAll(State(log, []), calls))
  {
    if calls != [] {
      var init, call := calls[..|calls| - 1], calls[|calls| - 1];
      AfterAllSkips(log, init);
      OfferAllSkips(log, AfterAll(State(log, []), init), WeekKey(call.day), call, |call.users|);
    }
  }

  /** From any log, over any sequence of calls one after another, dry or live, enabled or not, forced or not, with any
      emails failing and every log row written: no officer gets two alerts for days of the same week. */
  lemma AtMostOncePerWeek(log: seq<Entry>, calls: seq<Call>, mails: seq<Mail>, i: nat, j: nat)
    requires forall k :: 0 <= k < |calls| ==> AllLogged(calls[k])
    requires mails == AfterAll(State(log, []), calls).outbox && i < j < |mails|
    ensures mails[i].user != mails[j].user || MondayOf(mails[i].day) != MondayOf(mails[j].day)
  {
    AfterAllKeeps(State(log, []), calls);
    AfterAllTargets(log, calls);
    assert RightTarget(mails[i]) && RightTarget(mails[j]);
    TargetNamesWeekAndUser(mails[i].day, mails[i].user, mails[j].day, mails[j].user);
  }

  /** And whoever the log has as sent for a week from the start gets no alert for it, whatever rows are lost. */
  lemma ServedGetNothing(log: seq<Entry>, calls: seq<Call>, mails: seq<Mail>, i: nat)
    requires mails == AfterAll(State(log, []), calls).outbox && i < |mails|
    ensures !WasSent(log, Target(WeekKey(mails[i].day), mails[i].user))
  {
    AfterAllTargets(log, calls);
    AfterAllSkips(log, calls);
    assert RightTarget(mails[i]);
  }

  /** The log is written after the email, and a lost row is not noticed: then the next call sends again. */
  lemma LostRowSendsTwice(day: Day, user: UserId)
    ensures var call := Call(false, false, true, day, [user], i => Attempt(true, false));
            var mail := Mail(day, user, Target(WeekKey(day), user));
            AfterAll(State([], []), [call, call]).outbox == [mail, mail]
  {
    var call := Call(false, false, true, day, [user], i => Attempt(true, false));
    var key, mail := WeekKey(day), Mail(day, user, Target(WeekKey(day), user));
    assert [call, call][..1] == [call] && [call][..0] == [];
    assert OfferAll(State([], []), key, call, 1) == State([], [mail]);
    assert AfterAll(State([], []), [call]) == State([], [mail]);
    assert OfferAll(State([], [mail]), key, call, 1) == State([], [mail, mail]);
  }

  /* ---- Nobody is forgotten ------------------------------------------------------------------------------------- */

  lemma {:induction false} OfferAllGrows(st: State, key: string, call: Call, m: nat, n: nat)
    requires m <= n <= |call.users|
    ensures OfferAll(st, key, call, m).log <= OfferAll(st, key, call, n).log
    ensures OfferAll(st, key, call, m).outbox <= OfferAll(st, key, call, n).outbox
  {
    if m < n {
      OfferAllGrows(st, key, call, m, n - 1);
    }
  }

  /** After a live call whose emails all go out and whose rows are all written, every officer has been sent the
      alert of the week, whatever failed before. */
  lemma EveryoneServed(st: State, call: Call, i: nat)
    requires !call.dryRun && (call.enabled || call.force) && i < |call.users|
    requires forall k :: 0 <= k < |call.users| ==> call.fate(k) == Attempt(true, true)
    ensures WasSent(After(st, call).log, Target(WeekKey(call.day), call.users[i]))
  {
    var key, user := WeekKey(call.day), call.users[i];
    OfferServes(OfferAll(st, key, call, i), Mail(call.day, user, Target(key, user)));
    OfferAllGrows(st, key, call, i + 1, |call.users|);
  }

  lemma OfferServes(st: State, mail: Mail)
    ensures WasSent(Offer(st, mail, Attempt(true, true)).log, mail.target)
  {
  }

  /* ---- Counting ------------------------------------------------------------------------------------------------ */

  function CountOf(log: seq<Entry>, action: Action): nat {
    if log == [] then 0
    else CountOf(log[..|log| - 1], action) + if log[|log| - 1].action == action then 1 else 0
  }

  /** How many of the first n officers had been sent their alert before the call. */
  function SentBefore(log: seq<Entry>, key: string, users: seq<UserId>, n: nat): nat
    requires n <= |users|
  {
    if n == 0 then 0
    else SentBefore(log, key, users, n - 1) + if WasSent(log, Target(key, users[n - 1])) then 1 else 0
  }

  /** What is done for other officers does not make this one sent. */
  lemma {:induction false} OthersDoNotCount(st: State, key: string, call: Call, n: nat, user: UserId)
    requires n <= |call.users| && forall i :: 0 <= i < n ==> call.users[i] != user
    ensures WasSent(OfferAll(st, key, call, n).log, Target(key, user)) <==> WasSent(st.log, Target(key, user))
  {
    if n > 0 {
      OthersDoNotCount(st, key, call, n - 1, user);
      if Target(key, user) == Target(key, call.users[n - 1]) {
        TargetNamesUser(key, user, call.users[n - 1]);
        assert false;
      }
    }
  }

  /** How many emails went out and how many failures were recorded since. */
  function Tried(from: State, to: State): int {
    |to.outbox| - |from.outbox| + CountOf(to.log, Failed) - CountOf(from.log, Failed)
  }

  lemma OfferTried(st: State, mail: Mail, a: Attempt)
    requires a.logged
    ensures Tried(st, Offer(st, mail, a)) == if WasSent(st.log, mail.target) then 0 else 1
  {
    var row := Entry(if a.delivers then Sent else Failed, mail.target);
    assert (st.log + [row])[..|st.log|] == st.log;
  }

  /** Of the first n officers, each is sent the alert, recorded as failed, or skipped for having been sent it before. */
  lemma {:induction false} CountsAddUp(st: State, key: string, call: Call, n: nat)
    requires n <= |call.users| && Distinct(call.users) && AllLogged(call)
    ensures Tried(st, OfferAll(st, key, call, n)) + SentBefore(st.log, key, call.users, n) == n
  {
    hide Offer, CountOf;
    if n > 0 {
      var before, user := OfferAll(st, key, call, n - 1), call.users[n - 1];
      CountsAddUp(st, key, call, n - 1);
      OthersDoNotCount(st, key, call, n - 1, user);
      OfferTried(before, Mail(call.day, user, Target(key, user)), call.fate(n - 1));
    }
  }

  /* ---- What the flags do --------------------------------------------------------------------------------------- */

  /** A dry run changes nothing, nor does a call with alerts switched off that is not forced. */
  lemma IdleCall(st: State, call: Call)
    requires call.dryRun || (!call.enabled && !call.force)
    ensures After(st, call) == st
  {
  }

  lemma {:induction false} NewMailsUnserved(st: State, key: string, call: Call, n: nat, j: nat)
    requires n <= |call.users| && |st.outbox| <= j < |OfferAll(st, key, call, n).outbox|
    ensures st.log <= OfferAll(st, key, call, n).log
    ensures Entry(Sent, OfferAll(st, key, call, n).outbox[j].target) !in st.log
  {
    if n > 0 {
      OfferAllGrows(st, key, call, 0, n - 1);
      if j < |OfferAll(st, key, call, n - 1).outbox| {
        NewMailsUnserved(st, key, call, n - 1, j);
      }
    }
  }

  function NewMails(st: State, st': State): seq<Mail> {
    if |st.outbox| <= |st'.outbox| then st'.outbox[|st.outbox|..] else []
  }

  function NewRows(st: State, st': State): seq<Entry> {
    if |st.log| <= |st'.log| then st'.log[|st.log|..] else []
  }

  /** Any other call tries every officer once: one sent the alert of the week before gets none; any other gets it if the
      email goes out, and the row written says which it was. */
  lemma LiveCall(st: State, call: Call, i: nat, m: Mail)
    requires !call.dryRun && (call.enabled || call.force)
    requires Distinct(call.users) && i < |call.users|
    ensures
      var target := WeekKey(call.day) + ":" + Decimal(call.users[i]);
      var log, outbox := After(st, call).log, After(st, call).outbox;
      && st.log <= log && st.outbox <= outbox
      && (Entry(Sent, target) in st.log && m in outbox[|st.outbox|..] ==> m.target != target)
      && (Entry(Sent, target) !in st.log && call.fate(i).delivers ==>
            Mail(call.day, call.users[i], target) in outbox[|st.outbox|..])
      && (Entry(Sent, target) !in st.log && call.fate(i).logged ==>
            Entry(if call.fate(i).delivers then Sent else Failed, target) in log[|st.log|..])
  {
    var key, user := WeekKey(call.day), call.users[i];
    hide OfferAll, WeekKey;
    LiveIsOfferAll(st, call);
    OfferNothing(st, key, call);
    OfferAllGrows(st, key, call, 0, |call.users|);
    if WasSent(st.log, Target(key, user)) {
      ServedOnce(st, key, call, Target(key, user), m);
    } else {
      UnservedTried(st, key, call, i);
    }
  }

  lemma LiveIsOfferAll(st: State, call: Call)
    requires !call.dryRun && (call.enabled || call.force)
    ensures After(st, call) == OfferAll(st, WeekKey(call.day), call, |call.users|)
  {
  }

  lemma OfferNothing(st: State, key: string, call: Call)
    ensures OfferAll(st, key, call, 0) == st
  {
  }

  lemma ServedOnce(st: State, key: string, call: Call, target: string, m: Mail)
    requires WasSent(st.log, target)
    ensures m in NewMails(st, OfferAll(st, key, call, |call.users|)) ==> m.target != target
  {
    var now := OfferAll(st, key, call, |call.users|);
    if m in NewMails(st, now) {
      var j :| |st.outbox| <= j < |now.outbox| && now.outbox[j] == m;
      NewMailsUnserved(st, key, call, |call.users|, j);
    }
  }

  lemma UnservedTried(st: State, key: string, call: Call, i: nat)
    requires Distinct(call.users) && i < |call.users| && !WasSent(st.log, Target(key, call.users[i]))
    ensures
      var mail, a := Mail(call.day, call.users[i], Target(key, call.users[i])), call.fate(i);
      var now := OfferAll(st, key, call, |call.users|);
      && (a.delivers ==> mail in NewMails(st, now))
      && (a.logged ==> Entry(if a.delivers then Sent else Failed, mail.target) in NewRows(st, now))
  {
    var before, n := OfferAll(st, key, call, i), |call.users|;
    var mail := Mail(call.day, call.users[i], Target(key, call.users[i]));
    OthersDoNotCount(st, key, call, i, call.users[i]);
    OfferedLast(before, mail, call.fate(i));
    OfferAllGrows(st, key, call, 0, i);
    OfferAllGrows(st, key, call, i + 1, n);
    if call.fate(i).delivers {
      LastOfPrefix(OfferAll(st, key, call, i + 1).outbox, OfferAll(st, key, call, n).outbox, |st.outbox|);
    }
    if call.fate(i).logged {
      LastOfPrefix(OfferAll(st, key, call, i + 1).log, OfferAll(st, key, call, n).log, |st.log|);
    }
  }

  lemma OfferedLast(st: State, mail: Mail, a: Attempt)
    requires !WasSent(st.log, mail.target)
    ensures var st' := Offer(st, mail, a);
            && (a.delivers ==> st'.outbox == st.outbox + [mail])
            && (a.logged ==> st'.log == st.log + [Entry(if a.delivers then Sent else Failed, mail.target)])
  {
  }

  lemma LastOfPrefix<T>(a: seq<T>, b: seq<T>, k: nat)
    requires a <= b && k < |a|
    ensures a[|a| - 1] in b[k..]
  {
    assert b[k..][|a| - 1 - k] == a[|a| - 1];
  }

  class AlertService {
    var log: seq<Entry>
    var outbox: seq<Mail>

    ghost function Now(): State
      reads this
    {
      State(log, outbox)
    }

    constructor ()
      ensures Now() == State([], [])
    {
      log, outbox := [], [];
    }

    method LogAction(action: Action, target: string, logged: bool)
      modifies this`log
      ensures log == old(log) + if logged then [Entry(action, target)] else []
    {
      if logged {
        log := log + [Entry(action, target)];
      }
    }

    /** Tries one officer, unless the alert of the week was sent before. */
    method SendOne(mail: Mail, a: Attempt) returns (sent: bool, skipped: bool)
      modifies this
      ensures Now() == Offer(old(Now()), mail, a)
      ensures skipped <==> WasSent(old(log), mail.target)
      ensures |outbox| == |old(outbox)| + if sent then 1 else 0
    {
      sent, skipped := false, false;
      if WasSent(log, mail.target) {
        skipped := true;
        return;
      }
      if a.delivers {
        outbox := outbox + [mail];
        sent := true;
        LogAction(Sent, mail.target, a.logged);
      } else {
        LogAction(Failed, mail.target, a.logged);
      }
    }

    method Run(call: Call) returns (summary: Summary)
      requires Distinct(call.users)
      modifies this
      ensures Now() == After(old(Now()), call)
      ensures summary.week == WeekKey(call.day) && summary.recipients == |call.users|
      ensures call.dryRun || (!call.enabled && !call.force) ==>
                && log == old(log) && outbox == old(outbox)
                && summary.sent == 0 && summary.skipped == if call.dryRun then 0 else |call.users|
      ensures !call.dryRun && (call.enabled || call.force) ==>
                && summary.sent == |outbox| - |old(outbox)|
                && summary.skipped == SentBefore(old(log), WeekKey(call.day), call.users, |call.users|)
      ensures !call.dryRun && (call.enabled || call.force) && AllLogged(call) ==>
                summary.sent + summary.skipped + CountOf(log, Failed) - CountOf(old(log), Failed) == summary.recipients
    {
      var key := WeekKey(call.day);
      summary := Summary(key, |call.users|, 0, 0);
      if call.dryRun {
        return;
      }
      if !call.enabled && !call.force {
        summary := summary.(skipped := |call.users|);
        return;
      }
      var sent, skipped := OfferEach(key, call);
      summary := summary.(sent := sent, skipped := skipped);
    }

    method OfferEach(key: string, call: Call) returns (sent: nat, skipped: nat)
      requires Distinct(call.users)
      modifies this
      ensures Now() == OfferAll(old(Now()), key, call, |call.users|)
      ensures sent == |outbox| - |old(outbox)|
      ensures skipped == SentBefore(old(log), key, call.users, |call.users|)
      ensures AllLogged(call) ==> sent + skipped + CountOf(log, Failed) - CountOf(old(log), Failed) == |call.users|
    {
      ghost var before := Now();
      sent, skipped := 0, 0;
      for i := 0 to |call.users|
        invariant Now() == OfferAll(before, key, call, i)
        invariant sent == |outbox| - |before.outbox|
        invariant skipped == SentBefore(before.log, key, call.users, i)
      {
        var user := call.users[i];
        OthersDoNotCount(before, key, call, i, user);
        var went, known := SendOne(Mail(call.day, user, Target(key, user)), call.fate(i));
        if went {
          sent := sent + 1;
        }
        if known {
          skipped := skipped + 1;
        }
      }
      if AllLogged(call) {
        CountsAddUp(before, key, call, |call.users|);
      }
    }
  }
}
