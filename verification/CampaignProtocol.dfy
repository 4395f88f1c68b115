/** Any number of campaign runs, of any campaigns, interleaved one step at a time over the shared cache
    lock, the communication log and the mail server (announcements.py). */
module CampaignProtocol {
  import opened Common
  import opened LogKeys
  import opened Campaign

  /** Where a run is. `next` is the index of the user being attempted. */
  datatype Phase =
    | Idle
    | Locked
    | Selected(recipients: seq<UserId>)
    | Sending(pending: seq<UserId>, next: nat)
    | Accepted(pending: seq<UserId>, next: nat)  // the send returned, its SENT row is not written yet
    | Bounced(pending: seq<UserId>, next: nat)   // the send raised, its FAILED row is not written yet
    | Closing
  {
    predicate HasPending() { Sending? || Accepted? || Bounced? }
  }

  datatype Runner = Runner(slug: string, limit: int, phase: Phase)

  datatype World = World(locks: set<string>, log: seq<Row>, outbox: seq<Delivery>, runners: seq<Runner>)

  datatype Event =
    | Start(w: nat, slug: string, limit: int)
    | Select(w: nat, recipients: seq<UserId>)
    | ReadLog(w: nat)
    | Attempt(w: nat, delivered: bool)
    | Write(w: nat)
    | Quit(w: nat)      // return, early stop or exception: on to the outer `finally`
    | Release(w: nat)
    | Expire(key: string)

  function SetPhase(s: World, w: nat, phase: Phase): World
    requires w < |s.runners|
  {
    s.(runners := s.runners[w := s.runners[w].(phase := phase)])
  }

  /** One step of the world; a step that is not possible changes nothing. */
  function Apply(s: World, e: Event): World {
    if e.Expire? then s.(locks := s.locks - {e.key})
    else if e.w >= |s.runners| then s
    else
      var r := s.runners[e.w];
      match e
      case Start(w, slug, limit) =>
        if r.phase.Idle? && LockKey(slug) !in s.locks then
          s.(locks := s.locks + {LockKey(slug)}, runners := s.runners[w := Runner(slug, limit, Locked)])
        else s
      case Select(w, recipients) =>
        if r.phase.Locked? && Distinct(recipients) then SetPhase(s, w, Selected(recipients)) else s
      case ReadLog(w) =>
        if r.phase.Selected? then
          SetPhase(s, w, Sending(PendingOf(r.phase.recipients, AlreadySentIds(s.log, r.slug), r.limit), 0))
        else s
      case Attempt(w, delivered) =>
        if r.phase.Sending? && r.phase.next < |r.phase.pending| then
          var user := r.phase.pending[r.phase.next];
          if delivered then
            SetPhase(s, w, Accepted(r.phase.pending, r.phase.next)).(outbox := s.outbox + [Delivery(r.slug, user)])
          else SetPhase(s, w, Phase.Bounced(r.phase.pending, r.phase.next))
        else s
      case Write(w) =>
        if (r.phase.Accepted? || r.phase.Bounced?) && r.phase.next < |r.phase.pending| then
          var key := LogKey(r.slug, r.phase.pending[r.phase.next]);
          SetPhase(s, w, Sending(r.phase.pending, r.phase.next + 1))
            .(log := Recorded(s.log, key, if r.phase.Accepted? then Sent else Failed))
        else s
      case Quit(w) =>
        if r.phase.Idle? then s else SetPhase(s, w, Closing)
      case Release(w) =>
        if r.phase.Closing? then SetPhase(s, w, Idle).(locks := s.locks - {LockKey(r.slug)}) else s
  }

  function Run(s: World, events: seq<Event>): World
    decreases |events|
  {
    if events == [] then s else Run(Apply(s, events[0]), events[1..])
  }

  /** The two things assumed not to happen: a lock that expires under a run, and a run that dies between a
      send that was accepted and the log row for it. */
  predicate Safe(s: World, e: Event) {
    && !e.Expire?
    && (e.Quit? && e.w < |s.runners| ==> !s.runners[e.w].phase.Accepted?)
  }

  predicate SafeRun(s: World, events: seq<Event>)
    decreases |events|
  {
    events == [] || (Safe(s, events[0]) && SafeRun(Apply(s, events[0]), events[1..]))
  }

  predicate Init(s: World) {
    s.outbox == [] && UniqueKeys(s.log) && forall r <- s.runners :: r.phase.Idle?
  }

  /* ---- The invariant ------------------------------------------------------------------------------------------- */

  predicate UniqueKeys(log: seq<Row>) {
    forall i, j :: 0 <= i < j < |log| ==> log[i].key != log[j].key
  }

  predicate NoDuplicates(outbox: seq<Delivery>) {
    forall i, j :: 0 <= i < j < |outbox| ==> outbox[i] != outbox[j]
  }

  /** Run `i` is past the lock. */
  predicate Active(s: World, i: nat) {
    i < |s.runners| && !s.runners[i].phase.Idle?
  }

  ghost predicate OneRunPerCampaign(s: World) {
    && (forall i: nat :: Active(s, i) ==> LockKey(s.runners[i].slug) in s.locks)
    && (forall i: nat, j: nat :: Active(s, i) && Active(s, j) && i != j ==> s.runners[i].slug != s.runners[j].slug)
  }

  /** Run `i` still has to write the SENT row of this delivery. */
  predicate Owes(s: World, i: nat, d: Delivery) {
    && i < |s.runners| && s.runners[i].phase.Accepted? && s.runners[i].phase.next < |s.runners[i].phase.pending|
    && d == Delivery(s.runners[i].slug, s.runners[i].phase.pending[s.runners[i].phase.next])
  }

  ghost predicate DeliveriesLogged(s: World) {
    forall d <- s.outbox :: d.user in AlreadySentIds(s.log, d.slug) || exists i: nat :: Owes(s, i, d)
  }

  /** Users a run has yet to attempt are neither logged as sent nor delivered to. */
  ghost predicate RunnerOk(s: World, r: Runner) {
    && (r.phase.Selected? ==> Distinct(r.phase.recipients))
    && (r.phase.HasPending() ==>
          var p, k := r.phase.pending, r.phase.next;
          && Distinct(p)
          && k <= |p|
          && (!r.phase.Sending? ==> k < |p|)
          && (r.phase.Accepted? ==> Delivery(r.slug, p[k]) in s.outbox)
          && (forall j :: k <= j < |p| ==> p[j] !in AlreadySentIds(s.log, r.slug))
          && (forall j :: k <= j < |p| && !(j == k && r.phase.Accepted?) ==> Delivery(r.slug, p[j]) !in s.outbox))
  }

  ghost predicate RunnersOk(s: World) {
    forall i :: 0 <= i < |s.runners| ==> RunnerOk(s, s.runners[i])
  }

  /** Counted from the log the world began with: nobody sent is forgotten, nobody is logged as sent without
      a delivery, and nobody already logged as sent is delivered to. */
  ghost predicate SentAccounted(log0: seq<Row>, s: World) {
    && (forall slug: string, u: UserId :: u in AlreadySentIds(log0, slug) ==>
          u in AlreadySentIds(s.log, slug) && Delivery(slug, u) !in s.outbox)
    && (forall slug: string, u: UserId :: u in AlreadySentIds(s.log, slug) ==>
          u in AlreadySentIds(log0, slug) || Delivery(slug, u) in s.outbox)
  }

  ghost predicate Inv(log0: seq<Row>, s: World) {
    && OneRunPerCampaign(s)
    && UniqueKeys(s.log)
    && NoDuplicates(s.outbox)
    && DeliveriesLogged(s)
    && RunnersOk(s)
    && SentAccounted(log0, s)
  }

  /* ---- Each step keeps it -------------------------------------------------------------------------------------- */

  lemma RecordedUnique(log: seq<Row>, key: string, status: Status)
    requires UniqueKeys(log)
    ensures UniqueKeys(Recorded(log, key, status))
  {
  }

  lemma StartKeeps(log0: seq<Row>, s: World, e: Event)
    requires Inv(log0, s) && e.Start?
    ensures Inv(log0, Apply(s, e))
  {
    var s' := Apply(s, e);
    if s' != s {
      forall i: nat | Active(s', i) && i != e.w
        ensures s.runners[i].slug != e.slug
      {
        assert Active(s, i);
      }
      OwesKept(s, s', e.w);
    }
  }

  /** A step of run `w` that writes nothing leaves what the other runs owe. */
  lemma OwesKept(s: World, s': World, w: nat)
    requires w < |s.runners| == |s'.runners| && !s.runners[w].phase.Accepted?
    requires forall i :: 0 <= i < |s.runners| && i != w ==> s'.runners[i] == s.runners[i]
    ensures forall i: nat, d :: Owes(s, i, d) ==> Owes(s', i, d)
  {
  }

  lemma SetupKeeps(log0: seq<Row>, s: World, e: Event)
    requires Inv(log0, s) && (e.Select? || e.Quit? || e.Release?) && Safe(s, e)
    ensures Inv(log0, Apply(s, e))
  {
    var s' := Apply(s, e);
    if s' != s {
      OwesKept(s, s', e.w);
      forall i: nat | Active(s', i)
        ensures Active(s, i) && LockKey(s'.runners[i].slug) in s'.locks
      {
        if e.Release? && LockKey(s.runners[i].slug) == LockKey(s.runners[e.w].slug) {
          LockKeyInjective(s.runners[i].slug, s.runners[e.w].slug);
        }
      }
    }
  }

  lemma ReadLogKeeps(log0: seq<Row>, s: World, e: Event)
    requires Inv(log0, s) && e.ReadLog?
    ensures Inv(log0, Apply(s, e))
  {
    var s' := Apply(s, e);
    if s' != s {
      var r, r' := s.runners[e.w], s'.runners[e.w];
      var done := AlreadySentIds(s.log, r.slug);
      assert RunnerOk(s, r);
      PendingAreNew(r.phase.recipients, done, r.limit);
      OwesKept(s, s', e.w);
      assert Active(s, e.w);
      // No other run of this campaign is past the lock, so no delivery of it waits for its row.
      forall i: nat, u: UserId
        ensures !Owes(s, i, Delivery(r.slug, u))
      {
        assert Active(s, i) && i != e.w ==> s.runners[i].slug != r.slug;
      }
      assert RunnerOk(s', r');
      assert forall i :: 0 <= i < |s.runners| && i != e.w ==> RunnerOk(s, s.runners[i]);
    }
  }

  lemma AttemptKeepsRunners(log0: seq<Row>, s: World, e: Event)
    requires Inv(log0, s) && e.Attempt?
    ensures RunnersOk(Apply(s, e))
  {
    var s' := Apply(s, e);
    if s' != s {
      assert RunnerOk(s, s.runners[e.w]);
      forall i | 0 <= i < |s.runners|
        ensures RunnerOk(s', s'.runners[i])
      {
        assert RunnerOk(s, s.runners[i]);
        if i != e.w && s.runners[i].phase.HasPending() {
          assert Active(s, i) && Active(s, e.w);
        }
      }
    }
  }

  lemma AttemptKeeps(log0: seq<Row>, s: World, e: Event)
    requires Inv(log0, s) && e.Attempt?
    ensures Inv(log0, Apply(s, e))
  {
    var s' := Apply(s, e);
    if s' != s {
      var r := s.runners[e.w];
      var d := Delivery(r.slug, r.phase.pending[r.phase.next]);
      assert RunnerOk(s, r);
      OwesKept(s, s', e.w);
      if e.delivered {
        assert Owes(s', e.w, d);
      }
      AttemptKeepsRunners(log0, s, e);
    }
  }

  /** What a log write does to the sent sets: SENT adds the user to its campaign, FAILED changes nothing. */
  lemma WriteAdds(log0: seq<Row>, s: World, e: Event, slug: string)
    requires Inv(log0, s) && e.Write? && Apply(s, e) != s
    ensures
      var r := s.runners[e.w];
      AlreadySentIds(Apply(s, e).log, slug)
      == AlreadySentIds(s.log, slug) +
         (if slug == r.slug && r.phase.Accepted? then {r.phase.pending[r.phase.next]} else {})
  {
    var r := s.runners[e.w];
    var u := r.phase.pending[r.phase.next];
    assert RunnerOk(s, r);
    if r.phase.Accepted? { RecordedSent(s.log, r.slug, u, slug); } else { RecordedFailed(s.log, r.slug, u, slug); }
  }

  lemma WriteKeepsOwed(log0: seq<Row>, s: World, e: Event)
    requires Inv(log0, s) && e.Write? && Apply(s, e) != s
    ensures DeliveriesLogged(Apply(s, e))
  {
    var s' := Apply(s, e);
    forall d | d in s'.outbox
      ensures d.user in AlreadySentIds(s'.log, d.slug) || exists i: nat :: Owes(s', i, d)
    {
      WriteAdds(log0, s, e, d.slug);
      if d.user !in AlreadySentIds(s.log, d.slug) {
        var i: nat :| Owes(s, i, d);
        if i != e.w {
          assert Owes(s', i, d);
        }
      }
    }
  }

  lemma WriteKeepsRunners(log0: seq<Row>, s: World, e: Event)
    requires Inv(log0, s) && e.Write? && Apply(s, e) != s
    ensures RunnersOk(Apply(s, e))
  {
    var s' := Apply(s, e);
    forall i | 0 <= i < |s.runners|
      ensures RunnerOk(s', s'.runners[i])
    {
      assert RunnerOk(s, s.runners[i]);
      WriteAdds(log0, s, e, s.runners[i].slug);
      if i != e.w && s.runners[i].phase.HasPending() {
        assert Active(s, i) && Active(s, e.w);
      }
    }
  }

  lemma WriteKeeps(log0: seq<Row>, s: World, e: Event)
    requires Inv(log0, s) && e.Write?
    ensures Inv(log0, Apply(s, e))
  {
    var s' := Apply(s, e);
    if s' != s {
      var r := s.runners[e.w];
      assert RunnerOk(s, r);
      RecordedUnique(s.log, LogKey(r.slug, r.phase.pending[r.phase.next]), if r.phase.Accepted? then Sent else Failed);
      WriteKeepsOwed(log0, s, e);
      WriteKeepsRunners(log0, s, e);
      forall i: nat | Active(s', i)
        ensures Active(s, i) && s'.runners[i].slug == s.runners[i].slug
      {
      }
      forall slug: string, u: UserId
        ensures u in AlreadySentIds(s'.log, slug) ==> u in AlreadySentIds(log0, slug) || Delivery(slug, u) in s.outbox
        ensures u in AlreadySentIds(s.log, slug) ==> u in AlreadySentIds(s'.log, slug)
      {
        WriteAdds(log0, s, e, slug);
      }
    }
  }

  lemma StepKeeps(log0: seq<Row>, s: World, e: Event)
    requires Inv(log0, s) && Safe(s, e)
    ensures Inv(log0, Apply(s, e))
  {
    match e
    case Start(_, _, _) => StartKeeps(log0, s, e);
    case ReadLog(_) => ReadLogKeeps(log0, s, e);
    case Attempt(_, _) => AttemptKeeps(log0, s, e);
    case Write(_) => WriteKeeps(log0, s, e);
    case _ => SetupKeeps(log0, s, e);
  }

  lemma {:induction false} RunKeeps(log0: seq<Row>, s: World, events: seq<Event>)
    requires Inv(log0, s) && SafeRun(s, events)
    ensures Inv(log0, Run(s, events))
    decreases |events|
  {
    if events != [] {
      StepKeeps(log0, s, events[0]);
      RunKeeps(log0, Apply(s, events[0]), events[1..]);
    }
  }

  /* ---- What follows for every interleaving --------------------------------------------------------------------- */

  lemma InitInv(s: World)
    requires Init(s)
    ensures Inv(s.log, s)
  {
  }

  /** However many runs there are and however they interleave and fail: at most one run of a campaign is past
      its lock, no user gets two emails of a campaign, nobody already logged as sent gets one, each key has
      at most one row, and the users logged as sent are those logged before plus exactly those delivered to,
      except for a row still being written. */
  lemma AtMostOnce(s: World, events: seq<Event>)
    requires Init(s) && SafeRun(s, events)
    ensures
      var s' := Run(s, events);
      && (forall i: nat, j: nat :: Active(s', i) && Active(s', j) && i != j ==>
            s'.runners[i].slug != s'.runners[j].slug)
      && (forall i, j :: 0 <= i < j < |s'.outbox| ==> s'.outbox[i] != s'.outbox[j])
      && (forall i, j :: 0 <= i < j < |s'.log| ==> s'.log[i].key != s'.log[j].key)
      && (forall slug: string, u: UserId :: u in AlreadySentIds(s.log, slug) ==>
            u in AlreadySentIds(s'.log, slug) && Delivery(slug, u) !in s'.outbox)
      && (forall slug: string, u: UserId :: u in AlreadySentIds(s'.log, slug) ==>
            u in AlreadySentIds(s.log, slug) || Delivery(slug, u) in s'.outbox)
      && (forall d <- s'.outbox :: d.user in AlreadySentIds(s'.log, d.slug) || exists i: nat :: Owes(s', i, d))
  {
    InitInv(s);
    RunKeeps(s.log, s, events);
  }

  /** The set of users logged as sent only grows, in every campaign, at every step. */
  lemma StepGrows(log0: seq<Row>, s: World, e: Event, slug: string)
    requires Inv(log0, s) && Safe(s, e)
    ensures AlreadySentIds(s.log, slug) <= AlreadySentIds(Apply(s, e).log, slug)
  {
    if e.Write? && Apply(s, e) != s {
      WriteAdds(log0, s, e, slug);
    }
  }

  lemma {:induction false} SentOnlyGrows(log0: seq<Row>, s: World, events: seq<Event>, slug: string)
    requires Inv(log0, s) && SafeRun(s, events)
    ensures AlreadySentIds(s.log, slug) <= AlreadySentIds(Run(s, events).log, slug)
    decreases |events|
  {
    if events != [] {
      StepGrows(log0, s, events[0], slug);
      StepKeeps(log0, s, events[0]);
      SentOnlyGrows(log0, Apply(s, events[0]), events[1..], slug);
    }
  }

  /* ---- The method is one path of the protocol ------------------------------------------------------------------ */

  function Flatten(parts: seq<seq<Event>>): seq<Event> {
    if parts == [] then [] else Flatten(parts[..|parts| - 1]) + parts[|parts| - 1]
  }

  /** The steps of the first `n` attempts, two to each. */
  function AttemptEvents(w: nat, t: Transport, n: nat): seq<Event> {
    Flatten(seq(n, i requires 0 <= i => [Attempt(w, t.delivers(i)), Write(w)]))
  }

  function SoloEvents(w: nat, slug: string, limit: int, recipients: seq<UserId>, t: Transport, n: nat): seq<Event> {
    [Start(w, slug, limit), Select(w, recipients), ReadLog(w)] + AttemptEvents(w, t, n) + [Quit(w), Release(w)]
  }

  lemma {:induction false} RunConcat(s: World, first: seq<Event>, second: seq<Event>)
    ensures Run(s, first + second) == Run(Run(s, first), second)
    ensures SafeRun(s, first + second) <==> SafeRun(s, first) && SafeRun(Run(s, first), second)
    decreases |first|
  {
    if first == [] {
      assert first + second == second;
    } else {
      assert (first + second)[1..] == first[1..] + second;
      RunConcat(Apply(s, first[0]), first[1..], second);
    }
  }

  lemma RunTwo(s: World, a: Event, b: Event)
    ensures Run(s, [a, b]) == Apply(Apply(s, a), b)
    ensures SafeRun(s, [a, b]) <==> Safe(s, a) && Safe(Apply(s, a), b)
  {
    assert [a, b][1..] == [b] && [b][1..] == [];
    assert Run(Apply(s, a), [b]) == Apply(Apply(s, a), b);
    assert SafeRun(Apply(s, a), [b]) <==> Safe(Apply(s, a), b);
  }

  lemma RunThree(s: World, a: Event, b: Event, c: Event)
    ensures Run(s, [a, b, c]) == Apply(Apply(Apply(s, a), b), c)
    ensures SafeRun(s, [a, b, c]) <==> Safe(s, a) && Safe(Apply(s, a), b) && Safe(Apply(Apply(s, a), b), c)
  {
    assert [a, b, c][1..] == [b, c];
    RunTwo(Apply(s, a), b, c);
  }

  /** The events are safe and lead from one world to the other. */
  predicate Leads(s: World, events: seq<Event>, s': World) {
    SafeRun(s, events) && Run(s, events) == s'
  }

  lemma LeadsOn(s: World, first: seq<Event>, m: World, second: seq<Event>, s': World)
    requires Leads(s, first, m) && Leads(m, second, s')
    ensures Leads(s, first + second, s')
  {
    RunConcat(s, first, second);
  }

  lemma {:induction false} LeadsAlong(worlds: seq<World>, parts: seq<seq<Event>>)
    requires |worlds| == |parts| + 1
    requires forall i :: 0 <= i < |parts| ==> Leads(worlds[i], parts[i], worlds[i + 1])
    ensures Leads(worlds[0], Flatten(parts), worlds[|parts|])
  {
    if parts != [] {
      var n := |parts| - 1;
      LeadsAlong(worlds[..n + 1], parts[..n]);
      LeadsOn(worlds[0], Flatten(parts[..n]), worlds[n], parts[n], worlds[n + 1]);
    }
  }

  /** The world in the middle of a run of `w`, `n` attempts after it read the log. */
  function Midway(s: World, w: nat, slug: string, limit: int, pending: seq<UserId>, t: Transport, n: nat): World
    requires w < |s.runners| && n <= |pending|
  {
    World(s.locks + {LockKey(slug)}, LogAfter(s.log, slug, pending, t, n),
          s.outbox + Deliveries(slug, SentIds(pending, t, n)),
          s.runners[w := Runner(slug, limit, Sending(pending, n))])
  }

  /** The same, with attempt `n` made and its row not yet written. */
  function Attempted(s: World, w: nat, slug: string, limit: int, pending: seq<UserId>, t: Transport, n: nat): World
    requires w < |s.runners| && n < |pending|
  {
    Midway(s, w, slug, limit, pending, t, n)
      .(outbox := s.outbox + Deliveries(slug, SentIds(pending, t, n + 1)),
        runners := s.runners[w :=
          Runner(slug, limit, if t.delivers(n) then Accepted(pending, n) else Phase.Bounced(pending, n))])
  }

  lemma AttemptStep(s: World, w: nat, slug: string, limit: int, pending: seq<UserId>, t: Transport, n: nat)
    requires w < |s.runners| && n < |pending|
    ensures Apply(Midway(s, w, slug, limit, pending, t, n), Attempt(w, t.delivers(n)))
         == Attempted(s, w, slug, limit, pending, t, n)
  {
  }

  lemma WriteStep(s: World, w: nat, slug: string, limit: int, pending: seq<UserId>, t: Transport, n: nat)
    requires w < |s.runners| && n < |pending|
    ensures Apply(Attempted(s, w, slug, limit, pending, t, n), Write(w)) == Midway(s, w, slug, limit, pending, t, n + 1)
  {
    var m := Attempted(s, w, slug, limit, pending, t, n);
    var status := if t.delivers(n) then Sent else Failed;
    WriteEffect(m, w, status);
    assert LogAfter(s.log, slug, pending, t, n + 1) == Recorded(m.log, LogKey(slug, pending[n]), status);
    var next := Runner(slug, limit, Sending(pending, n + 1));
    assert m.runners[w := next] == s.runners[w := next];
  }

  lemma WriteEffect(s: World, w: nat, status: Status)
    requires w < |s.runners| && (s.runners[w].phase.Accepted? || s.runners[w].phase.Bounced?)
    requires s.runners[w].phase.next < |s.runners[w].phase.pending|
    requires status == if s.runners[w].phase.Accepted? then Sent else Failed
    ensures
      var r := s.runners[w];
      Apply(s, Write(w)) == World(s.locks,
                                  Recorded(s.log, LogKey(r.slug, r.phase.pending[r.phase.next]), status), s.outbox,
                                  s.runners[w := Runner(r.slug, r.limit, Sending(r.phase.pending, r.phase.next + 1))])
  {
  }

  lemma OneAttemptRun(s: World, w: nat, slug: string, limit: int, pending: seq<UserId>, t: Transport, n: nat)
    requires w < |s.runners| && n < |pending|
    ensures Leads(Midway(s, w, slug, limit, pending, t, n), [Attempt(w, t.delivers(n)), Write(w)],
                  Midway(s, w, slug, limit, pending, t, n + 1))
  {
    var m := Midway(s, w, slug, limit, pending, t, n);
    AttemptStep(s, w, slug, limit, pending, t, n);
    WriteStep(s, w, slug, limit, pending, t, n);
    RunTwo(m, Attempt(w, t.delivers(n)), Write(w));
  }

  lemma AttemptsRun(s: World, w: nat, slug: string, limit: int, pending: seq<UserId>, t: Transport, n: nat)
    requires w < |s.runners| && n <= |pending|
    ensures Leads(Midway(s, w, slug, limit, pending, t, 0), AttemptEvents(w, t, n),
                  Midway(s, w, slug, limit, pending, t, n))
  {
    var worlds := seq(n + 1, i requires 0 <= i <= n => Midway(s, w, slug, limit, pending, t, i));
    var parts := seq(n, i requires 0 <= i => [Attempt(w, t.delivers(i)), Write(w)]);
    forall i | 0 <= i < n
      ensures Leads(worlds[i], parts[i], worlds[i + 1])
    {
      OneAttemptRun(s, w, slug, limit, pending, t, i);
    }
    LeadsAlong(worlds, parts);
  }

  /** SendCampaign, left alone, is a safe path of the protocol: the log and the outbox it leaves (its
      postcondition) are those the steps of one run leave. */
  lemma SoloRun(s: World, w: nat, slug: string, limit: int, recipients: seq<UserId>, t: Transport, n: nat)
    requires w < |s.runners| && s.runners[w].phase.Idle? && LockKey(slug) !in s.locks && Distinct(recipients)
    requires n <= |PendingOf(recipients, AlreadySentIds(s.log, slug), limit)|
    ensures
      var pending := PendingOf(recipients, AlreadySentIds(s.log, slug), limit);
      Leads(s, SoloEvents(w, slug, limit, recipients, t, n),
            World(s.locks, LogAfter(s.log, slug, pending, t, n), s.outbox + Deliveries(slug, SentIds(pending, t, n)),
                  s.runners[w := Runner(slug, limit, Idle)]))
  {
    var pending := PendingOf(recipients, AlreadySentIds(s.log, slug), limit);
    var opening := [Start(w, slug, limit), Select(w, recipients), ReadLog(w)];
    var start, end := Midway(s, w, slug, limit, pending, t, 0), Midway(s, w, slug, limit, pending, t, n);
    OpeningRun(s, w, slug, limit, recipients, t);
    AttemptsRun(s, w, slug, limit, pending, t, n);
    ClosingRun(s, w, slug, limit, pending, t, n);
    LeadsOn(s, opening, start, AttemptEvents(w, t, n), end);
    LeadsOn(s, opening + AttemptEvents(w, t, n), end, [Quit(w), Release(w)],
            World(s.locks, end.log, end.outbox, s.runners[w := Runner(slug, limit, Idle)]));
  }

  lemma OpeningRun(s: World, w: nat, slug: string, limit: int, recipients: seq<UserId>, t: Transport)
    requires w < |s.runners| && s.runners[w].phase.Idle? && LockKey(slug) !in s.locks && Distinct(recipients)
    ensures
      var pending := PendingOf(recipients, AlreadySentIds(s.log, slug), limit);
      var opening := [Start(w, slug, limit), Select(w, recipients), ReadLog(w)];
      Leads(s, opening, Midway(s, w, slug, limit, pending, t, 0))
  {
    var a, b, c := Start(w, slug, limit), Select(w, recipients), ReadLog(w);
    var s1 := Apply(s, a);
    var s2 := Apply(s1, b);
    var pending := PendingOf(recipients, AlreadySentIds(s.log, slug), limit);
    assert s2.runners[w] == Runner(slug, limit, Selected(recipients));
    assert Apply(s2, c) == Midway(s, w, slug, limit, pending, t, 0);
    RunThree(s, a, b, c);
  }

  lemma ClosingRun(s: World, w: nat, slug: string, limit: int, pending: seq<UserId>, t: Transport, n: nat)
    requires w < |s.runners| && n <= |pending| && LockKey(slug) !in s.locks
    ensures
      var m := Midway(s, w, slug, limit, pending, t, n);
      Leads(m, [Quit(w), Release(w)], World(s.locks, m.log, m.outbox, s.runners[w := Runner(slug, limit, Idle)]))
  {
    var m := Midway(s, w, slug, limit, pending, t, n);
    var m1 := Apply(m, Quit(w));
    RunTwo(m, Quit(w), Release(w));
    assert m1.runners[w] == Runner(slug, limit, Closing);
    assert m.locks - {LockKey(slug)} == s.locks;
    assert Apply(m1, Release(w)) == World(s.locks, m.log, m.outbox, s.runners[w := Runner(slug, limit, Idle)]);
  }

  /* ---- Both assumptions are needed ----------------------------------------------------------------------------- */

  function IdleWorld(runners: nat): World {
    World({}, [], [], seq(runners, i => Runner("", 0, Idle)))
  }

  /** A lock that expires under a run lets a second run in, and user 1 gets the email twice. */
  lemma ExpiredLockSendsTwice()
    ensures
      var first := [Start(0, "x", 0), Select(0, [1]), ReadLog(0)];
      var second := [Start(1, "x", 0), Select(1, [1]), ReadLog(1)];
      && Init(IdleWorld(2))
      && Run(IdleWorld(2), first + ([Expire(LockKey("x"))] + (second + [Attempt(0, true), Attempt(1, true)]))).outbox
         == [Delivery("x", 1), Delivery("x", 1)]
  {
    var first, second := [Start(0, "x", 0), Select(0, [1]), ReadLog(0)], [Start(1, "x", 0), Select(1, [1]), ReadLog(1)];
    var expire, sends := [Expire(LockKey("x"))], [Attempt(0, true), Attempt(1, true)];
    var s0 := IdleWorld(2);
    var t := Transport(_ => true, _ => true);
    assert AlreadySentIds([], "x") == {};
    assert PendingOf([1], {}, 0) == [1];
    OpeningRun(s0, 0, "x", 0, [1], t);
    var s3 := Run(s0, first);
    var s4 := Apply(s3, expire[0]);
    assert Run(s3, expire) == s4;
    OpeningRun(s4, 1, "x", 0, [1], t);
    var s7 := Run(s4, second);
    TwoSends(s7);
    RunConcat(s4, second, sends);
    RunConcat(s3, expire, second + sends);
    RunConcat(s0, first, expire + (second + sends));
  }

  lemma TwoSends(s: World)
    requires s.runners == [Runner("x", 0, Sending([1], 0)), Runner("x", 0, Sending([1], 0))] && s.outbox == []
    ensures Run(s, [Attempt(0, true), Attempt(1, true)]).outbox == [Delivery("x", 1), Delivery("x", 1)]
  {
    RunTwo(s, Attempt(0, true), Attempt(1, true));
  }

  /** A run that dies between an accepted send and its log row makes the next run send again. */
  lemma LostLogWriteSendsTwice()
    ensures
      var once := [Start(0, "x", 0), Select(0, [1]), ReadLog(0)] + [Attempt(0, true), Quit(0), Release(0)];
      Init(IdleWorld(1)) && Run(IdleWorld(1), once + once).outbox == [Delivery("x", 1), Delivery("x", 1)]
  {
    var s0 := IdleWorld(1);
    LostWriteRun(s0);
    var once := [Start(0, "x", 0), Select(0, [1]), ReadLog(0)] + [Attempt(0, true), Quit(0), Release(0)];
    var s1 := Run(s0, once);
    LostWriteRun(s1);
    RunConcat(s0, once, once);
  }

  lemma LostWriteRun(s: World)
    requires |s.runners| == 1 && s.runners[0].phase.Idle? && s.locks == {} && s.log == []
    ensures
      var s' := Run(s, [Start(0, "x", 0), Select(0, [1]), ReadLog(0)] + [Attempt(0, true), Quit(0), Release(0)]);
      s' == World({}, [], s.outbox + [Delivery("x", 1)], [Runner("x", 0, Idle)])
  {
    var opening, rest := [Start(0, "x", 0), Select(0, [1]), ReadLog(0)], [Attempt(0, true), Quit(0), Release(0)];
    var t := Transport(_ => true, _ => true);
    assert AlreadySentIds([], "x") == {};
    assert PendingOf([1], {}, 0) == [1];
    OpeningRun(s, 0, "x", 0, [1], t);
    var m := Run(s, opening);
    assert m.runners == [Runner("x", 0, Sending([1], 0))] && m.outbox == s.outbox;
    LostWriteTail(m);
    RunConcat(s, opening, rest);
  }

  lemma LostWriteTail(m: World)
    requires m.runners == [Runner("x", 0, Sending([1], 0))] && m.locks == {LockKey("x")} && m.log == []
    ensures Run(m, [Attempt(0, true), Quit(0), Release(0)])
         == World({}, [], m.outbox + [Delivery("x", 1)], [Runner("x", 0, Idle)])
  {
    RunThree(m, Attempt(0, true), Quit(0), Release(0));
  }
}
