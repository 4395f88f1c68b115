/** One run of an announcement campaign (announcements.py): select, skip those already sent, send in
    batches, record every attempt, stop after a run of failures. */
module Campaign {
  import opened Common
  import opened LogKeys

  type UserId = nat

  datatype Options = Options(batchSize: int, limit: int, maxFailures: int)

  datatype Delivery = Delivery(slug: string, user: UserId)

  /** What the mail server does in one run: whether a connection opens for the batch that starts at an
      index of the pending list, and whether the attempt at an index is delivered. */
  datatype Transport = Transport(opens: nat -> bool, delivers: nat -> bool)

  datatype Report = Report(selected: nat, alreadySent: nat, attempted: nat, sent: nat, failed: nat,
                           failedUserIds: seq<UserId>, stoppedEarly: bool)

  datatype RunResult =
    | Done(report: Report)
    | Busy    // AnnouncementError: another run holds the lock
    | Raised  // the exception of a connection that did not open

  /* ---- The log ------------------------------------------------------------------------------------------------- */

  /** The row that `filter(key).order_by("-pk").first()` finds, or -1. */
  function LastIndex(log: seq<Row>, key: string): (i: int)
    ensures -1 <= i < |log|
    ensures i >= 0 ==> log[i].key == key
    ensures forall j :: i < j < |log| ==> log[j].key != key
  {
    if log == [] then -1
    else if log[|log| - 1].key == key then |log| - 1
    else LastIndex(log[..|log| - 1], key)
  }

  function Recorded(log: seq<Row>, key: string, status: Status): seq<Row> {
    var i := LastIndex(log, key);
    if i < 0 then log + [Row(key, status)] else log[i := Row(key, status)]
  }

  /** Recording SENT adds the user to the sent set of its own campaign and changes no other campaign. */
  lemma RecordedSent(log: seq<Row>, slug: string, user: UserId, s: string)
    ensures AlreadySentIds(Recorded(log, LogKey(slug, user), Sent), s)
         == AlreadySentIds(log, s) + (if s == slug then {user} else {})
  {
    var key := LogKey(slug, user);
    var log' := Recorded(log, key, Sent);
    KeyHasOneOwner(slug, user, s);
    KeyHasOneOwner(slug, user, slug);
    KeptRows(log, key, Sent);
    assert Row(key, Sent) in log';
    if s == slug {
      assert user in AlreadySentIds(log', s) by {
        var r := Row(key, Sent);
        assert r in log' && r.status.Sent? && Claims(s, r.key) && ClaimedUser(s, r.key) == user;
      }
    }
    OtherRowsClaimTheSame(log, log', key, s);
    OtherRowsClaimTheSame(log', log, key, s);
  }

  /** Recording FAILED for a user not yet sent leaves every campaign's sent set as it was. */
  lemma RecordedFailed(log: seq<Row>, slug: string, user: UserId, s: string)
    requires user !in AlreadySentIds(log, slug)
    ensures AlreadySentIds(Recorded(log, LogKey(slug, user), Failed), s) == AlreadySentIds(log, s)
  {
    var key := LogKey(slug, user);
    var log' := Recorded(log, key, Failed);
    KeyHasOneOwner(slug, user, s);
    KeyHasOneOwner(slug, user, slug);
    KeptRows(log, key, Failed);
    assert Row(key, Sent) !in log;
    OtherRowsClaimTheSame(log, log', key, s);
    OtherRowsClaimTheSame(log', log, key, s);
  }

  /** What one attempt does to the sent set of a campaign. */
  lemma AttemptRecorded(log: seq<Row>, slug: string, user: UserId, delivered: bool, s: string)
    requires user !in AlreadySentIds(log, slug)
    ensures AlreadySentIds(Recorded(log, LogKey(slug, user), if delivered then Sent else Failed), s)
         == if delivered && s == slug then AlreadySentIds(log, s) + {user} else AlreadySentIds(log, s)
  {
    if delivered {
      RecordedSent(log, slug, user, s);
    } else {
      RecordedFailed(log, slug, user, s);
    }
  }

  /** Recording changes no row of another key, and adds no row of this key but the new one. */
  lemma KeptRows(log: seq<Row>, key: string, status: Status)
    ensures var log' := Recorded(log, key, status);
            && Row(key, status) in log'
            && (forall r: Row :: r.key != key ==> (r in log <==> r in log'))
            && (forall r: Row :: r.key == key && r in log' ==> r in log || r.status == status)
  {
    var log' := Recorded(log, key, status);
    var i := LastIndex(log, key);
    if i < 0 {
      assert log'[|log|] == Row(key, status);
    } else {
      assert log'[i] == Row(key, status);
      forall r: Row | r.key != key
        ensures r in log <==> r in log'
      {
        if r in log {
          var j :| 0 <= j < |log| && log[j] == r;
          assert log'[j] == r;
        }
      }
    }
  }

  lemma OtherRowsClaimTheSame(log: seq<Row>, log': seq<Row>, key: string, s: string)
    requires forall r :: r in log && r.key != key ==> r in log'
    ensures forall u :: u in AlreadySentIds(log, s) ==>
              u in AlreadySentIds(log', s) || (Row(key, Sent) in log && Claims(s, key) && ClaimedUser(s, key) == u)
  {
  }

  /* ---- Whom to send to ----------------------------------------------------------------------------------------- */

  function NotIn(users: seq<UserId>, done: set<UserId>): (r: seq<UserId>)
    ensures forall u :: u in r <==> u in users && u !in done
  {
    if users == [] then []
    else (if users[0] in done then [] else [users[0]]) + NotIn(users[1..], done)
  }

  /** `pending[:limit]`, with Python's reading of a negative bound. */
  function FirstN(users: seq<UserId>, limit: int): seq<UserId> {
    if limit >= 0 then users[..Min(limit, |users|)] else users[..Max(0, |users| + limit)]
  }

  function PendingOf(recipients: seq<UserId>, done: set<UserId>, limit: int): seq<UserId> {
    var pending := NotIn(recipients, done);
    if limit != 0 then FirstN(pending, limit) else pending
  }

  lemma {:induction false} NotInDistinct(users: seq<UserId>, done: set<UserId>)
    requires Distinct(users)
    ensures Distinct(NotIn(users, done))
  {
    if users != [] {
      NotInDistinct(users[1..], done);
      assert users[0] !in users[1..];
    }
  }

  lemma {:induction false} NotInAppend(a: seq<UserId>, b: seq<UserId>, done: set<UserId>)
    ensures NotIn(a + b, done) == NotIn(a, done) + NotIn(b, done)
  {
    if a == [] {
      assert a + b == b;
    } else {
      NotInAppend(a[1..], b, done);
      assert a + b != [] && (a + b)[0] == a[0] && (a + b)[1..] == a[1..] + b;
      Regroup(if a[0] in done then [] else [a[0]], NotIn(a[1..], done), NotIn(b, done));
    }
  }

  /** Without a limit everybody not yet sent is pending, in the order of the recipients. */
  lemma PendingInOrder(recipients: seq<UserId>, done: set<UserId>, i: nat, j: nat) returns (k: nat, l: nat)
    requires i < j < |recipients| && recipients[i] !in done && recipients[j] !in done
    ensures
      var pending := PendingOf(recipients, done, 0);
      k < l < |pending| && pending[k] == recipients[i] && pending[l] == recipients[j]
  {
    hide NotIn;
    k := PlaceOf(recipients[..j], done, i);
    l := |NotIn(recipients[..j], done)|;
    FirstStays(recipients[j..], done);
    NotInSplit(recipients, done, j);
  }

  lemma NotInSplit(users: seq<UserId>, done: set<UserId>, j: nat)
    requires j <= |users|
    ensures NotIn(users, done) == NotIn(users[..j], done) + NotIn(users[j..], done)
  {
    hide NotIn;
    assert users[..j] + users[j..] == users;
    NotInAppend(users[..j], users[j..], done);
  }

  lemma FirstStays(users: seq<UserId>, done: set<UserId>)
    requires users != [] && users[0] !in done
    ensures NotIn(users, done) != [] && NotIn(users, done)[0] == users[0]
  {
  }

  lemma PlaceOf(users: seq<UserId>, done: set<UserId>, i: nat) returns (k: nat)
    requires i < |users| && users[i] !in done
    ensures k < |NotIn(users, done)| && NotIn(users, done)[k] == users[i]
  {
    assert users[i] in NotIn(users, done);
    k :| 0 <= k < |NotIn(users, done)| && NotIn(users, done)[k] == users[i];
  }

  /** Under a positive limit the first of them, under a negative one all but the last. */
  lemma LimitedPending(recipients: seq<UserId>, done: set<UserId>, limit: int)
    ensures
      var all, pending := PendingOf(recipients, done, 0), PendingOf(recipients, done, limit);
      && pending <= all
      && (limit > 0 ==> |pending| == if limit < |all| then limit else |all|)
      && (limit < 0 ==> |pending| == if |all| + limit > 0 then |all| + limit else 0)
      && forall u :: u in all <==> u in recipients && u !in done
  {
  }

  lemma PendingAreNew(recipients: seq<UserId>, done: set<UserId>, limit: int)
    requires Distinct(recipients)
    ensures Distinct(PendingOf(recipients, done, limit))
    ensures forall u :: u in PendingOf(recipients, done, limit) ==> u in recipients && u !in done
  {
    NotInDistinct(recipients, done);
  }

  /* ---- The run as a whole, without batches --------------------------------------------------------------------- */

  datatype Ending =
    | Completed
    | StoppedEarly(attempts: nat)
    | ConnectFailed(attempts: nat)
  {
    function Attempts(n: nat): nat {
      if Completed? then n else attempts
    }
  }

  /** `i in range(0, n, batch)` for an index i below n. */
  predicate BatchStart(i: nat, batch: nat)
    requires batch > 0
  {
    i == 0 || (i >= batch && BatchStart(i - batch, batch))
  }

  /** How the run ends when `i` attempts are behind it and the last `c` of them failed. */
  function EndingFrom(t: Transport, n: nat, batch: nat, maxFailures: int, i: nat, c: nat): (e: Ending)
    requires i <= n && batch > 0
    ensures i <= e.Attempts(n) <= n
    decreases n - i
  {
    if i == n then Completed
    else if BatchStart(i, batch) && !t.opens(i) then ConnectFailed(i)
    else if t.delivers(i) then EndingFrom(t, n, batch, maxFailures, i + 1, 0)
    else if c + 1 >= maxFailures then StoppedEarly(i + 1)
    else EndingFrom(t, n, batch, maxFailures, i + 1, c + 1)
  }

  /** No attempt left, or none because the connection of its batch failed. */
  lemma EndingEdge(t: Transport, n: nat, batch: nat, maxFailures: int, i: nat, c: nat)
    requires batch > 0 && i <= n
    ensures i == n ==> EndingFrom(t, n, batch, maxFailures, i, c) == Completed
    ensures i < n && BatchStart(i, batch) && !t.opens(i) ==>
              EndingFrom(t, n, batch, maxFailures, i, c) == ConnectFailed(i)
  {
  }

  /** One attempt that begins no batch, or one whose connection opened. */
  lemma EndingStep(t: Transport, n: nat, batch: nat, maxFailures: int, i: nat, c: nat)
    requires batch > 0 && i < n && (BatchStart(i, batch) ==> t.opens(i))
    ensures EndingFrom(t, n, batch, maxFailures, i, c)
         == if t.delivers(i) then EndingFrom(t, n, batch, maxFailures, i + 1, 0)
            else if c + 1 >= maxFailures then StoppedEarly(i + 1)
            else EndingFrom(t, n, batch, maxFailures, i + 1, c + 1)
  {
  }

  function SentIds(pending: seq<UserId>, t: Transport, n: nat): seq<UserId>
    requires n <= |pending|
  {
    if n == 0 then []
    else SentIds(pending, t, n - 1) + (if t.delivers(n - 1) then [pending[n - 1]] else [])
  }

  function FailedIds(pending: seq<UserId>, t: Transport, n: nat): (r: seq<UserId>)
    requires n <= |pending|
    ensures |r| + |SentIds(pending, t, n)| == n
  {
    if n == 0 then []
    else FailedIds(pending, t, n - 1) + (if t.delivers(n - 1) then [] else [pending[n - 1]])
  }

  lemma SentAndFailed(pending: seq<UserId>, t: Transport, n: nat, u: UserId)
    requires n <= |pending|
    ensures u in SentIds(pending, t, n) <==> exists j :: 0 <= j < n && pending[j] == u && t.delivers(j)
    ensures u in FailedIds(pending, t, n) <==> exists j :: 0 <= j < n && pending[j] == u && !t.delivers(j)
  {
    AmongSent(pending, t, n, u);
    AmongFailed(pending, t, n, u);
  }

  lemma {:induction false} AmongSent(pending: seq<UserId>, t: Transport, n: nat, u: UserId)
    requires n <= |pending|
    ensures u in SentIds(pending, t, n) <==> exists j :: 0 <= j < n && pending[j] == u && t.delivers(j)
  {
    if n > 0 {
      AmongSent(pending, t, n - 1, u);
    }
  }

  lemma {:induction false} AmongFailed(pending: seq<UserId>, t: Transport, n: nat, u: UserId)
    requires n <= |pending|
    ensures u in FailedIds(pending, t, n) <==> exists j :: 0 <= j < n && pending[j] == u && !t.delivers(j)
  {
    if n > 0 {
      AmongFailed(pending, t, n - 1, u);
    }
  }

  function Deliveries(slug: string, users: seq<UserId>): (r: seq<Delivery>)
    ensures |r| == |users|
  {
    seq(|users|, i requires 0 <= i < |users| => Delivery(slug, users[i]))
  }

  function LogAfter(log: seq<Row>, slug: string, pending: seq<UserId>, t: Transport, n: nat): seq<Row>
    requires n <= |pending|
  {
    if n == 0 then log
    else Recorded(LogAfter(log, slug, pending, t, n - 1), LogKey(slug, pending[n - 1]),
                  if t.delivers(n - 1) then Sent else Failed)
  }

  /** `m` attempts in a row failed, and the last of them was attempt `k`. */
  predicate StreakEndsAt(t: Transport, m: nat, k: nat) {
    k + 1 >= m && forall j: nat :: k < j + m && j <= k ==> !t.delivers(j)
  }

  ghost predicate NoStreakBefore(t: Transport, m: nat, i: nat) {
    forall k: nat :: k < i ==> !StreakEndsAt(t, m, k)
  }

  ghost predicate OpensBefore(t: Transport, batch: nat, i: nat)
    requires batch > 0
  {
    forall b: nat :: b < i && BatchStart(b, batch) ==> t.opens(b)
  }

  /** An ending told by the transport alone, with no counter and no batch loop. */
  ghost predicate EndsAs(t: Transport, n: nat, batch: nat, m: nat, e: Ending)
    requires batch > 0
  {
    match e
    case Completed => NoStreakBefore(t, m, n) && OpensBefore(t, batch, n)
    case StoppedEarly(a) =>
      1 <= a <= n && StreakEndsAt(t, m, a - 1) && NoStreakBefore(t, m, a - 1) && OpensBefore(t, batch, a)
    case ConnectFailed(a) =>
      a < n && BatchStart(a, batch) && !t.opens(a) && NoStreakBefore(t, m, a) && OpensBefore(t, batch, a)
  }

  /** The run stops early at the first streak of max(1, max_failures) failures, wherever the batches lie,
      unless a connection fails before it; and in no other case. */
  lemma EndingExact(t: Transport, n: nat, batch: nat, maxFailures: int, e: Ending)
    requires batch > 0
    ensures e == EndingFrom(t, n, batch, maxFailures, 0, 0) <==> EndsAs(t, n, batch, Max(1, maxFailures), e)
  {
    EndingFromExact(t, n, batch, maxFailures, 0, 0);
    if EndsAs(t, n, batch, Max(1, maxFailures), e) {
      EndsAsOneThing(t, n, batch, Max(1, maxFailures), e, EndingFrom(t, n, batch, maxFailures, 0, 0));
    }
  }

  lemma EndsAsOneThing(t: Transport, n: nat, batch: nat, m: nat, e: Ending, e': Ending)
    requires batch > 0 && EndsAs(t, n, batch, m, e) && EndsAs(t, n, batch, m, e')
    ensures e == e'
  {
    var a, a' := e.Attempts(n), e'.Attempts(n);
    assert a == a';
  }

  lemma {:induction false} EndingFromExact(t: Transport, n: nat, batch: nat, maxFailures: int, i: nat, c: nat)
    requires batch > 0 && i <= n && c <= i && c < Max(1, maxFailures)
    requires forall j: nat :: i - c <= j < i ==> !t.delivers(j)
    requires c < i ==> t.delivers(i - c - 1)
    requires NoStreakBefore(t, Max(1, maxFailures), i) && OpensBefore(t, batch, i)
    ensures EndsAs(t, n, batch, Max(1, maxFailures), EndingFrom(t, n, batch, maxFailures, i, c))
    decreases n - i
  {
    var m := Max(1, maxFailures);
    if i < n && !(BatchStart(i, batch) && !t.opens(i)) {
      assert OpensBefore(t, batch, i + 1);
      if t.delivers(i) {
        assert !StreakEndsAt(t, m, i);
        EndingFromExact(t, n, batch, maxFailures, i + 1, 0);
      } else if c + 1 < maxFailures {
        assert !StreakEndsAt(t, m, i);
        EndingFromExact(t, n, batch, maxFailures, i + 1, c + 1);
      } else {
        assert StreakEndsAt(t, m, i);
      }
    }
  }

  function SetOf(users: seq<UserId>): set<UserId> {
    set u | u in users
  }

  lemma NotSentBefore(pending: seq<UserId>, t: Transport, n: nat)
    requires n < |pending| && Distinct(pending)
    ensures pending[n] !in SetOf(SentIds(pending, t, n))
  {
    SentAndFailed(pending, t, n, pending[n]);
  }

  /** One attempt on plain sets: `sent0` was sent before the run, `sent` by the attempts so far. */
  lemma SentStep(sent0: set<UserId>, sent: seq<UserId>, user: UserId, delivered: bool, all: set<UserId>)
    requires all == sent0 + SetOf(sent)
    ensures (if delivered then all + {user} else all) == sent0 + SetOf(if delivered then sent + [user] else sent)
  {
  }

  lemma AttemptStep(log: seq<Row>, slug: string, pending: seq<UserId>, t: Transport, i: nat, s: string)
    requires i < |pending| && pending[i] !in AlreadySentIds(LogAfter(log, slug, pending, t, i), slug)
    ensures
      var before := AlreadySentIds(LogAfter(log, slug, pending, t, i), s);
      var after := AlreadySentIds(LogAfter(log, slug, pending, t, i + 1), s);
      after == if t.delivers(i) && s == slug then before + {pending[i]} else before
  {
    AttemptRecorded(LogAfter(log, slug, pending, t, i), slug, pending[i], t.delivers(i), s);
  }

  /** A run adds to the sent set of its campaign exactly the users it delivered to. */
  lemma {:induction false} SentSetAfterRun(log: seq<Row>, slug: string, pending: seq<UserId>, t: Transport, n: nat)
    requires n <= |pending| && Distinct(pending)
    requires forall u :: u in pending ==> u !in AlreadySentIds(log, slug)
    ensures AlreadySentIds(LogAfter(log, slug, pending, t, n), slug)
         == AlreadySentIds(log, slug) + SetOf(SentIds(pending, t, n))
  {
    hide AlreadySentIds, Recorded;
    if n > 0 {
      SentSetAfterRun(log, slug, pending, t, n - 1);
      var sent0, sent := AlreadySentIds(log, slug), SentIds(pending, t, n - 1);
      var all := AlreadySentIds(LogAfter(log, slug, pending, t, n - 1), slug);
      NotSentBefore(pending, t, n - 1);
      AttemptStep(log, slug, pending, t, n - 1, slug);
      SentStep(sent0, sent, pending[n - 1], t.delivers(n - 1), all);
    }
  }

  lemma AttemptIsNew(log: seq<Row>, slug: string, pending: seq<UserId>, t: Transport, i: nat)
    requires i < |pending| && Distinct(pending)
    requires forall u :: u in pending ==> u !in AlreadySentIds(log, slug)
    ensures pending[i] !in AlreadySentIds(LogAfter(log, slug, pending, t, i), slug)
  {
    SentSetAfterRun(log, slug, pending, t, i);
    NotSentBefore(pending, t, i);
  }

  /** A run touches the sent set of no other campaign. */
  lemma {:induction false} OtherCampaignsKept(log: seq<Row>, slug: string, pending: seq<UserId>, t: Transport, n: nat,
                                              s: string)
    requires n <= |pending| && Distinct(pending) && s != slug
    requires forall u :: u in pending ==> u !in AlreadySentIds(log, slug)
    ensures AlreadySentIds(LogAfter(log, slug, pending, t, n), s) == AlreadySentIds(log, s)
  {
    hide AlreadySentIds, Recorded;
    if n > 0 {
      OtherCampaignsKept(log, slug, pending, t, n - 1, s);
      AttemptIsNew(log, slug, pending, t, n - 1);
      AttemptStep(log, slug, pending, t, n - 1, s);
    }
  }

  /** However many attempts a run made, a later run for the same recipients starts from exactly those it did not deliver
      to: whoever was sent is skipped, and every failure and everyone not reached is tried again. */
  lemma NextRunResumes(log: seq<Row>, slug: string, recipients: seq<UserId>, limit: int, t: Transport,
                       pending: seq<UserId>, n: nat, u: UserId)
    requires Distinct(recipients)
    requires pending == PendingOf(recipients, AlreadySentIds(log, slug), limit) && n <= |pending|
    ensures u in PendingOf(recipients, AlreadySentIds(LogAfter(log, slug, pending, t, n), slug), 0) <==>
              u in recipients && u !in AlreadySentIds(log, slug) && u !in SentIds(pending, t, n)
  {
    PendingAreNew(recipients, AlreadySentIds(log, slug), limit);
    SentSetAfterRun(log, slug, pending, t, n);
  }

  lemma {:induction false} OneStartPerBatch(start: nat, i: nat, batch: nat)
    requires batch > 0 && BatchStart(start, batch) && start <= i < start + batch
    ensures BatchStart(i, batch) <==> i == start
    ensures BatchStart(start + batch, batch)
  {
    if start > 0 {
      OneStartPerBatch(start - batch, i - batch, batch);
    }
  }

  lemma NoStartInside(start: nat, batch: nat)
    requires batch > 0 && BatchStart(start, batch)
    ensures forall i :: start < i < start + batch ==> !BatchStart(i, batch)
    ensures BatchStart(start + batch, batch)
  {
    forall i | start <= i < start + batch
      ensures BatchStart(i, batch) <==> i == start
    {
      OneStartPerBatch(start, i, batch);
    }
  }

  lemma DeliveriesGrow(slug: string, users: seq<UserId>, user: UserId)
    ensures Deliveries(slug, users + [user]) == Deliveries(slug, users) + [Delivery(slug, user)]
  {
  }

  /** What one more attempt does to the lists of a run. */
  lemma ProgressStep(slug: string, pending: seq<UserId>, t: Transport, i: nat,
                     log0: seq<Row>, log: seq<Row>, outbox0: seq<Delivery>, outbox: seq<Delivery>)
    requires i < |pending|
    requires log == LogAfter(log0, slug, pending, t, i)
    requires outbox == outbox0 + Deliveries(slug, SentIds(pending, t, i))
    ensures LogAfter(log0, slug, pending, t, i + 1)
         == Recorded(log, LogKey(slug, pending[i]), if t.delivers(i) then Sent else Failed)
    ensures t.delivers(i) ==>
              && SentIds(pending, t, i + 1) == SentIds(pending, t, i) + [pending[i]]
              && FailedIds(pending, t, i + 1) == FailedIds(pending, t, i)
              && outbox0 + Deliveries(slug, SentIds(pending, t, i + 1)) == outbox + [Delivery(slug, pending[i])]
    ensures !t.delivers(i) ==>
              && SentIds(pending, t, i + 1) == SentIds(pending, t, i)
              && FailedIds(pending, t, i + 1) == FailedIds(pending, t, i) + [pending[i]]
  {
    DeliveriesGrow(slug, SentIds(pending, t, i), pending[i]);
  }

  /** The cache, the communication log and the mail server's outbox. */
  class MailRoom {
    var locks: set<string>
    var log: seq<Row>
    var outbox: seq<Delivery>

    constructor ()
      ensures locks == {} && log == [] && outbox == []
    {
      locks, log, outbox := {}, [], [];
    }

    method Record(slug: string, user: UserId, status: Status)
      modifies this`log
      ensures log == Recorded(old(log), LogKey(slug, user), status)
    {
      var key := LogKey(slug, user);
      var i := |log| - 1;
      while i >= 0 && log[i].key != key
        invariant -1 <= i < |log|
        invariant forall j :: i < j < |log| ==> log[j].key != key
      {
        i := i - 1;
      }
      assert i == LastIndex(log, key);
      if i < 0 {
        log := log + [Row(key, status)];
      } else {
        log := log[i := Row(key, status)];
      }
    }

    /** One user: the send, its counters and its log row. */
    method SendOne(slug: string, pending: seq<UserId>, t: Transport, i: nat, before: Report,
                   ghost log0: seq<Row>, ghost outbox0: seq<Delivery>)
      returns (report: Report)
      requires i < |pending|
      requires Progress(before, slug, pending, t, i, log0, log, outbox0, outbox)
      modifies this`log, this`outbox
      ensures Progress(report, slug, pending, t, i + 1, log0, log, outbox0, outbox)
      ensures report.selected == before.selected && report.alreadySent == before.alreadySent
      ensures report.stoppedEarly == before.stoppedEarly
    {
      ProgressStep(slug, pending, t, i, log0, log, outbox0, outbox);
      var user := pending[i];
      report := before.(attempted := before.attempted + 1);
      if !t.delivers(i) {
        report := report.(failed := report.failed + 1, failedUserIds := report.failedUserIds + [user]);
        Record(slug, user, Failed);
      } else {
        outbox := outbox + [Delivery(slug, user)];
        report := report.(sent := report.sent + 1);
        Record(slug, user, Sent);
      }
    }

    /** The inner loop: one batch over one connection. */
    method SendBatch(slug: string, batch: nat, maxFailures: int, pending: seq<UserId>, t: Transport, start: nat,
                     end: nat, before: Report, failuresBefore: nat,
                     ghost log0: seq<Row>, ghost outbox0: seq<Delivery>, ghost ending: Ending)
      returns (report: Report, consecutive: nat)
      requires batch > 0 && start <= end <= |pending| && !before.stoppedEarly
      requires Progress(before, slug, pending, t, start, log0, log, outbox0, outbox)
      requires forall i :: start < i < end ==> !BatchStart(i, batch)
      requires t.opens(start)
      requires ending == EndingFrom(t, |pending|, batch, maxFailures, start, failuresBefore)
      modifies this`log, this`outbox
      ensures report.selected == before.selected && report.alreadySent == before.alreadySent
      ensures report.attempted <= end
      ensures Progress(report, slug, pending, t, report.attempted, log0, log, outbox0, outbox)
      ensures report.stoppedEarly ==> ending == StoppedEarly(report.attempted)
      ensures !report.stoppedEarly ==>
                && report.attempted == end
                && ending == EndingFrom(t, |pending|, batch, maxFailures, end, consecutive)
    {
      hide EndingFrom, LogAfter, SentIds, FailedIds, Deliveries;
      var i := start;
      report, consecutive := before, failuresBefore;
      while i < end
        invariant start <= i <= end && !report.stoppedEarly
        invariant report.selected == before.selected && report.alreadySent == before.alreadySent
        invariant ending == EndingFrom(t, |pending|, batch, maxFailures, i, consecutive)
        invariant Progress(report, slug, pending, t, i, log0, log, outbox0, outbox)
      {
        EndingStep(t, |pending|, batch, maxFailures, i, consecutive);
        report := SendOne(slug, pending, t, i, report, log0, outbox0);
        if !t.delivers(i) {
          consecutive := consecutive + 1;
          if consecutive >= maxFailures {
            report := report.(stoppedEarly := true);
            return;
          }
        } else {
          consecutive := 0;
        }
        i := i + 1;
      }
    }

    /** The batches, with the lock held. */
    method SendPending(slug: string, options: Options, pending: seq<UserId>, t: Transport,
                       selected: nat, alreadySent: nat)
      returns (r: RunResult)
      requires LockKey(slug) in locks
      modifies this`log, this`outbox
      ensures
        var ending := EndingFrom(t, |pending|, Max(1, options.batchSize), options.maxFailures, 0, 0);
        var n := ending.Attempts(|pending|);
        && log == LogAfter(old(log), slug, pending, t, n)
        && outbox == old(outbox) + Deliveries(slug, SentIds(pending, t, n))
        && !r.Busy?
        && (r.Raised? <==> ending.ConnectFailed?)
        && (r.Done? ==>
              && Progress(r.report, slug, pending, t, n, old(log), log, old(outbox), outbox)
              && r.report.stoppedEarly == ending.StoppedEarly?
              && r.report.selected == selected && r.report.alreadySent == alreadySent)
    {
      var report := Report(selected, alreadySent, 0, 0, 0, [], false);
      var consecutive := 0;
      var batchSize := Max(1, options.batchSize);
      var start := 0;
      assert Progress(report, slug, pending, t, 0, old(log), log, old(outbox), outbox);
      hide EndingFrom, LogAfter, SentIds, FailedIds, Deliveries;
      while start < |pending|
        invariant BatchStart(start, batchSize)
        invariant EndingFrom(t, |pending|, batchSize, options.maxFailures, 0, 0)
               == EndingFrom(t, |pending|, batchSize, options.maxFailures, Min(start, |pending|), consecutive)
        invariant Progress(report, slug, pending, t, Min(start, |pending|), old(log), log, old(outbox), outbox)
        invariant report.selected == selected && report.alreadySent == alreadySent && !report.stoppedEarly
      {
        EndingEdge(t, |pending|, batchSize, options.maxFailures, start, consecutive);
        if !t.opens(start) {
          return Raised;
        }
        var end := Min(start + batchSize, |pending|);
        NoStartInside(start, batchSize);
        report, consecutive := SendBatch(slug, batchSize, options.maxFailures, pending, t, start, end,
                                         report, consecutive, old(log), old(outbox),
                                         EndingFrom(t, |pending|, batchSize, options.maxFailures, 0, 0));
        if report.stoppedEarly {
          return Done(report);
        }
        start := start + batchSize;
      }
      EndingEdge(t, |pending|, batchSize, options.maxFailures, |pending|, consecutive);
      return Done(report);
    }

    method SendCampaign(slug: string, options: Options, recipients: seq<UserId>, t: Transport) returns (r: RunResult)
      modifies this
      ensures r.Busy? <==> LockKey(slug) in old(locks)
      ensures r.Busy? ==> log == old(log) && outbox == old(outbox)
      ensures locks == old(locks)
      ensures !r.Busy? ==>
        var done := AlreadySentIds(old(log), slug);
        var pending := PendingOf(recipients, done, options.limit);
        var ending := EndingFrom(t, |pending|, Max(1, options.batchSize), options.maxFailures, 0, 0);
        var n := ending.Attempts(|pending|);
        && log == LogAfter(old(log), slug, pending, t, n)
        && outbox == old(outbox) + Deliveries(slug, SentIds(pending, t, n))
        && (r.Raised? <==> ending.ConnectFailed?)
        && (r.Done? ==>
              && Progress(r.report, slug, pending, t, n, old(log), log, old(outbox), outbox)
              && r.report.stoppedEarly == ending.StoppedEarly?
              && r.report.selected == |recipients| && r.report.alreadySent == |done|)
    {
      var lock := LockKey(slug);
      if lock in locks {
        return Busy;
      }
      locks := locks + {lock};
      var done := AlreadySentIds(log, slug);
      var pending := PendingOf(recipients, done, options.limit);
      r := SendPending(slug, options, pending, t, |recipients|, |done|);
      locks := locks - {lock};
    }
  }

  /** The counters, the log and the outbox after `i` attempts. */
  ghost predicate Progress(r: Report, slug: string, pending: seq<UserId>, t: Transport, i: nat,
                           log0: seq<Row>, log: seq<Row>, outbox0: seq<Delivery>, outbox: seq<Delivery>)
  {
    && i <= |pending|
    && r.attempted == i == r.sent + r.failed
    && r.sent == |SentIds(pending, t, i)|
    && r.failedUserIds == FailedIds(pending, t, i)
    && log == LogAfter(log0, slug, pending, t, i)
    && outbox == outbox0 + Deliveries(slug, SentIds(pending, t, i))
  }
}
