/** Refunds by requests that overlap (refund_booking_internal in equipment/api_views.py). Each request is one
    transaction: what it has read of a booking may be out of date when it commits, since no row is locked. */
module RefundOverlap {
  import opened Common
  import opened SlotDesk

  /** For each request the bookings it has found refundable and is to refund; and what each commit refunded. */
  datatype World = World(desk: Desk, requests: seq<set<BookingId>>, commits: seq<set<BookingId>>)

  datatype Event =
    | Look(w: nat, booking: BookingId)
    | Drop(w: nat, booking: BookingId)  // the refund fails, and the request goes on without it
    | Abort(w: nat)                     // the transaction is rolled back
    | Commit(w: nat)
    | Change(desk: Desk)                // whatever else changes slots and bookings

  /** The bookings that are refunded or closed as not utilized. */
  function SettledIn(d: Desk): set<BookingId> {
    set b | b in d.bookings && (d.bookings[b].status.Refunded? || d.bookings[b].status.NotUtilized?)
  }

  /** A change that refunds nothing, reopens no settled booking, moves no money and alters no amount. */
  ghost predicate Harmless(d: Desk, d': Desk) {
    && d.bookings.Keys <= d'.bookings.Keys && SameAmounts(d.bookings, d'.bookings, d.bookings.Keys)
    && RefundedIn(d') <= RefundedIn(d) && SettledIn(d) <= SettledIn(d') && d'.wallets == d.wallets
  }

  /** The commit does what it has read to be right, whatever the bookings have become. */
  ghost function Apply(s: World, e: Event): World {
    match e
    case Look(w, b) =>
      if w < |s.requests| && Refundable(s.desk, b) then s.(requests := s.requests[w := s.requests[w] + {b}]) else s
    case Drop(w, b) =>
      if w < |s.requests| then s.(requests := s.requests[w := s.requests[w] - {b}]) else s
    case Abort(w) =>
      if w < |s.requests| then s.(requests := s.requests[w := {}]) else s
    case Commit(w) =>
      if w < |s.requests| then
        World(Refund(s.desk, s.requests[w]), s.requests[w := {}], s.commits + [s.requests[w]])
      else s
    case Change(d) => if Harmless(s.desk, d) then s.(desk := d) else s
  }

  ghost function Run(s: World, events: seq<Event>): World {
    if events == [] then s else Apply(Run(s, events[..|events| - 1]), events[|events| - 1])
  }

  function Start(d: Desk, n: nat): World {
    World(d, seq(n, i => {}), [])
  }

  /** How many of the sets have the booking. */
  function Times(sets: seq<set<BookingId>>, b: BookingId): nat {
    if sets == [] then 0 else Times(sets[..|sets| - 1], b) + if b in sets[|sets| - 1] then 1 else 0
  }

  /** The credits of all commits to one user. */
  ghost function Paid(bookings: map<BookingId, Booking>, commits: seq<set<BookingId>>, user: UserId): nat {
    if commits == [] then 0
    else Paid(bookings, commits[..|commits| - 1], user) + TotalCredit(bookings, commits[|commits| - 1], user)
  }

  lemma {:induction false} TimesUpdate(sets: seq<set<BookingId>>, w: nat, x: set<BookingId>, b: BookingId)
    requires w < |sets|
    ensures Times(sets[w := x], b)
         == Times(sets, b) + (if b in x then 1 else 0) - (if b in sets[w] then 1 else 0)
  {
    var n := |sets| - 1;
    if w == n {
      assert sets[w := x][..n] == sets[..n];
    } else {
      TimesUpdate(sets[..n], w, x, b);
      assert sets[w := x][..n] == sets[..n][w := x];
    }
  }

  lemma {:induction false} TimesBound(sets: seq<set<BookingId>>, b: BookingId)
    ensures Times(sets, b) <= |sets|
  {
    if sets != [] {
      TimesBound(sets[..|sets| - 1], b);
    }
  }

  lemma {:induction false} NoTimes(sets: seq<set<BookingId>>, b: BookingId)
    requires forall i :: 0 <= i < |sets| ==> b !in sets[i]
    ensures Times(sets, b) == 0
  {
    if sets != [] {
      NoTimes(sets[..|sets| - 1], b);
    }
  }

  lemma TimesMore(sets: seq<set<BookingId>>, x: set<BookingId>, b: BookingId)
    ensures Times(sets + [x], b) == Times(sets, b) + if b in x then 1 else 0
  {
    assert (sets + [x])[..|sets|] == sets;
  }

  ghost predicate AllKnown(sets: seq<set<BookingId>>, bookings: map<BookingId, Booking>) {
    forall i :: 0 <= i < |sets| ==> sets[i] <= bookings.Keys
  }

  /* ---- How often a booking is credited ------------------------------------------------------------------------- */

  /** The commits of a booking and the requests about to commit it, together, are no more than the requests; a booking
      not yet settled has no commit; and one settled at the start has neither. */
  ghost predicate Inv(d0: Desk, s: World, b: BookingId) {
    && AllKnown(s.requests, s.desk.bookings) && AllKnown(s.commits, s.desk.bookings)
    && (b !in SettledIn(s.desk) ==> Times(s.commits, b) == 0)
    && Times(s.commits, b) + Times(s.requests, b) <= |s.requests|
    && (b in SettledIn(d0) ==> b in SettledIn(s.desk) && Times(s.commits, b) + Times(s.requests, b) == 0)
  }

  lemma CommitKeeps(d0: Desk, s: World, w: nat, b: BookingId)
    requires Inv(d0, s, b) && w < |s.requests|
    ensures Inv(d0, Apply(s, Commit(w)), b)
  {
    TimesUpdate(s.requests, w, {}, b);
    TimesMore(s.commits, s.requests[w], b);
  }

  lemma LookKeeps(d0: Desk, s: World, w: nat, c: BookingId, b: BookingId)
    requires Inv(d0, s, b) && w < |s.requests| && Refundable(s.desk, c)
    ensures Inv(d0, Apply(s, Look(w, c)), b)
  {
    TimesUpdate(s.requests, w, s.requests[w] + {c}, b);
    TimesBound(s.requests[w := s.requests[w] + {c}], b);
  }

  lemma StepKeeps(d0: Desk, s: World, e: Event, b: BookingId)
    requires Inv(d0, s, b)
    ensures Inv(d0, Apply(s, e), b) && |Apply(s, e).requests| == |s.requests|
  {
    match e
    case Look(w, c) =>
      if w < |s.requests| && Refundable(s.desk, c) {
        LookKeeps(d0, s, w, c, b);
      }
    case Drop(w, c) =>
      if w < |s.requests| {
        TimesUpdate(s.requests, w, s.requests[w] - {c}, b);
      }
    case Abort(w) =>
      if w < |s.requests| {
        TimesUpdate(s.requests, w, {}, b);
      }
    case Commit(w) =>
      if w < |s.requests| {
        CommitKeeps(d0, s, w, b);
      }
    case Change(d) =>
  }

  /* ---- Where the money goes ------------------------------------------------------------------------------------ */

  ghost predicate Balanced(d0: Desk, s: World) {
    && AllKnown(s.requests, s.desk.bookings) && AllKnown(s.commits, s.desk.bookings)
    && s.desk.wallets.Keys == d0.wallets.Keys
    && forall u <- d0.wallets.Keys :: s.desk.wallets[u] == d0.wallets[u] + Paid(s.desk.bookings, s.commits, u)
  }

  lemma {:induction false} PaidSame(a: map<BookingId, Booking>, b: map<BookingId, Booking>,
                                    commits: seq<set<BookingId>>, user: UserId)
    requires AllKnown(commits, a) && SameAmounts(a, b, a.Keys)
    ensures Paid(a, commits, user) == Paid(b, commits, user)
  {
    if commits != [] {
      var n := |commits| - 1;
      PaidSame(a, b, commits[..n], user);
      TotalCreditSame(a, b, commits[n], user);
    }
  }

  lemma PaidMore(bookings: map<BookingId, Booking>, commits: seq<set<BookingId>>, x: set<BookingId>, user: UserId)
    ensures Paid(bookings, commits + [x], user) == Paid(bookings, commits, user) + TotalCredit(bookings, x, user)
  {
    assert (commits + [x])[..|commits|] == commits;
  }

  lemma CommitBalances(d0: Desk, s: World, w: nat)
    requires Balanced(d0, s) && w < |s.requests|
    ensures Balanced(d0, Apply(s, Commit(w)))
  {
    var s', x := Apply(s, Commit(w)), s.requests[w];
    forall u | u in d0.wallets.Keys
      ensures s'.desk.wallets[u] == d0.wallets[u] + Paid(s'.desk.bookings, s'.commits, u)
    {
      PaidMore(s.desk.bookings, s.commits, x, u);
      PaidSame(s.desk.bookings, s'.desk.bookings, s'.commits, u);
    }
  }

  lemma StepBalances(d0: Desk, s: World, e: Event)
    requires Balanced(d0, s)
    ensures Balanced(d0, Apply(s, e))
  {
    match e
    case Commit(w) =>
      if w < |s.requests| {
        CommitBalances(d0, s, w);
      }
    case Change(d) =>
      if Harmless(s.desk, d) {
        forall u | u in d0.wallets.Keys
          ensures Paid(d.bookings, s.commits, u) == Paid(s.desk.bookings, s.commits, u)
        {
          PaidSame(s.desk.bookings, d.bookings, s.commits, u);
        }
      }
    case _ =>
  }

  lemma {:induction false} RunKeeps(d0: Desk, n: nat, events: seq<Event>, b: BookingId)
    ensures var s := Run(Start(d0, n), events); Inv(d0, s, b) && Balanced(d0, s) && |s.requests| == n
  {
    if events == [] {
      NoTimes(Start(d0, n).requests, b);
    } else {
      RunKeeps(d0, n, events[..|events| - 1], b);
      StepKeeps(d0, Run(Start(d0, n), events[..|events| - 1]), events[|events| - 1], b);
      StepBalances(d0, Run(Start(d0, n), events[..|events| - 1]), events[|events| - 1]);
    }
  }

  /** However n requests overlap, with whatever else happens to slots and bookings between their steps: every wallet
      moves by exactly the credits of the commits, no booking is credited more than n times, and one settled before is
      not credited at all. With one request, no booking is credited twice. */
  lemma CreditsPerBooking(d0: Desk, n: nat, events: seq<Event>, b: BookingId, user: UserId)
    requires user in d0.wallets
    ensures
      var s := Run(Start(d0, n), events);
      && Times(s.commits, b) <= n
      && (b in SettledIn(d0) ==> Times(s.commits, b) == 0)
      && user in s.desk.wallets
      && s.desk.wallets[user] == d0.wallets[user] + Paid(s.desk.bookings, s.commits, user)
  {
    RunKeeps(d0, n, events, b);
  }

  /* ---- The bound is reached ------------------------------------------------------------------------------------ */

  /** All n requests look at the booking, and then k of them commit. */
  function LookAll(b: BookingId, n: nat): seq<Event> {
    if n == 0 then [] else LookAll(b, n - 1) + [Look(n - 1, b)]
  }

  function ThenCommit(b: BookingId, n: nat, k: nat): seq<Event> {
    if k == 0 then LookAll(b, n) else ThenCommit(b, n, k - 1) + [Commit(k - 1)]
  }

  lemma RunMore(s: World, events: seq<Event>, e: Event)
    ensures Run(s, events + [e]) == Apply(Run(s, events), e)
  {
    assert (events + [e])[..|events|] == events;
  }

  function Looking(b: BookingId, n: nat, from: nat, to: nat): seq<set<BookingId>> {
    seq(n, i => if from <= i < to then {b} else {})
  }

  lemma {:induction false} LookAllRun(d: Desk, b: BookingId, n: nat, k: nat)
    requires k <= n && Refundable(d, b)
    ensures Run(Start(d, n), LookAll(b, k)) == World(d, Looking(b, n, 0, k), [])
  {
    if k > 0 {
      LookAllRun(d, b, n, k - 1);
      RunMore(Start(d, n), LookAll(b, k - 1), Look(k - 1, b));
      var r, r' := Looking(b, n, 0, k - 1), Looking(b, n, 0, k);
      assert r[k - 1] == {} && {} + {b} == {b};
      assert r[k - 1 := {b}] == r';
    } else {
      assert Start(d, n).requests == Looking(b, n, 0, 0);
    }
  }

  lemma RefundPays(d: Desk, b: BookingId)
    requires b in d.bookings && d.bookings[b].user in d.wallets
    ensures
      var d', user := Refund(d, {b}), d.bookings[b].user;
      && b in d'.bookings && d'.bookings[b] == d.bookings[b].(status := Refunded)
      && user in d'.wallets && d'.wallets[user] == d.wallets[user] + d.bookings[b].credit
  {
    TotalCreditOne(d.bookings, b, d.bookings[b].user);
  }

  /** After k commits, with the other requests still to commit. */
  ghost predicate PaidTimes(s: World, b: BookingId, n: nat, k: nat, user: UserId, balance: int, credit: nat) {
    && s.requests == Looking(b, n, k, n) && Times(s.commits, b) == k
    && b in s.desk.bookings && s.desk.bookings[b].user == user && s.desk.bookings[b].credit == credit
    && user in s.desk.wallets && s.desk.wallets[user] == balance + k * credit
  }

  lemma OneMorePays(s: World, b: BookingId, n: nat, k: nat, user: UserId, balance: int, credit: nat)
    requires PaidTimes(s, b, n, k, user, balance, credit) && k < n
    ensures PaidTimes(Apply(s, Commit(k)), b, n, k + 1, user, balance, credit)
  {
    var r, r' := Looking(b, n, k, n), Looking(b, n, k + 1, n);
    assert r[k] == {b};
    assert r[k := {}] == r';
    RefundPays(s.desk, b);
    TimesMore(s.commits, {b}, b);
    assert (k + 1) * credit == k * credit + credit;
  }

  lemma AllLooked(d: Desk, b: BookingId, n: nat, user: UserId, balance: int, credit: nat)
    requires Refundable(d, b) && d.bookings[b].user == user && d.bookings[b].credit == credit
    requires d.wallets[user] == balance
    ensures PaidTimes(Run(Start(d, n), ThenCommit(b, n, 0)), b, n, 0, user, balance, credit)
  {
    LookAllRun(d, b, n, n);
  }

  lemma {:induction false} ThenCommitRun(s: World, b: BookingId, n: nat, k: nat, user: UserId, balance: int,
                                         credit: nat)
    requires k <= n && PaidTimes(Run(s, ThenCommit(b, n, 0)), b, n, 0, user, balance, credit)
    ensures PaidTimes(Run(s, ThenCommit(b, n, k)), b, n, k, user, balance, credit)
  {
    hide PaidTimes, Apply, Run;
    if k > 0 {
      ThenCommitRun(s, b, n, k - 1, user, balance, credit);
      RunMore(s, ThenCommit(b, n, k - 1), Commit(k - 1));
      OneMorePays(Run(s, ThenCommit(b, n, k - 1)), b, n, k - 1, user, balance, credit);
    }
  }

  /** The bound cannot be lowered: n requests that all look before any of them commits credit the booking n times. */
  lemma EveryRequestPays(d: Desk, b: BookingId, n: nat)
    requires Refundable(d, b)
    ensures
      var s, user := Run(Start(d, n), ThenCommit(b, n, n)), d.bookings[b].user;
      && Times(s.commits, b) == n
      && user in s.desk.wallets && s.desk.wallets[user] == d.wallets[user] + n * d.bookings[b].credit
  {
    var user, credit := d.bookings[b].user, d.bookings[b].credit;
    AllLooked(d, b, n, user, d.wallets[user], credit);
    ThenCommitRun(Start(d, n), b, n, n, user, d.wallets[user], credit);
  }

  /** One request left alone does what RefundBooking does. */
  lemma SoloRefund(d: Desk, b: BookingId)
    ensures Run(Start(d, 1), [Look(0, b), Commit(0)]).desk == if Refundable(d, b) then Refund(d, {b}) else d
  {
    var s := Start(d, 1);
    RunMore(s, [], Look(0, b));
    RunMore(s, [Look(0, b)], Commit(0));
    assert [] + [Look(0, b)] == [Look(0, b)] && [Look(0, b)] + [Commit(0)] == [Look(0, b), Commit(0)];
    RefundNone(d);
    assert {} + {b} == {b};
  }

  /* ---- What else may change ------------------------------------------------------------------------------------ */

  /** A new booking is such a change. */
  lemma BookingIsHarmless(d: Desk, b: BookingId, booking: Booking, taken: set<SlotId>, d': Desk)
    requires BooksSlots(d, b, booking, taken, d')
    ensures Harmless(d, d')
  {
  }

  /** So is the progress of a booking that is not settled. */
  lemma ProgressIsHarmless(d: Desk, b: BookingId, status: BookingStatus, d': Desk)
    requires MovesOn(d, b, status, d') && b !in SettledIn(d)
    ensures Harmless(d, d')
  {
  }

  /** So are the parts of a bulk call that refund nothing, on whatever slots and bookings it chose earlier. */
  lemma CallIsHarmless(d: Desk, chosen: set<SlotId>, owners: set<BookingId>, c: Call)
    ensures Harmless(d, Mark(d, chosen, c)) && Harmless(d, Disrupt(d, owners)) && Harmless(d, CloseUnused(d, owners))
  {
  }

  /** Marking slots that were chosen earlier keeps closed slots without a booking if and only if it closes none that
      has one by now. */
  lemma LateMarkIff(d: Desk, chosen: set<SlotId>, c: Call)
    requires SlotDesk.Inv(d)
    ensures SlotDesk.Inv(Mark(d, chosen, c)) <==>
              (Closed(c.status) ==> forall s <- chosen :: s in d.slots ==> d.slots[s].booking.None?)
  {
    var d' := Mark(d, chosen, c);
    if s :| s in chosen && s in d.slots && d.slots[s].booking.Some? && Closed(c.status) {
      assert d'.slots[s].booking.Some? && Closed(d'.slots[s].status);
    }
  }

  /** It happens: a free slot is chosen to be blocked, and booked before it is marked. */
  lemma BookedMeanwhile(d: Desk) returns (d': Desk)
    requires d == Desk(map[1 := Slot(Available, None, None, None)], map[], map[7 := 0], false)
    ensures
      var c := Call({1}, Blocked, None, None);
      && BooksSlots(d, 1, Booking(Confirmed, 7, 100), {1}, d') && SlotDesk.Inv(d')
      && Chosen(d, c) == {1} && !SlotDesk.Inv(Mark(d', Chosen(d, c), c))
  {
    d' := BookOne(d);
    var c := Call({1}, Blocked, None, None);
    assert Chosen(d, c) == {1};
    LateMarkIff(d', {1}, c);
    assert 1 in {1};
  }
}
