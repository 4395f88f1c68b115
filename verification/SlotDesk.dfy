/** Slots, bookings and wallets of one equipment, and the bulk change of slot status with its refunds
    (config/admin_api.py, refund_booking_internal in equipment/api_views.py). */
module SlotDesk {
  import opened Common

  type SlotId = nat
  type BookingId = nat
  type UserId = nat

  datatype SlotStatus =
    | Available | NotAvailable | Booked | Blocked | UnderMaintenance | OperatorAbsent
    | BookingNotUtilized | ScheduledMaintenance | ReservedExternal

  datatype BookingStatus =
    | Pending | PendingPayment | Waitlisted | Confirmed | DisruptionPending | InMaintenance | OtherDisruption | Hold
    | Processing | Completed | Cancelled | Absent | Refunded | NotUtilized

  datatype Slot = Slot(status: SlotStatus, booking: Option<BookingId>,
                       blockedLabel: Option<string>, reference: Option<string>)

  /** `credit` is what a refund of the booking gives back to the wallet. */
  datatype Booking = Booking(status: BookingStatus, user: UserId, credit: nat)

  datatype Desk = Desk(slots: map<SlotId, Slot>, bookings: map<BookingId, Booking>, wallets: map<UserId, int>,
                       maintenance: bool)

  /* ---- Refunds ------------------------------------------------------------------------------------------------- */

  predicate OwnedBy(s: Slot, owners: set<BookingId>) {
    s.booking.Some? && s.booking.value in owners
  }

  /** A slot given back by its booking. */
  function Freed(s: Slot, maintenance: bool): Slot {
    s.(booking := None,
       status := if maintenance then UnderMaintenance
                 else if s.reference.Some? then ReservedExternal else Available)
  }

  function Credit(bookings: map<BookingId, Booking>, b: BookingId, user: UserId): nat {
    if b in bookings && bookings[b].user == user then bookings[b].credit else 0
  }

  ghost function TotalCredit(bookings: map<BookingId, Booking>, owners: set<BookingId>, user: UserId): nat {
    if owners == {} then 0
    else var b :| b in owners; Credit(bookings, b, user) + TotalCredit(bookings, owners - {b}, user)
  }

  lemma {:induction false} TotalCreditRemove(bookings: map<BookingId, Booking>, owners: set<BookingId>, user: UserId,
                                             b: BookingId)
    requires b in owners
    ensures TotalCredit(bookings, owners, user) == Credit(bookings, b, user) + TotalCredit(bookings, owners - {b}, user)
    decreases |owners|
  {
    var x :|
      && x in owners
      && TotalCredit(bookings, owners, user) == Credit(bookings, x, user) + TotalCredit(bookings, owners - {x}, user);
    if x != b {
      TotalCreditRemove(bookings, owners - {x}, user, b);
      TotalCreditRemove(bookings, owners - {b}, user, x);
      assert owners - {x} - {b} == owners - {b} - {x};
    }
  }

  lemma {:induction false} TotalCreditUnion(bookings: map<BookingId, Booking>, a: set<BookingId>, b: set<BookingId>,
                                            user: UserId)
    requires a !! b
    ensures TotalCredit(bookings, a + b, user) == TotalCredit(bookings, a, user) + TotalCredit(bookings, b, user)
    decreases |b|
  {
    if b == {} {
      assert a + b == a;
    } else {
      var x :| x in b;
      TotalCreditUnion(bookings, a, b - {x}, user);
      TotalCreditRemove(bookings, b, user, x);
      TotalCreditRemove(bookings, a + b, user, x);
      assert a + b - {x} == a + (b - {x});
    }
  }

  ghost predicate SameAmounts(a: map<BookingId, Booking>, b: map<BookingId, Booking>, owners: set<BookingId>) {
    forall x <- owners :: x in a && x in b && a[x].user == b[x].user && a[x].credit == b[x].credit
  }

  lemma {:induction false} TotalCreditSame(a: map<BookingId, Booking>, b: map<BookingId, Booking>,
                                           owners: set<BookingId>, user: UserId)
    requires SameAmounts(a, b, owners)
    ensures TotalCredit(a, owners, user) == TotalCredit(b, owners, user)
    decreases |owners|
  {
    if owners != {} {
      var x :| x in owners;
      TotalCreditRemove(a, owners, user, x);
      TotalCreditRemove(b, owners, user, x);
      TotalCreditSame(a, b, owners - {x}, user);
    }
  }

  /** The desk after refunding these bookings, in whatever order: each is REFUNDED, all its slots are given
      back, and its credit is in its user's wallet. */
  ghost function Refund(d: Desk, owners: set<BookingId>): Desk {
    d.(slots := map s | s in d.slots ::
         if OwnedBy(d.slots[s], owners) then Freed(d.slots[s], d.maintenance) else d.slots[s],
       bookings := map b | b in d.bookings :: if b in owners then d.bookings[b].(status := Refunded) else d.bookings[b],
       wallets := map u | u in d.wallets :: d.wallets[u] + TotalCredit(d.bookings, owners, u))
  }

  /** What refund_booking_internal asks of a booking. */
  predicate Refundable(d: Desk, b: BookingId) {
    && b in d.bookings
    && !d.bookings[b].status.Refunded? && !d.bookings[b].status.NotUtilized?
    && d.bookings[b].user in d.wallets
  }

  /** Refunding one set of bookings and then another is refunding both at once. */
  lemma RefundTwice(d: Desk, a: set<BookingId>, b: set<BookingId>)
    requires a !! b && a + b <= d.bookings.Keys
    ensures Refund(Refund(d, a), b) == Refund(d, a + b)
  {
    var d1 := Refund(d, a);
    forall u | u in d.wallets
      ensures Refund(d1, b).wallets[u] == Refund(d, a + b).wallets[u]
    {
      TotalCreditUnion(d.bookings, a, b, u);
      TotalCreditSame(d1.bookings, d.bookings, b, u);
    }
    assert Refund(d1, b).slots == Refund(d, a + b).slots;
    assert Refund(d1, b).bookings == Refund(d, a + b).bookings;
    assert Refund(d1, b).wallets == Refund(d, a + b).wallets;
  }

  lemma RefundNone(d: Desk)
    ensures Refund(d, {}) == d
  {
  }

  /* ---- Bulk change --------------------------------------------------------------------------------------------- */

  datatype Call = Call(ids: set<SlotId>, status: SlotStatus, blockedLabel: Option<string>, reference: Option<string>)

  predicate RefundingStatus(s: SlotStatus) {
    s.Blocked? || s.UnderMaintenance? || s.ScheduledMaintenance?
  }

  predicate SparesBookings(s: SlotStatus) {
    s.NotAvailable? || s.ReservedExternal?
  }

  /** The slots of the call that exist. */
  function Found(d: Desk, c: Call): set<SlotId> {
    set s | s in c.ids && s in d.slots
  }

  /** Those the call will change. */
  function Chosen(d: Desk, c: Call): set<SlotId> {
    set s | s in Found(d, c) &&
      (c.status.BookingNotUtilized? ==> d.slots[s].status.Booked? && d.slots[s].booking.Some?) &&
      (SparesBookings(c.status) ==> d.slots[s].booking.None?)
  }

  /** The bookings, not yet refunded, that own a slot of the set. */
  function OpenOwners(d: Desk, chosen: set<SlotId>): set<BookingId> {
    set s | s in chosen && s in d.slots && d.slots[s].booking.Some? && d.slots[s].booking.value in d.bookings
            && !d.bookings[d.slots[s].booking.value].status.Refunded? :: d.slots[s].booking.value
  }

  function ToRefund(d: Desk, c: Call): set<BookingId> {
    if RefundingStatus(c.status) then OpenOwners(d, Chosen(d, c)) else {}
  }

  function ToDisrupt(d: Desk, c: Call): set<BookingId> {
    if c.status.OperatorAbsent? then OpenOwners(d, Chosen(d, c)) else {}
  }

  /** apply_operator_absent_disruption_for_booking: only confirmed or pending bookings change. */
  function Disrupt(d: Desk, owners: set<BookingId>): Desk {
    d.(bookings := map b | b in d.bookings ::
         if b in owners && (d.bookings[b].status.Confirmed? || d.bookings[b].status.Pending?)
         then d.bookings[b].(status := DisruptionPending) else d.bookings[b])
  }

  function Marked(s: Slot, c: Call): Slot {
    s.(status := c.status, blockedLabel := if c.status.Blocked? then c.blockedLabel else None,
       reference := if c.status.ReservedExternal? then c.reference else None)
  }

  function Mark(d: Desk, chosen: set<SlotId>, c: Call): Desk {
    d.(slots := map s | s in d.slots ::
         if s in chosen then Marked(d.slots[s], c) else d.slots[s])
  }

  function CloseUnused(d: Desk, owners: set<BookingId>): Desk {
    d.(bookings := map b | b in d.bookings ::
         if b in owners then d.bookings[b].(status := NotUtilized) else d.bookings[b])
  }

  function LinkedTo(d: Desk, chosen: set<SlotId>): set<BookingId> {
    set s | s in chosen && s in d.slots && d.slots[s].booking.Some? :: d.slots[s].booking.value
  }

  /** The desk of a call before it closes bookings as not utilized. */
  ghost function Marks(d: Desk, c: Call): Desk {
    Mark(Disrupt(Refund(d, ToRefund(d, c)), ToDisrupt(d, c)), Chosen(d, c), c)
  }

  /** The desk after a call that went through. Under BOOKING_NOT_UTILIZED a booking that cannot be updated is only
      reported in the server's log; these bookings are `unclosed`. */
  ghost function Done(d: Desk, c: Call, unclosed: set<BookingId>): Desk {
    if c.status.BookingNotUtilized? then CloseUnused(Marks(d, c), LinkedTo(d, Chosen(d, c)) - unclosed) else Marks(d, c)
  }

  /** The desk after a call in which nothing failed. */
  ghost function Success(d: Desk, c: Call): Desk {
    Done(d, c, {})
  }

  datatype Response =
    | NoSlotsFound
    | NothingBooked                     // BOOKING_NOT_UTILIZED without a booked slot
    | AllBooked                         // NOT_AVAILABLE / RESERVED_EXTERNAL with booked slots only
    | Preview(affected: set<BookingId>)
    | RefundFailed(booking: BookingId)
    | DisruptionFailed
    | Updated(updated: nat, skipped: nat, unclosed: set<BookingId>)

  /** What one call may do, whatever order the bookings come in and whatever fails on the way. */
  ghost predicate Answers(d: Desk, c: Call, preview: bool, r: Response, d': Desk) {
    match r
    case NoSlotsFound => Found(d, c) == {} && d' == d
    case NothingBooked => Found(d, c) != {} == Chosen(d, c) && c.status.BookingNotUtilized? && d' == d
    case AllBooked => Found(d, c) != {} == Chosen(d, c) && SparesBookings(c.status) && d' == d
    case Preview(affected) => preview && Chosen(d, c) != {} && affected == ToRefund(d, c) + ToDisrupt(d, c) && d' == d
    case RefundFailed(b) =>
      && !preview && b in ToRefund(d, c)
      && exists done :: done < ToRefund(d, c) && b !in done && AllRefundable(d, done) && d' == Refund(d, done)
    case DisruptionFailed =>
      !preview && exists done :: done < ToDisrupt(d, c) && d' == Disrupt(d, done)
    case Updated(updated, skipped, unclosed) =>
      && !preview && Chosen(d, c) != {} && d' == Done(d, c, unclosed) && AllRefundable(d, ToRefund(d, c))
      && unclosed <= LinkedTo(d, Chosen(d, c)) && (unclosed != {} ==> c.status.BookingNotUtilized?)
      && updated == |Chosen(d, c)|
      && (SparesBookings(c.status) ==> updated + skipped == |Found(d, c)|)
      && (!SparesBookings(c.status) ==> skipped == 0)
  }

  ghost predicate AllRefundable(d: Desk, owners: set<BookingId>) {
    forall b <- owners :: Refundable(d, b)
  }

  /* ---- The method ---------------------------------------------------------------------------------------------- */

  lemma TotalCreditOne(bookings: map<BookingId, Booking>, b: BookingId, user: UserId)
    ensures TotalCredit(bookings, {b}, user) == Credit(bookings, b, user)
  {
    TotalCreditRemove(bookings, {b}, user, b);
    assert {b} - {b} == {};
  }

  lemma RefundMore(d: Desk, done: set<BookingId>, b: BookingId)
    requires done + {b} <= d.bookings.Keys && b !in done
    ensures Refund(Refund(d, done), {b}) == Refund(d, done + {b})
    ensures Refundable(Refund(d, done), b) <==> Refundable(d, b)
  {
    RefundTwice(d, done, {b});
  }

  lemma DisruptMore(d: Desk, done: set<BookingId>, b: BookingId)
    ensures Disrupt(Disrupt(d, done), {b}) == Disrupt(d, done + {b})
  {
    assert Disrupt(Disrupt(d, done), {b}).bookings == Disrupt(d, done + {b}).bookings;
  }

  lemma DisruptNone(d: Desk)
    ensures Disrupt(d, {}) == d
  {
    assert Disrupt(d, {}).bookings == d.bookings;
  }

  class SlotOffice {
    var slots: map<SlotId, Slot>
    var bookings: map<BookingId, Booking>
    var wallets: map<UserId, int>
    var maintenance: bool

    function State(): Desk
      reads this
    {
      Desk(slots, bookings, wallets, maintenance)
    }

    /** refund_booking_internal; `failing` are the bookings whose refund the gateway or the wallet refuses. */
    method RefundBooking(b: BookingId, failing: set<BookingId>) returns (ok: bool)
      modifies this
      ensures ok <==> Refundable(old(State()), b) && b !in failing
      ensures State() == if ok then Refund(old(State()), {b}) else old(State())
      ensures ok <==>
                && b in old(bookings) && old(bookings)[b].status !in {Refunded, NotUtilized}
                && old(bookings)[b].user in old(wallets) && b !in failing
      ensures ok ==>
                && bookings == old(bookings)[b := old(bookings)[b].(status := Refunded)]
                && wallets == old(wallets)[old(bookings)[b].user :=
                     old(wallets)[old(bookings)[b].user] + old(bookings)[b].credit]
      ensures ok ==>
                && slots.Keys == old(slots).Keys
                && forall s <- slots.Keys ::
                     slots[s] == if old(slots)[s].booking != Some(b) then old(slots)[s]
                                 else old(slots)[s].(booking := None, status :=
                                   if maintenance then UnderMaintenance
                                   else if old(slots)[s].reference.Some? then ReservedExternal else Available)
    {
      if b !in bookings || bookings[b].status.Refunded? || bookings[b].status.NotUtilized? {
        return false;
      }
      var user := bookings[b].user;
      if user !in wallets || b in failing {
        return false;
      }
      forall u
        ensures TotalCredit(bookings, {b}, u) == Credit(bookings, b, u)
      {
        TotalCreditOne(bookings, b, u);
      }
      ghost var after := Refund(State(), {b});
      slots := map s | s in slots :: if slots[s].booking == Some(b) then Freed(slots[s], maintenance) else slots[s];
      wallets := wallets[user := wallets[user] + bookings[b].credit];
      bookings := bookings[b := bookings[b].(status := Refunded)];
      assert slots == after.slots;
      assert bookings == after.bookings;
      assert wallets == after.wallets;
      return true;
    }

    method RefundAll(owners: set<BookingId>, failing: set<BookingId>)
      returns (failed: Option<BookingId>, done: set<BookingId>)
      requires owners <= bookings.Keys
      modifies this
      ensures done <= owners && AllRefundable(old(State()), done) && State() == Refund(old(State()), done)
      ensures failed.None? ==> done == owners
      ensures failed.Some? ==>
                failed.value in owners - done && (failed.value in failing || !Refundable(old(State()), failed.value))
    {
      ghost var before := State();
      var todo := owners;
      done := {};
      RefundNone(before);
      while todo != {}
        invariant todo <= owners && done == owners - todo
        invariant AllRefundable(before, done) && State() == Refund(before, done)
        decreases todo
      {
        var b :| b in todo;
        RefundMore(before, done, b);
        var ok := RefundBooking(b, failing);
        if !ok {
          return Some(b), done;
        }
        todo, done := todo - {b}, done + {b};
      }
      return None, done;
    }

    method DisruptAll(owners: set<BookingId>, failing: set<BookingId>) returns (ok: bool, done: set<BookingId>)
      requires owners <= bookings.Keys
      modifies this`bookings
      ensures State() == Disrupt(old(State()), done)
      ensures if ok then done == owners else done < owners && failing * owners != {}
    {
      var todo := owners;
      done := {};
      DisruptNone(State());
      while todo != {}
        invariant todo <= owners && done == owners - todo && bookings.Keys == old(bookings.Keys)
        invariant State() == Disrupt(old(State()), done)
        decreases todo
      {
        var b :| b in todo;
        if b in failing {
          return false, done;
        }
        DisruptMore(old(State()), done, b);
        if bookings[b].status.Confirmed? || bookings[b].status.Pending? {
          bookings := bookings[b := bookings[b].(status := DisruptionPending)];
        }
        assert State() == Disrupt(old(State()), done + {b}) by {
          assert bookings == Disrupt(Disrupt(old(State()), done), {b}).bookings;
        }
        todo, done := todo - {b}, done + {b};
      }
      return true, done;
    }

    /** The update of the slot rows. */
    method MarkSlots(chosen: set<SlotId>, c: Call)
      modifies this`slots
      ensures State() == Mark(old(State()), chosen, c)
    {
      slots := map s | s in slots :: if s in chosen then Marked(slots[s], c) else slots[s];
    }

    method CloseBookings(unused: set<BookingId>)
      modifies this`bookings
      ensures State() == CloseUnused(old(State()), unused)
    {
      bookings := map b | b in bookings :: if b in unused then bookings[b].(status := NotUtilized) else bookings[b];
    }

    /** Refunds or disruptions, then the slots, then the bookings closed as not utilized. */
    method Change(c: Call, skipped: nat, failing: set<BookingId>) returns (r: Response)
      modifies this
      ensures
        var d := old(State());
        match r
        case RefundFailed(b) =>
          && b in ToRefund(d, c) && (b in failing || !Refundable(d, b))
          && exists done :: done < ToRefund(d, c) && b !in done && AllRefundable(d, done) && State() == Refund(d, done)
        case DisruptionFailed => failing != {} && exists done :: done < ToDisrupt(d, c) && State() == Disrupt(d, done)
        case Updated(n, k, unclosed) =>
          && n == |Chosen(d, c)| && k == skipped && State() == Done(d, c, unclosed) && AllRefundable(d, ToRefund(d, c))
          && unclosed == if c.status.BookingNotUtilized? then LinkedTo(d, Chosen(d, c)) * failing else {}
        case _ => false
    {
      ghost var before := State();
      var chosen, toDisrupt := Chosen(State(), c), ToDisrupt(State(), c);
      var unused := if c.status.BookingNotUtilized? then LinkedTo(State(), chosen) else {};
      var failed, done := RefundAll(ToRefund(State(), c), failing);
      if failed.Some? {
        return RefundFailed(failed.value);
      }
      ghost var middle := State();
      var ok, disrupted := DisruptAll(toDisrupt, failing);
      if !ok {
        RefundNone(before);
        assert middle == before;
        return DisruptionFailed;
      }
      MarkSlots(chosen, c);
      var unclosed := unused * failing;
      if c.status.BookingNotUtilized? {
        assert unused - unclosed == unused - failing;
        CloseBookings(unused - unclosed);
      }
      return Updated(|chosen|, skipped, unclosed);
    }

    method BulkSlotStatus(c: Call, preview: bool, failing: set<BookingId>) returns (r: Response)
      modifies this
      ensures Answers(old(State()), c, preview, r, State())
      ensures r.RefundFailed? ==> r.booking in failing || !Refundable(old(State()), r.booking)
      ensures r.DisruptionFailed? ==> failing != {}
      ensures r.Updated? ==> r.unclosed <= failing
      ensures !preview && Chosen(old(State()), c) != {} ==> r.RefundFailed? || r.DisruptionFailed? || r.Updated?
    {
      var found, chosen := Found(State(), c), Chosen(State(), c);
      if found == {} {
        return NoSlotsFound;
      }
      assert !c.status.BookingNotUtilized? && !SparesBookings(c.status) ==> chosen == found;
      if chosen == {} {
        return if c.status.BookingNotUtilized? then NothingBooked else AllBooked;
      }
      assert found == chosen + (found - chosen);
      if preview {
        return Preview(ToRefund(State(), c) + ToDisrupt(State(), c));
      }
      r := Change(c, if SparesBookings(c.status) then |found| - |chosen| else 0, failing);
    }
  }

  /* ---- What every run keeps ------------------------------------------------------------------------------------ */

  predicate Closed(s: SlotStatus) {
    s.Blocked? || s.UnderMaintenance? || s.ScheduledMaintenance?
  }

  /** Links point to bookings, refunded bookings own no slot, and no closed slot is linked to a booking. */
  ghost predicate Inv(d: Desk) {
    forall s :: s in d.slots && d.slots[s].booking.Some? ==>
      && d.slots[s].booking.value in d.bookings
      && !d.bookings[d.slots[s].booking.value].status.Refunded?
      && !Closed(d.slots[s].status)
  }

  function RefundedIn(d: Desk): set<BookingId> {
    set b | b in d.bookings && d.bookings[b].status.Refunded?
  }

  /** From d to d': refunds are never taken back, amounts never change, and every wallet moves by the credits of
      the bookings that became refunded, each once. */
  ghost predicate MoneyMoves(d: Desk, d': Desk) {
    && d.bookings.Keys <= d'.bookings.Keys
    && SameAmounts(d.bookings, d'.bookings, d.bookings.Keys)
    && RefundedIn(d) <= RefundedIn(d')
    && d'.wallets.Keys == d.wallets.Keys
    && forall u <- d.wallets.Keys ::
         d'.wallets[u] == d.wallets[u] + TotalCredit(d'.bookings, RefundedIn(d') - RefundedIn(d), u)
  }

  predicate IsFree(s: Slot) {
    s.booking.None? && (s.status.Available? || s.status.ReservedExternal?)
  }

  /** A slot taken by a booking. Taken out of RESERVED_EXTERNAL it keeps its reference, or an empty one; otherwise it
      has none. */
  function Taken(s: Slot, b: BookingId): Slot {
    s.(status := Booked, booking := Some(b),
       reference := if !s.status.ReservedExternal? then None
                    else if s.reference.Some? then s.reference else Some(""))
  }

  /** A new booking takes free slots. */
  predicate BooksSlots(d: Desk, b: BookingId, booking: Booking, taken: set<SlotId>, d': Desk) {
    && b !in d.bookings && !booking.status.Refunded?
    && (forall s <- taken :: s in d.slots && IsFree(d.slots[s]))
    && d' == d.(bookings := d.bookings[b := booking],
                slots := map s | s in d.slots :: if s in taken then Taken(d.slots[s], b) else d.slots[s])
  }

  /** Slots can be booked exactly when each of them is available or reserved, and has no booking. */
  lemma BookableIff(d: Desk, b: BookingId, booking: Booking, taken: set<SlotId>)
    requires b !in d.bookings && booking.status != Refunded
    ensures
      (exists d' :: BooksSlots(d, b, booking, taken, d')) <==>
        forall s :: s in taken ==>
          s in d.slots && d.slots[s].booking.None? && d.slots[s].status in {Available, ReservedExternal}
  {
    var slots := map s | s in d.slots :: if s in taken then Taken(d.slots[s], b) else d.slots[s];
    var d' := d.(bookings := d.bookings[b := booking], slots := slots);
    assert BooksSlots(d, b, booking, taken, d') <==> forall s <- taken :: s in d.slots && IsFree(d.slots[s]);
  }

  /** A booking that is not refunded moves on, but not to REFUNDED. */
  predicate MovesOn(d: Desk, b: BookingId, status: BookingStatus, d': Desk) {
    && b in d.bookings && !d.bookings[b].status.Refunded? && !status.Refunded?
    && d' == d.(bookings := d.bookings[b := d.bookings[b].(status := status)])
  }

  ghost predicate Next(d: Desk, d': Desk) {
    || (exists c, preview, r :: Answers(d, c, preview, r, d'))
    || (exists b, booking, taken :: BooksSlots(d, b, booking, taken, d'))
    || (exists b, status :: MovesOn(d, b, status, d'))
  }

  lemma NothingRefunded(d: Desk, d': Desk)
    requires d.bookings.Keys <= d'.bookings.Keys && SameAmounts(d.bookings, d'.bookings, d.bookings.Keys)
    requires RefundedIn(d') == RefundedIn(d) && d'.wallets == d.wallets
    ensures MoneyMoves(d, d')
  {
    assert RefundedIn(d') - RefundedIn(d) == {};
  }

  lemma RefundKeeps(d: Desk, owners: set<BookingId>)
    requires Inv(d) && AllRefundable(d, owners)
    ensures Inv(Refund(d, owners)) && MoneyMoves(d, Refund(d, owners))
  {
    var d' := Refund(d, owners);
    assert RefundedIn(d') - RefundedIn(d) == owners;
    forall u | u in d.wallets.Keys
      ensures d'.wallets[u] == d.wallets[u] + TotalCredit(d'.bookings, owners, u)
    {
      TotalCreditSame(d.bookings, d'.bookings, owners, u);
    }
  }

  lemma MoneyThrough(d: Desk, d1: Desk, d2: Desk)
    requires MoneyMoves(d, d1) && MoneyMoves(d1, d2)
    ensures MoneyMoves(d, d2)
  {
    var r0, r1, r2 := RefundedIn(d), RefundedIn(d1), RefundedIn(d2);
    forall u | u in d.wallets.Keys
      ensures d2.wallets[u] == d.wallets[u] + TotalCredit(d2.bookings, r2 - r0, u)
    {
      assert r2 - r0 == (r1 - r0) + (r2 - r1);
      TotalCreditUnion(d2.bookings, r1 - r0, r2 - r1, u);
      TotalCreditSame(d1.bookings, d2.bookings, r1 - r0, u);
    }
  }

  lemma DisruptKeeps(d: Desk, owners: set<BookingId>)
    requires Inv(d)
    ensures Inv(Disrupt(d, owners)) && MoneyMoves(d, Disrupt(d, owners))
  {
    NothingRefunded(d, Disrupt(d, owners));
  }

  /** After the refunds of a call to a closed status, none of its slots is linked. */
  lemma ChosenFreed(d: Desk, c: Call, s: SlotId)
    requires Inv(d) && RefundingStatus(c.status) && s in Chosen(d, c)
    ensures Refund(d, ToRefund(d, c)).slots[s].booking.None?
  {
  }

  lemma MarkKeeps(d: Desk, chosen: set<SlotId>, c: Call)
    requires Inv(d)
    requires Closed(c.status) ==> forall s :: s in chosen && s in d.slots ==> d.slots[s].booking.None?
    ensures Inv(Mark(d, chosen, c)) && MoneyMoves(d, Mark(d, chosen, c))
  {
    NothingRefunded(d, Mark(d, chosen, c));
  }

  lemma CloseUnusedKeeps(d: Desk, chosen: set<SlotId>, unclosed: set<BookingId>)
    requires Inv(d)
    ensures
      var d' := CloseUnused(d, LinkedTo(d, chosen) - unclosed);
      Inv(d') && MoneyMoves(d, d')
  {
    NothingRefunded(d, CloseUnused(d, LinkedTo(d, chosen) - unclosed));
  }

  lemma MarksKeep(d: Desk, c: Call)
    requires Inv(d) && AllRefundable(d, ToRefund(d, c))
    ensures Inv(Marks(d, c)) && MoneyMoves(d, Marks(d, c))
  {
    hide Inv, MoneyMoves, Refund, Chosen, ToRefund, ToDisrupt;
    var chosen := Chosen(d, c);
    var d1 := Refund(d, ToRefund(d, c));
    var d2 := Disrupt(d1, ToDisrupt(d, c));
    var d3 := Mark(d2, chosen, c);
    RefundKeeps(d, ToRefund(d, c));
    DisruptKeeps(d1, ToDisrupt(d, c));
    MoneyThrough(d, d1, d2);
    forall s | s in chosen && s in d2.slots && Closed(c.status)
      ensures d2.slots[s].booking.None?
    {
      ChosenFreed(d, c, s);
    }
    MarkKeeps(d2, chosen, c);
    MoneyThrough(d, d2, d3);
  }

  lemma DoneKeeps(d: Desk, c: Call, unclosed: set<BookingId>)
    requires Inv(d) && AllRefundable(d, ToRefund(d, c))
    ensures Inv(Done(d, c, unclosed)) && MoneyMoves(d, Done(d, c, unclosed))
  {
    var chosen, d3 := Chosen(d, c), Marks(d, c);
    MarksKeep(d, c);
    if c.status.BookingNotUtilized? {
      RefundNone(d);
      DisruptNone(d);
      assert LinkedTo(d, chosen) == LinkedTo(d3, chosen);
      CloseUnusedKeeps(d3, chosen, unclosed);
      MoneyThrough(d, d3, Done(d, c, unclosed));
    }
  }

  lemma BulkKeeps(d: Desk, c: Call, preview: bool, r: Response, d': Desk)
    requires Inv(d) && Answers(d, c, preview, r, d')
    ensures Inv(d') && MoneyMoves(d, d')
  {
    match r
    case RefundFailed(b) =>
      var done :| done < ToRefund(d, c) && b !in done && AllRefundable(d, done) && d' == Refund(d, done);
      RefundKeeps(d, done);
    case DisruptionFailed =>
      var done :| done < ToDisrupt(d, c) && d' == Disrupt(d, done);
      DisruptKeeps(d, done);
    case Updated(_, _, unclosed) => DoneKeeps(d, c, unclosed);
    case _ => NothingRefunded(d, d');
  }

  lemma BookingKeeps(d: Desk, b: BookingId, booking: Booking, taken: set<SlotId>, d': Desk)
    requires Inv(d) && BooksSlots(d, b, booking, taken, d')
    ensures Inv(d') && MoneyMoves(d, d')
  {
    NothingRefunded(d, d');
  }

  lemma StepKeeps(d: Desk, d': Desk)
    requires Inv(d) && Next(d, d')
    ensures Inv(d') && MoneyMoves(d, d')
  {
    if c, preview, r :| Answers(d, c, preview, r, d') {
      BulkKeeps(d, c, preview, r, d');
    } else if b, booking, taken :| BooksSlots(d, b, booking, taken, d') {
      BookingKeeps(d, b, booking, taken, d');
    } else {
      var b, status :| MovesOn(d, b, status, d');
    }
  }

  ghost predicate IsRun(ds: seq<Desk>) {
    ds != [] && Inv(ds[0]) && forall i :: 0 <= i < |ds| - 1 ==> Next(ds[i], ds[i + 1])
  }

  /** Over any run of bookings, progress and bulk changes, failed ones included: no slot that is BLOCKED,
      UNDER_MAINTENANCE or SCHEDULED_MAINTENANCE is linked to a booking, and each booking is refunded at most
      once: the wallets have moved by exactly the credits of the bookings refunded since the start. */
  lemma {:induction false} RunKeeps(ds: seq<Desk>)
    requires IsRun(ds)
    ensures Inv(ds[|ds| - 1]) && MoneyMoves(ds[0], ds[|ds| - 1])
  {
    var n := |ds| - 1;
    if n == 0 {
      NothingRefunded(ds[0], ds[0]);
    } else {
      RunKeeps(ds[..n]);
      StepKeeps(ds[n - 1], ds[n]);
      MoneyThrough(ds[0], ds[n - 1], ds[n]);
    }
  }

  /* ---- Single calls -------------------------------------------------------------------------------------------- */

  // What the answers of BulkSlotStatus mean for a slot, a booking or a wallet: the first five lemmas are corollaries of
  // its contract.

  /** NOT_AVAILABLE and RESERVED_EXTERNAL leave every booked slot, every booking and every wallet as they were. */
  lemma BookedSlotsSpared(d: Desk, c: Call, r: Response, d': Desk, s: SlotId)
    requires c.status in {NotAvailable, ReservedExternal} && Answers(d, c, false, r, d')
    requires s in d.slots && d.slots[s].booking.Some?
    ensures d'.slots.Keys == d.slots.Keys && d'.slots[s] == d.slots[s]
    ensures d'.bookings == d.bookings && d'.wallets == d.wallets
  {
    RefundNone(d);
    DisruptNone(d);
  }

  /** OPERATOR_ABSENT refunds nothing, and takes no slot from its booking. */
  lemma OperatorAbsentRefundsNothing(d: Desk, c: Call, r: Response, d': Desk)
    requires c.status.OperatorAbsent? && Answers(d, c, false, r, d')
    ensures d'.wallets == d.wallets && RefundedIn(d') == RefundedIn(d)
    ensures d'.slots.Keys == d.slots.Keys && forall s <- d.slots.Keys :: d'.slots[s].booking == d.slots[s].booking
  {
    RefundNone(d);
  }

  /** Which slots a call changes: those asked for, less booked ones where bookings are spared, and less those without a
      booking where bookings are closed. */
  lemma ChosenIff(d: Desk, c: Call, s: SlotId)
    ensures s in Chosen(d, c) <==>
              && s in c.ids && s in d.slots
              && (c.status in {NotAvailable, ReservedExternal} ==> d.slots[s].booking.None?)
              && (c.status == BookingNotUtilized ==> d.slots[s].status == Booked && d.slots[s].booking.Some?)
  {
  }

  /** Which bookings it refunds: those not yet refunded that own one of these slots, when the slots are closed. */
  lemma ToRefundIff(d: Desk, c: Call, b: BookingId)
    ensures b in ToRefund(d, c) <==>
              && c.status in {Blocked, UnderMaintenance, ScheduledMaintenance}
              && b in d.bookings && d.bookings[b].status != Refunded
              && exists s :: s in c.ids && s in d.slots && d.slots[s].booking == Some(b)
  {
    if s :| s in c.ids && s in d.slots && d.slots[s].booking == Some(b) {
      ChosenIff(d, c, s);
    }
  }

  /** What a call that went through did to a slot: a chosen slot has the new status, the label if it is blocked, the
      reference if it is reserved, and its booking unless that was refunded; any other slot is as before, unless a
      refunded booking gave it back. */
  lemma UpdatedSlot(d: Desk, c: Call, r: Response, d': Desk, s: SlotId)
    requires Answers(d, c, false, r, d') && r.Updated? && s in d.slots
    ensures s in d'.slots
    ensures
      var was, now := d.slots[s], d'.slots[s];
      var refunded := was.booking.Some? && was.booking.value in ToRefund(d, c);
      && now.booking == (if refunded then None else was.booking)
      && (s in Chosen(d, c) ==>
            && now.status == c.status
            && now.blockedLabel == (if c.status == Blocked then c.blockedLabel else None)
            && now.reference == (if c.status == ReservedExternal then c.reference else None))
      && (s !in Chosen(d, c) && !refunded ==> now == was)
      && (s !in Chosen(d, c) && refunded ==>
            now == was.(booking := None, status :=
              if d.maintenance then UnderMaintenance
              else if was.reference.Some? then ReservedExternal else Available))
  {
  }

  /** And to a booking: it is refunded, left for the user to choose, closed, or as before. */
  lemma UpdatedBooking(d: Desk, c: Call, r: Response, d': Desk, b: BookingId)
    requires Answers(d, c, false, r, d') && r.Updated? && b in d.bookings
    ensures b in d'.bookings
    ensures
      var status := d.bookings[b].status;
      var owns := exists s :: s in Chosen(d, c) && d.slots[s].booking == Some(b);
      d'.bookings[b].status ==
        if c.status in {Blocked, UnderMaintenance, ScheduledMaintenance} && owns then Refunded
        else if c.status == OperatorAbsent && owns && status in {Confirmed, Pending} then DisruptionPending
        else if c.status == BookingNotUtilized && owns && b !in r.unclosed then NotUtilized
        else status
    ensures d'.bookings[b] == d.bookings[b].(status := d'.bookings[b].status)
  {
  }

  /** A preview names exactly the bookings that the call would refund or leave to their users' choice. */
  lemma PreviewIff(d: Desk, c: Call, r: Response, d': Desk, b: BookingId)
    requires Answers(d, c, true, r, d') && r.Preview?
    ensures d' == d
    ensures b in r.affected <==>
              && c.status in {Blocked, UnderMaintenance, ScheduledMaintenance, OperatorAbsent}
              && b in d.bookings && d.bookings[b].status != Refunded
              && exists s :: s in c.ids && s in d.slots && d.slots[s].booking == Some(b)
  {
    if s :| s in c.ids && s in d.slots && d.slots[s].booking == Some(b) {
      ChosenIff(d, c, s);
    }
  }

  /** A call can go through exactly when it has a slot to change and every booking it would refund can be
      refunded. One slot of a booking already closed as not utilized makes the call fail every time. */
  lemma CanSucceedIff(d: Desk, c: Call)
    ensures (exists r: Response, d' :: r.Updated? && Answers(d, c, false, r, d'))
       <==> Chosen(d, c) != {} && AllRefundable(d, ToRefund(d, c))
  {
    if Chosen(d, c) != {} && AllRefundable(d, ToRefund(d, c)) {
      assert Found(d, c) == Chosen(d, c) + (Found(d, c) - Chosen(d, c));
      var r := Updated(|Chosen(d, c)|, if SparesBookings(c.status) then |Found(d, c)| - |Chosen(d, c)| else 0, {});
      assert r.Updated? && Answers(d, c, false, r, Success(d, c));
    }
  }

  lemma NotUtilizedBlocksRefund(d: Desk, c: Call, s: SlotId, r: Response, d': Desk)
    requires c.status in {Blocked, UnderMaintenance, ScheduledMaintenance}
    requires s in Chosen(d, c) && Answers(d, c, false, r, d')
    requires d.slots[s].booking.Some? && d.slots[s].booking.value in d.bookings
    requires d.bookings[d.slots[s].booking.value].status.NotUtilized?
    ensures !r.Updated?
  {
    assert d.slots[s].booking.value in ToRefund(d, c);
  }

  /* ---- Repeating a failed call --------------------------------------------------------------------------------- */

  /** What a failed call leaves to refund is what it was asked to refund, less what it did refund. */
  lemma LeftToRefund(d: Desk, c: Call, done: set<BookingId>)
    requires Inv(d) && RefundingStatus(c.status) && done <= ToRefund(d, c)
    ensures Chosen(Refund(d, done), c) == Chosen(d, c)
    ensures ToRefund(Refund(d, done), c) == ToRefund(d, c) - done
  {
  }

  lemma RestOfRefunds(d: Desk, c: Call, done: set<BookingId>)
    requires Inv(d) && RefundingStatus(c.status) && done <= ToRefund(d, c)
    ensures var d1 := Refund(d, done);
            Refund(d1, ToRefund(d1, c)) == Refund(d, ToRefund(d, c))
  {
    LeftToRefund(d, c, done);
    RefundTwice(d, done, ToRefund(d, c) - done);
    assert done + (ToRefund(d, c) - done) == ToRefund(d, c);
  }

  lemma RestRefundable(d: Desk, c: Call, done: set<BookingId>)
    requires Inv(d) && RefundingStatus(c.status) && done <= ToRefund(d, c) && AllRefundable(d, ToRefund(d, c))
    ensures var d1 := Refund(d, done); AllRefundable(d1, ToRefund(d1, c))
  {
    LeftToRefund(d, c, done);
  }

  /** A refunding call that goes through is its refunds, and then the marking of its slots. */
  lemma SuccessOfRefunds(d: Desk, c: Call)
    requires RefundingStatus(c.status)
    ensures Success(d, c) == Mark(Refund(d, ToRefund(d, c)), Chosen(d, c), c)
  {
    DisruptNone(Refund(d, ToRefund(d, c)));
  }

  lemma AfterSomeRefunds(d: Desk, c: Call, done: set<BookingId>)
    requires Inv(d) && RefundingStatus(c.status) && done <= ToRefund(d, c)
    ensures Success(Refund(d, done), c) == Success(d, c)
  {
    LeftToRefund(d, c, done);
    RestOfRefunds(d, c, done);
    SuccessOfRefunds(d, c);
    SuccessOfRefunds(Refund(d, done), c);
  }

  /** What a call that aborted on a refund has done. */
  lemma AbortedCall(d: Desk, c: Call, r: Response, d1: Desk) returns (done: set<BookingId>)
    requires Answers(d, c, false, r, d1) && r.RefundFailed?
    ensures done <= ToRefund(d, c) && r.booking in ToRefund(d, c) - done
    ensures AllRefundable(d, done) && d1 == Refund(d, done)
  {
    done :| done < ToRefund(d, c) && r.booking !in done && AllRefundable(d, done) && d1 == Refund(d, done);
  }

  /** Repeating a call that aborted on a failed refund refunds exactly the bookings still outstanding: once it
      goes through, slots, bookings and wallets are as if it had gone through the first time. */
  lemma RetryEqualsOneCall(d: Desk, c: Call, r: Response, d1: Desk)
    requires Inv(d) && RefundingStatus(c.status) && Answers(d, c, false, r, d1) && r.RefundFailed?
    requires AllRefundable(d, ToRefund(d, c))
    ensures Success(d1, c) == Success(d, c)
    ensures Inv(d1) && AllRefundable(d1, ToRefund(d1, c))
    ensures r.booking in ToRefund(d1, c) && ToRefund(d1, c) <= ToRefund(d, c)
  {
    var done := AbortedCall(d, c, r, d1);
    RefundKeeps(d, done);
    LeftToRefund(d, c, done);
    RestRefundable(d, c, done);
    AfterSomeRefunds(d, c, done);
  }

  /* ---- Attempts with other steps between ----------------------------------------------------------------------- */

  /** A new booking outside the selection, or progress of a booking the call has not to refund. */
  ghost predicate Outside(d: Desk, c: Call, d': Desk) {
    || (exists b, booking, taken :: taken !! c.ids && BooksSlots(d, b, booking, taken, d'))
    || (exists b, status :: b !in ToRefund(d, c) && MovesOn(d, b, status, d'))
  }

  /** The step from d to d' is taken from e to e'. */
  ghost predicate SameStep(d: Desk, d': Desk, e: Desk, e': Desk) {
    || (exists b, booking, taken :: BooksSlots(d, b, booking, taken, d') && BooksSlots(e, b, booking, taken, e'))
    || (exists b, status :: MovesOn(d, b, status, d') && MovesOn(e, b, status, e'))
  }

  lemma BookingLeaves(d: Desk, c: Call, b: BookingId, booking: Booking, taken: set<SlotId>, d': Desk)
    requires Inv(d) && RefundingStatus(c.status) && AllRefundable(d, ToRefund(d, c))
    requires taken !! c.ids && BooksSlots(d, b, booking, taken, d')
    ensures ToRefund(d', c) == ToRefund(d, c) && Chosen(d', c) == Chosen(d, c) && AllRefundable(d', ToRefund(d', c))
  {
    assert d'.slots.Keys == d.slots.Keys;
    assert Chosen(d', c) == Chosen(d, c);
  }

  lemma SlotsThenRefund(d: Desk, b: BookingId, taken: set<SlotId>, d': Desk, owners: set<BookingId>)
    requires b !in owners && d'.maintenance == d.maintenance && forall s <- taken :: s in d.slots && IsFree(d.slots[s])
    requires d'.slots == map s | s in d.slots :: if s in taken then Taken(d.slots[s], b) else d.slots[s]
    ensures var e, e' := Refund(d, owners).slots, Refund(d', owners).slots;
            && (forall s <- taken :: s in e && IsFree(e[s]))
            && e' == map s | s in e :: if s in taken then Taken(e[s], b) else e[s]
  {
  }

  /** A booking that owns none of these slots yet does not matter to the refund of others. */
  lemma BookThenRefund(d: Desk, b: BookingId, booking: Booking, taken: set<SlotId>, d': Desk, owners: set<BookingId>)
    requires BooksSlots(d, b, booking, taken, d') && owners <= d.bookings.Keys
    ensures BooksSlots(Refund(d, owners), b, booking, taken, Refund(d', owners))
  {
    SameCredits(d, d', owners);
    SlotsThenRefund(d, b, taken, d', owners);
    assert Refund(d', owners).bookings == Refund(d, owners).bookings[b := booking];
  }

  lemma BookThenMark(d: Desk, b: BookingId, booking: Booking, taken: set<SlotId>, d': Desk,
                     chosen: set<SlotId>, c: Call)
    requires BooksSlots(d, b, booking, taken, d') && taken !! chosen
    ensures BooksSlots(Mark(d, chosen, c), b, booking, taken, Mark(d', chosen, c))
  {
    var e, e' := Mark(d, chosen, c), Mark(d', chosen, c);
    assert e'.slots == map s | s in e.slots :: if s in taken then Taken(e.slots[s], b) else e.slots[s];
  }

  lemma BookingCommutes(d: Desk, c: Call, b: BookingId, booking: Booking, taken: set<SlotId>, d': Desk)
    requires Inv(d) && RefundingStatus(c.status) && AllRefundable(d, ToRefund(d, c))
    requires taken !! c.ids && BooksSlots(d, b, booking, taken, d')
    ensures ToRefund(d', c) == ToRefund(d, c) && AllRefundable(d', ToRefund(d', c))
    ensures BooksSlots(Success(d, c), b, booking, taken, Success(d', c))
  {
    BookingLeaves(d, c, b, booking, taken, d');
    SuccessOfRefunds(d, c);
    SuccessOfRefunds(d', c);
    BookThenRefund(d, b, booking, taken, d', ToRefund(d, c));
    BookThenMark(Refund(d, ToRefund(d, c)), b, booking, taken, Refund(d', ToRefund(d, c)), Chosen(d, c), c);
  }

  lemma SameCredits(d: Desk, d': Desk, owners: set<BookingId>)
    requires SameAmounts(d.bookings, d'.bookings, owners) && d'.wallets == d.wallets
    ensures Refund(d', owners).wallets == Refund(d, owners).wallets
  {
    forall u | u in d.wallets
      ensures TotalCredit(d'.bookings, owners, u) == TotalCredit(d.bookings, owners, u)
    {
      TotalCreditSame(d.bookings, d'.bookings, owners, u);
    }
  }

  lemma ProgressLeaves(d: Desk, c: Call, b: BookingId, status: BookingStatus, d': Desk)
    requires Inv(d) && RefundingStatus(c.status) && AllRefundable(d, ToRefund(d, c))
    requires b !in ToRefund(d, c) && MovesOn(d, b, status, d')
    ensures ToRefund(d', c) == ToRefund(d, c) && Chosen(d', c) == Chosen(d, c) && AllRefundable(d', ToRefund(d', c))
  {
    assert Chosen(d', c) == Chosen(d, c);
  }

  lemma ProgressThenRefund(d: Desk, b: BookingId, status: BookingStatus, d': Desk, owners: set<BookingId>)
    requires MovesOn(d, b, status, d') && b !in owners && owners <= d.bookings.Keys
    ensures MovesOn(Refund(d, owners), b, status, Refund(d', owners))
  {
    var e, e' := Refund(d, owners), Refund(d', owners);
    SameCredits(d, d', owners);
    assert e'.slots == e.slots;
    assert e'.bookings == e.bookings[b := e.bookings[b].(status := status)];
  }

  lemma ProgressCommutes(d: Desk, c: Call, b: BookingId, status: BookingStatus, d': Desk)
    requires Inv(d) && RefundingStatus(c.status) && AllRefundable(d, ToRefund(d, c))
    requires b !in ToRefund(d, c) && MovesOn(d, b, status, d')
    ensures ToRefund(d', c) == ToRefund(d, c) && AllRefundable(d', ToRefund(d', c))
    ensures MovesOn(Success(d, c), b, status, Success(d', c))
  {
    ProgressLeaves(d, c, b, status, d');
    SuccessOfRefunds(d, c);
    SuccessOfRefunds(d', c);
    ProgressThenRefund(d, b, status, d', ToRefund(d, c));
  }

  lemma OutsideCommutes(d: Desk, c: Call, d': Desk)
    requires Inv(d) && RefundingStatus(c.status) && AllRefundable(d, ToRefund(d, c)) && Outside(d, c, d')
    ensures Inv(d') && AllRefundable(d', ToRefund(d', c)) && ToRefund(d', c) == ToRefund(d, c)
    ensures SameStep(d, d', Success(d, c), Success(d', c))
  {
    if b, booking, taken :| taken !! c.ids && BooksSlots(d, b, booking, taken, d') {
      BookingKeeps(d, b, booking, taken, d');
      BookingCommutes(d, c, b, booking, taken, d');
    } else {
      var b, status :| b !in ToRefund(d, c) && MovesOn(d, b, status, d');
      ProgressCommutes(d, c, b, status, d');
    }
  }

  /** Attempts at one call that abort on a refund, with other steps between them. */
  ghost predicate IsRetrying(ds: seq<Desk>, c: Call) {
    && ds != []
    && forall i :: 0 <= i < |ds| - 1 ==> Aborts(ds[i], c, ds[i + 1]) || Outside(ds[i], c, ds[i + 1])
  }

  ghost predicate Aborts(d: Desk, c: Call, d': Desk) {
    exists r: Response :: r.RefundFailed? && Answers(d, c, false, r, d')
  }

  /** However often the call is tried, and whatever bookings are made outside the selection and whatever other bookings
      progress in between: the state it will end in when it goes through is the state it would have reached at first,
      changed by those other steps alone. So its refunds are made once, and their total is that of one unfailing
      call. */
  lemma {:induction false} RetriesEqualOneCall(ds: seq<Desk>, c: Call, n: nat)
    requires IsRetrying(ds, c) && n < |ds|
    requires Inv(ds[0]) && RefundingStatus(c.status) && AllRefundable(ds[0], ToRefund(ds[0], c))
    ensures Inv(ds[n]) && AllRefundable(ds[n], ToRefund(ds[n], c)) && ToRefund(ds[n], c) <= ToRefund(ds[0], c)
    ensures forall i :: 0 <= i < n ==>
              || Success(ds[i + 1], c) == Success(ds[i], c)
              || SameStep(ds[i], ds[i + 1], Success(ds[i], c), Success(ds[i + 1], c))
  {
    hide Success, Answers, Inv, AllRefundable, ToRefund, Outside, SameStep;
    if n > 0 {
      RetriesEqualOneCall(ds, c, n - 1);
      var d, d' := ds[n - 1], ds[n];
      if Aborts(d, c, d') {
        var r: Response :| r.RefundFailed? && Answers(d, c, false, r, d');
        RetryEqualsOneCall(d, c, r, d');
      } else {
        OutsideCommutes(d, c, d');
      }
    }
  }

  /** Without other steps it is that very state. */
  lemma {:induction false} PlainRetries(ds: seq<Desk>, c: Call, n: nat)
    requires n < |ds| && forall i :: 0 <= i < |ds| - 1 ==> Aborts(ds[i], c, ds[i + 1])
    requires Inv(ds[0]) && RefundingStatus(c.status) && AllRefundable(ds[0], ToRefund(ds[0], c))
    ensures Inv(ds[n]) && AllRefundable(ds[n], ToRefund(ds[n], c)) && Success(ds[n], c) == Success(ds[0], c)
  {
    if n > 0 {
      PlainRetries(ds, c, n - 1);
      var r: Response :| r.RefundFailed? && Answers(ds[n - 1], c, false, r, ds[n]);
      RetryEqualsOneCall(ds[n - 1], c, r, ds[n]);
    }
  }

  /* ---- Booking and refund -------------------------------------------------------------------------------------- */

  /** A refund gives the slots of a booking back as it took them: available ones are available again, and reserved ones
      reserved under the same reference; but under maintenance they all come back under maintenance. */
  lemma RefundUndoesBooking(d: Desk, b: BookingId, booking: Booking, taken: set<SlotId>, d': Desk, s: SlotId)
    requires Inv(d) && BooksSlots(d, b, booking, taken, d') && s in d.slots
    ensures var back := Refund(d', {b}).slots[s];
            && back.status == (if d.maintenance && s in taken then UnderMaintenance else d.slots[s].status)
            && back.booking == d.slots[s].booking
            && (d.slots[s].reference.Some? && d.slots[s].status.ReservedExternal? ==>
                  back == d.slots[s].(status := back.status))
            && (s !in taken ==> back == d.slots[s])
  {
  }

  lemma BookOne(d: Desk) returns (d': Desk)
    requires d == Desk(map[1 := Slot(Available, None, None, None)], map[], map[7 := 0], false)
    ensures BooksSlots(d, 1, Booking(Confirmed, 7, 100), {1}, d')
    ensures d' == Desk(map[1 := Slot(Booked, Some(1), None, None)], map[1 := Booking(Confirmed, 7, 100)],
                       map[7 := 0], false)
  {
    d' := Desk(map[1 := Slot(Booked, Some(1), None, None)], map[1 := Booking(Confirmed, 7, 100)], map[7 := 0], false);
    assert Taken(d.slots[1], 1) == d'.slots[1];
  }

  /** Closing a booked slot as not utilized leaves it linked to the closed booking. */
  lemma CloseOne(d: Desk, c: Call) returns (r: Response)
    requires d == Desk(map[1 := Slot(Booked, Some(1), None, None)], map[1 := Booking(Confirmed, 7, 100)],
                       map[7 := 0], false)
    requires c == Call({1}, BookingNotUtilized, None, None)
    ensures Answers(d, c, false, r, Success(d, c))
    ensures var d' := Success(d, c);
            1 in d'.slots && d'.slots[1].booking == Some(1) && 1 in d'.bookings && d'.bookings[1].status.NotUtilized?
  {
    assert 1 in Chosen(d, c);
    RefundNone(d);
    DisruptNone(d);
    r := Updated(|Chosen(d, c)|, 0, {});
  }

  /** A reachable desk on which a call fails for good: a slot is booked, its booking closed as not utilized, and then
      the slot is to be blocked. */
  lemma NotUtilizedThenBlocked() returns (ds: seq<Desk>)
    ensures |ds| == 3 && IsRun(ds)
    ensures ds[0] == Desk(map[1 := Slot(Available, None, None, None)], map[], map[7 := 0], false)
    ensures forall r: Response, d' :: Answers(ds[2], Call({1}, Blocked, None, None), false, r, d') ==> !r.Updated?
  {
    hide Success, Answers, BooksSlots;
    var d0 := Desk(map[1 := Slot(Available, None, None, None)], map[], map[7 := 0], false);
    var d1 := BookOne(d0);
    var close, block := Call({1}, BookingNotUtilized, None, None), Call({1}, Blocked, None, None);
    var r1 := CloseOne(d1, close);
    var d2 := Success(d1, close);
    assert Next(d0, d1) && Next(d1, d2);
    ds := [d0, d1, d2];
    assert 1 in Chosen(d2, block);
    forall r: Response, d' | Answers(d2, block, false, r, d')
      ensures !r.Updated?
    {
      NotUtilizedBlocksRefund(d2, block, 1, r, d');
    }
  }
}
