/** Waitlist positions (config/admin_api.py, _waitlist_rows): several queues numbered in one pass. */
module Waitlist {
  import opened Common
  import opened Text

  type EquipmentId = nat

  /** `status` is free text; the list is in order of creation within each equipment. */
  datatype Entry = Entry(id: nat, equipment: EquipmentId, status: string)

  /** What the numbering looks at in an entry. */
  datatype Ticket = Ticket(id: nat, equipment: EquipmentId, active: bool, optedOut: bool)

  datatype WaitlistRow = WaitlistRow(id: nat, equipment: EquipmentId, position: Option<nat>, optedOut: bool)

  /** `(status or "ACTIVE").strip().upper()` */
  function StatusOf(e: Entry): string {
    Upper(Trim(if e.status == "" then "ACTIVE" else e.status))
  }

  function TicketOf(e: Entry): Ticket {
    Ticket(e.id, e.equipment, StatusOf(e) == "ACTIVE", StatusOf(e) == "OPT_OUT")
  }

  function Tickets(entries: seq<Entry>): seq<Ticket> {
    if entries == [] then [] else Tickets(entries[..|entries| - 1]) + [TicketOf(entries[|entries| - 1])]
  }

  /** How many of the tickets are active and wait for this equipment. */
  function ActiveIn(tickets: seq<Ticket>, equipment: EquipmentId): nat {
    if tickets == [] then 0
    else
      var t := tickets[|tickets| - 1];
      ActiveIn(tickets[..|tickets| - 1], equipment) + if t.active && t.equipment == equipment then 1 else 0
  }

  /** The row of a ticket: an active one stands one behind the active tickets of its equipment before it. */
  function RowBehind(before: seq<Ticket>, t: Ticket): WaitlistRow {
    var position: Option<nat> := if t.active then Some(ActiveIn(before, t.equipment) + 1) else None;
    WaitlistRow(t.id, t.equipment, position, t.optedOut)
  }

  function Rows(tickets: seq<Ticket>): (r: seq<WaitlistRow>)
    ensures |r| == |tickets|
  {
    if tickets == [] then []
    else
      var init := tickets[..|tickets| - 1];
      Rows(init) + [RowBehind(init, tickets[|tickets| - 1])]
  }

  function PositionIn(positions: map<EquipmentId, nat>, equipment: EquipmentId): nat {
    if equipment in positions then positions[equipment] else 0
  }

  /** The dictionary holds, for every equipment, the number of active tickets so far. */
  ghost predicate Counts(positions: map<EquipmentId, nat>, tickets: seq<Ticket>) {
    forall q: EquipmentId :: PositionIn(positions, q) == ActiveIn(tickets, q)
  }

  lemma TicketCounted(positions: map<EquipmentId, nat>, tickets: seq<Ticket>, t: Ticket)
    requires Counts(positions, tickets)
    ensures Counts(if t.active then positions[t.equipment := ActiveIn(tickets, t.equipment) + 1] else positions,
                   tickets + [t])
  {
    var next := if t.active then positions[t.equipment := ActiveIn(tickets, t.equipment) + 1] else positions;
    forall q: EquipmentId
      ensures PositionIn(next, q) == ActiveIn(tickets + [t], q)
    {
      assert PositionIn(positions, q) == ActiveIn(tickets, q);
    }
  }

  lemma RowsAdded(tickets: seq<Ticket>, t: Ticket)
    ensures Rows(tickets + [t]) == Rows(tickets) + [RowBehind(tickets, t)]
  {
    assert (tickets + [t])[..|tickets|] == tickets;
  }

  /** Reads the status of entry i, which makes its ticket the next one. */
  method ReadStatus(entries: seq<Entry>, i: nat) returns (active: bool, optedOut: bool)
    requires i < |entries|
    ensures Tickets(entries[..i + 1])
         == Tickets(entries[..i]) + [Ticket(entries[i].id, entries[i].equipment, active, optedOut)]
  {
    var status := StatusOf(entries[i]);
    active, optedOut := status == "ACTIVE", status == "OPT_OUT";
    assert entries[..i + 1][..i] == entries[..i];
  }

  method WaitlistRows(entries: seq<Entry>) returns (result: seq<WaitlistRow>)
    ensures result == Rows(Tickets(entries))
  {
    ghost var tickets: seq<Ticket> := [];
    var positions: map<EquipmentId, nat> := map[];
    result := [];
    for i := 0 to |entries|
      invariant tickets == Tickets(entries[..i])
      invariant Counts(positions, tickets)
      invariant result == Rows(tickets)
    {
      var e := entries[i];
      var active, optedOut := ReadStatus(entries, i);
      ghost var t := Ticket(e.id, e.equipment, active, optedOut);
      TicketCounted(positions, tickets, t);
      var position: Option<nat> := None;
      if active {
        assert PositionIn(positions, e.equipment) == ActiveIn(tickets, e.equipment);
        positions := positions[e.equipment := PositionIn(positions, e.equipment) + 1];
        position := Some(positions[e.equipment]);
      }
      result := result + [WaitlistRow(e.id, e.equipment, position, optedOut)];
      RowsAdded(tickets, t);
      tickets := tickets + [t];
    }
    assert entries[..|entries|] == entries;
  }

  /* ---- Queues do not disturb each other ------------------------------------------------------------------------ */

  /** The tickets of one equipment, in list order. */
  function QueueOf(tickets: seq<Ticket>, equipment: EquipmentId): seq<Ticket> {
    if tickets == [] then []
    else
      var t := tickets[|tickets| - 1];
      QueueOf(tickets[..|tickets| - 1], equipment) + if t.equipment == equipment then [t] else []
  }

  function RowsOf(rows: seq<WaitlistRow>, equipment: EquipmentId): seq<WaitlistRow> {
    if rows == [] then []
    else
      var r := rows[|rows| - 1];
      RowsOf(rows[..|rows| - 1], equipment) + if r.equipment == equipment then [r] else []
  }

  /** Numbering counts the same in the whole list and in the queue alone. */
  lemma {:induction false} ActiveInQueue(tickets: seq<Ticket>, equipment: EquipmentId)
    ensures ActiveIn(tickets, equipment) == ActiveIn(QueueOf(tickets, equipment), equipment)
  {
    if tickets != [] {
      var init, t := tickets[..|tickets| - 1], tickets[|tickets| - 1];
      ActiveInQueue(init, equipment);
      var shorter := QueueOf(init, equipment);
      assert (shorter + [t])[..|shorter|] == shorter && shorter + [] == shorter;
    }
  }

  lemma RowsOfAdded(rows: seq<WaitlistRow>, r: WaitlistRow, equipment: EquipmentId)
    ensures RowsOf(rows + [r], equipment) == RowsOf(rows, equipment) + if r.equipment == equipment then [r] else []
  {
    assert (rows + [r])[..|rows|] == rows;
  }

  /** However the queues of different equipment are merged into one list, the rows of one equipment are exactly
      the rows of its queue alone: the all-equipment list, narrowed, is the single-equipment list. */
  lemma {:induction false} NarrowedListAgrees(tickets: seq<Ticket>, equipment: EquipmentId)
    ensures RowsOf(Rows(tickets), equipment) == Rows(QueueOf(tickets, equipment))
  {
    if tickets != [] {
      var init, t := tickets[..|tickets| - 1], tickets[|tickets| - 1];
      var shorter := QueueOf(init, equipment);
      NarrowedListAgrees(init, equipment);
      ActiveInQueue(init, equipment);
      RowsOfAdded(Rows(init), RowBehind(init, t), equipment);
      if t.equipment == equipment {
        RowsAdded(shorter, t);
      } else {
        assert shorter + [] == shorter;
      }
    }
  }

  /* ---- Positions and codes ------------------------------------------------------------------------------------- */

  /** The positions handed out for one equipment, in list order. */
  function PositionsOf(rows: seq<WaitlistRow>, equipment: EquipmentId): seq<nat> {
    if rows == [] then []
    else
      var r := rows[|rows| - 1];
      PositionsOf(rows[..|rows| - 1], equipment) +
      if r.equipment == equipment && r.position.Some? then [r.position.value] else []
  }

  function OneTo(n: nat): seq<nat> {
    seq(n, i => i + 1)
  }

  /** The active entries of each equipment get 1, 2, ..., n in order, with no gap and no repeat. */
  lemma {:induction false} PositionsCount(tickets: seq<Ticket>, equipment: EquipmentId)
    ensures PositionsOf(Rows(tickets), equipment) == OneTo(ActiveIn(tickets, equipment))
  {
    if tickets != [] {
      var init := tickets[..|tickets| - 1];
      PositionsCount(init, equipment);
      var before := ActiveIn(init, equipment);
      assert OneTo(before + 1) == OneTo(before) + [before + 1];
    }
  }

  lemma {:induction false} RowAt(tickets: seq<Ticket>, i: nat)
    requires i < |tickets|
    ensures Rows(tickets)[i] == RowBehind(tickets[..i], tickets[i])
  {
    var init := tickets[..|tickets| - 1];
    if i < |init| {
      RowAt(init, i);
      assert init[..i] == tickets[..i];
    }
  }

  lemma {:induction false} TicketAt(entries: seq<Entry>, i: nat)
    requires i < |entries|
    ensures |Tickets(entries)| == |entries| && Tickets(entries)[i] == TicketOf(entries[i])
  {
    var n := |entries| - 1;
    hide TicketOf;
    if i < n {
      TicketAt(entries[..n], i);
    } else if n > 0 {
      TicketAt(entries[..n], 0);
    }
  }

  /** An entry has a position, and so a code, exactly when its status is empty or reads ACTIVE, and is shown as opted
      out exactly when it reads OPT_OUT; letter case and outer white space do not matter. */
  lemma NumberedIffActive(entries: seq<Entry>, i: nat)
    requires i < |entries|
    ensures |Tickets(entries)| == |entries|
    ensures
      var row, status := Rows(Tickets(entries))[i], entries[i].status;
      && row.id == entries[i].id && row.equipment == entries[i].equipment
      && (row.position.Some? <==> status == "" || Upper(Trim(status)) == "ACTIVE")
      && (row.optedOut <==> status != "" && Upper(Trim(status)) == "OPT_OUT")
  {
    hide Upper, Trim;
    TicketAt(entries, i);
    RowAt(Tickets(entries), i);
    EmptyIsActive();
  }

  lemma EmptyIsActive()
    ensures Upper(Trim("ACTIVE")) == "ACTIVE" != "OPT_OUT"
  {
    assert Trim("ACTIVE") == "ACTIVE";
  }

  /** Such statuses, as they are stored and as they might be typed. */
  lemma StatusesRead()
    ensures Upper(Trim("ACTIVE")) == "ACTIVE" && Upper(Trim(" active\n")) == "ACTIVE"
    ensures Upper(Trim("OPT_OUT")) == "OPT_OUT" && Upper(Trim("opt_out")) == "OPT_OUT"
  {
    EmptyIsActive();
    TypedActive();
    TypedOptOut();
    StoredOptOut();
  }

  lemma TypedActive()
    ensures Upper(Trim(" active\n")) == "ACTIVE"
  {
    assert TrimRight(" active\n") == " active" && TrimLeft(" active") == "active";
    assert Upper("active") == "ACTIVE";
  }

  lemma TypedOptOut()
    ensures Upper(Trim("opt_out")) == "OPT_OUT"
  {
    assert Trim("opt_out") == "opt_out" && Upper("opt_out") == "OPT_OUT";
  }

  lemma StoredOptOut()
    ensures Upper(Trim("OPT_OUT")) == "OPT_OUT"
  {
    assert Trim("OPT_OUT") == "OPT_OUT" && Upper("OPT_OUT") == "OPT_OUT";
  }

  function Code(position: nat): string {
    "WL" + Decimal(position)
  }

  lemma CodesRead()
    ensures Code(1) == "WL1" && Code(12) == "WL12"
  {
    DigitsWritten();
    assert Decimal(12) == Decimal(1) + [DigitChar(2)];
  }

  lemma {:induction false} ActiveInGrows(tickets: seq<Ticket>, i: nat, j: nat)
    requires i < j < |tickets| && tickets[i].active
    ensures ActiveIn(tickets[..i], tickets[i].equipment) < ActiveIn(tickets[..j], tickets[i].equipment)
    decreases j
  {
    assert tickets[..j][..j - 1] == tickets[..j - 1];
    if i < j - 1 {
      ActiveInGrows(tickets, i, j - 1);
    }
  }

  /** Within one equipment a code names one entry. */
  lemma {:induction false} CodeNamesOneEntry(tickets: seq<Ticket>, i: nat, j: nat)
    requires i < |tickets| && j < |tickets|
    requires tickets[i].equipment == tickets[j].equipment
    requires Rows(tickets)[i].position.Some? && Rows(tickets)[j].position.Some?
    requires Code(Rows(tickets)[i].position.value) == Code(Rows(tickets)[j].position.value)
    ensures i == j
  {
    RowAt(tickets, i);
    RowAt(tickets, j);
    var p, q := Rows(tickets)[i].position.value, Rows(tickets)[j].position.value;
    assert Code(p)[2..] == Decimal(p) && Code(q)[2..] == Decimal(q);
    DecimalInjective(p, q);
    if i < j {
      ActiveInGrows(tickets, i, j);
    } else if j < i {
      ActiveInGrows(tickets, j, i);
    }
  }
}
