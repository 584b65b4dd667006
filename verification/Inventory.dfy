/** The stock service of one workspace.  A request works on local copies of the tables and assigns
    the fields at the end, where the router commits; a refused request assigns nothing. */
module Inventory {
  import opened Levels
  import opened Tables
  import opened StockInvariant
  import opened Rounding
  import opened Demands
  import StockRuns
  import Postings
  import Reservations
  import Bins
  import Transfers
  import Counts
  import Deliveries

  class Inventory {
    const autoflush: bool
    var levels: Table
    var ledger: seq<Txn>
    var heads: seq<Head>
    var items: seq<ResItem>
    var transfers: seq<Transfer>
    var counts: seq<Count>
    var orders: seq<Order>
    var notes: seq<Note>

    function View(): State
      reads this
    {
      State(autoflush, levels, ledger, heads, items, transfers, counts, orders, notes)
    }

    ghost predicate Valid()
      reads this
    {
      Inv(View())
    }

    constructor (autoflush: bool)
      ensures Valid() && View() == StockRuns.Empty(autoflush)
    {
      this.autoflush := autoflush;
      levels, ledger, heads, items := map[], [], [], [];
      transfers, counts, orders, notes := [], [], [], [];
      new;
      StockRuns.EmptyOk(autoflush);
    }

    // ---- adjustments, receipts, issues ----

    method Adjust(manager: bool, k: Key, quantity: real) returns (r: Option<Error>)
      requires Valid()
      modifies this
      ensures Valid() && r == Postings.AdjustRefusal(old(View()), manager, k, quantity)
      ensures if r.None? then Postings.Adjusts(old(View()), manager, k, quantity, View()) else View() == old(View())
    {
      if !manager { return Some(Forbidden); }
      if quantity == 0.0 { return Some(ZeroQuantity); }
      var level := Get(levels, k);
      var next := level.onHand as real + quantity;
      if next < 0.0 { return Some(NegativeOnHand); }
      ghost var s := View();
      levels := levels[k := level.(onHand := Nearest(next))];
      ledger := ledger + [Txn(ADJUSTMENT, k, quantity > 0.0, Nearest(quantity), Manual)];
      Postings.SingleIsPosted(s, [Ask(k, quantity)], [Postings.AdjustRow(k, quantity)], [], k, View());
      Postings.AdjustKeeps(s, manager, k, quantity, View());
      return None;
    }

    method Dispose(warehouse: nat, product: nat, bins: set<Bin>, accepted: real, damaged: real) returns (r: Option<Error>)
      requires Valid()
      modifies this
      ensures Valid() && r == Postings.DisposeRefusal(old(View()), warehouse, product, bins)
      ensures if r.None? then Postings.Disposes(old(View()), warehouse, product, bins, accepted, damaged, View())
              else View() == old(View())
    {
      var k;
      r, k := Postings.Place(View(), warehouse, product, bins);
      if r.Some? { return; }
      ghost var s := View();
      var level, rows := Get(levels, k), [];
      if accepted > 0.0 {
        rows := [Txn(RECEIPT, k, true, Nearest(accepted), Grn)];
        level := level.(onHand := Nearest(level.onHand as real + accepted));
      }
      if damaged > 0.0 {
        level := level.(damaged := Nearest(level.damaged as real + damaged));
      }
      levels, ledger := levels[k := level], ledger + rows;
      Postings.SingleIsPosted(s, Postings.Gain(k, accepted), rows, Postings.Gain(k, damaged), k, View());
      Postings.DisposeKeeps(s, warehouse, product, bins, accepted, damaged, View());
    }

    method Issue(lines: seq<Ask>) returns (r: Option<Error>)
      requires Valid()
      modifies this
      ensures Valid() && r == Postings.IssueRefusal(old(View()), lines)
      ensures if r.None? then Postings.Issues(old(View()), lines, View()) else View() == old(View())
    {
      ghost var s := View();
      var ok, levels', rows := Postings.IssueLines(autoflush, levels, lines);
      if !ok { return Some(Insufficient); }
      levels, ledger := levels', ledger + rows;
      Postings.TakenIsPosted(s, Postings.Taken(lines), Everything, rows, View());
      assert Postings.Issues(s, lines, View());
      Postings.IssueKeeps(s, lines, View());
      return None;
    }

    // ---- transfers ----

    method CreateTransfer(yard: Bins.Yard, source: nat, destination: nat, drafts: seq<Transfers.Draft>)
      returns (r: Option<Error>)
      requires Valid()
      modifies this
      ensures Valid() && r == Transfers.CreateRefusal(old(View()), yard, source, destination, drafts)
      ensures if r.None? then Transfers.Creates(old(View()), yard, source, destination, drafts, View())
              else View() == old(View())
    {
      if source == destination { return Some(InvalidState); }
      var refused, lines := Transfers.EnterLines(View(), yard, source, destination, drafts);
      if refused.Some? { return refused; }
      transfers := transfers + [Transfer(T_DRAFT, lines)];
      Transfers.CreateKeeps(old(View()), yard, source, destination, drafts, View());
      return None;
    }

    method ApproveTransfer(id: nat) returns (r: Option<Error>)
      requires Valid()
      modifies this
      ensures Valid() && r == Transfers.ApproveRefusal(old(View()), id)
      ensures if r.None? then Transfers.Approves(old(View()), id, View()) else View() == old(View())
    {
      if id >= |transfers| { return Some(NotFound); }
      if transfers[id].status != T_DRAFT { return Some(InvalidState); }
      transfers := transfers[id := transfers[id].(status := T_APPROVED)];
      Transfers.ApproveKeeps(old(View()), id, View());
      return None;
    }

    method DispatchTransfer(id: nat) returns (r: Option<Error>)
      requires Valid()
      modifies this
      ensures Valid() && r == Transfers.DispatchRefusal(old(View()), id)
      ensures if r.None? then Transfers.Dispatches(old(View()), id, View()) else View() == old(View())
    {
      if id >= |transfers| { return Some(NotFound); }
      var t := transfers[id];
      if t.status != T_APPROVED { return Some(InvalidState); }
      ghost var s := View();
      var refused, session, rows := Transfers.ShipLines(levels, id, t.lines);
      if refused.Some? { return refused; }
      levels, ledger := session, ledger + rows;
      transfers := transfers[id := t.(status := T_IN_TRANSIT)];
      Transfers.ShippedIsDispatched(s, id, session, View());
      Transfers.DispatchKeeps(s, id, View());
      return None;
    }

    method ReceiveTransfer(id: nat, received: map<nat, real>) returns (r: Option<Error>)
      requires Valid()
      modifies this
      ensures Valid() && r == Transfers.ReceiveRefusal(old(View()), id, received)
      ensures if r.None? then Transfers.Receives(old(View()), id, received, View()) else View() == old(View())
    {
      if id >= |transfers| { return Some(NotFound); }
      var t := transfers[id];
      if t.status != T_IN_TRANSIT { return Some(InvalidState); }
      ghost var s := View();
      var refused, levels', rows, lines := Transfers.ReceiveLines(autoflush, levels, id, received, t.lines);
      if refused.Some? { return refused; }
      levels, ledger := levels', ledger + rows;
      transfers := transfers[id := Transfer(T_RECEIVED, lines)];
      assert Transfers.Receives(s, id, received, View());
      Transfers.ReceiveKeeps(s, id, received, View());
      return None;
    }

    method CancelTransfer(id: nat) returns (r: Option<Error>)
      requires Valid()
      modifies this
      ensures Valid() && r == Transfers.CancelRefusal(old(View()), id)
      ensures if r.None? then Transfers.Cancels(old(View()), id, View()) else View() == old(View())
    {
      if id >= |transfers| { return Some(NotFound); }
      var t := transfers[id];
      if t.status == T_RECEIVED || t.status == T_CANCELLED { return Some(InvalidState); }
      ghost var s := View();
      var session, rows := levels, [];
      if t.status == T_IN_TRANSIT {
        session, rows := Transfers.ReturnLines(levels, id, t.lines);
      }
      levels, ledger := session, ledger + rows;
      transfers := transfers[id := t.(status := T_CANCELLED)];
      if t.status == T_IN_TRANSIT {
        Transfers.ReturnedIsCancelled(s, id, session, View());
      }
      Transfers.CancelKeeps(s, id, View());
      return None;
    }

    // ---- counts ----

    method CreateCount(manager: bool, warehouse: nat, rows: seq<Key>) returns (r: Option<Error>)
      requires Valid() && Counts.Listing(levels, warehouse, rows)
      modifies this
      ensures Valid() && r == Counts.CreateRefusal(manager)
      ensures if r.None? then Counts.Creates(old(View()), manager, warehouse, rows, View()) else View() == old(View())
    {
      if !manager { return Some(Forbidden); }
      var lines := Counts.SnapshotLines(levels, rows);
      counts := counts + [Count(warehouse, |ledger|, C_SCHEDULED, lines)];
      Counts.CreateKeeps(old(View()), manager, warehouse, rows, View());
      return None;
    }

    method RecordCount(manager: bool, id: nat, line: nat, counted: Tally) returns (r: Option<Error>)
      requires Valid()
      modifies this
      ensures Valid() && r == Counts.RecordRefusal(old(View()), manager, id, line)
      ensures if r.None? then Counts.Records(old(View()), manager, id, line, counted, View()) else View() == old(View())
    {
      if !manager { return Some(Forbidden); }
      if id >= |counts| { return Some(NotFound); }
      var c := counts[id];
      if c.status in Counts.CLOSED { return Some(InvalidState); }
      if line >= |c.lines| { return Some(NotFound); }
      c := c.(lines := c.lines[line := c.lines[line].(counted := Some(Nearest(counted)))]);
      if c.status == C_SCHEDULED {
        c := c.(status := C_IN_PROGRESS);
      }
      counts := counts[id := c];
      Counts.RecordKeeps(old(View()), manager, id, line, counted, View());
      return None;
    }

    method CompleteCount(manager: bool, id: nat) returns (r: Option<Error>)
      requires Valid()
      modifies this
      ensures Valid() && r == Counts.CompleteRefusal(old(View()), manager, id)
      ensures if r.None? then Counts.Completes(old(View()), manager, id, View()) else View() == old(View())
    {
      if !manager { return Some(Forbidden); }
      if id >= |counts| { return Some(NotFound); }
      var c := counts[id];
      if c.status in Counts.CLOSED { return Some(InvalidState); }
      if exists l <- c.lines :: l.counted.None? { return Some(Uncounted); }
      var lines := Counts.FlagLines(c.lines);
      counts := counts[id := c.(status := C_COMPLETED, lines := lines)];
      Counts.CompleteKeeps(old(View()), manager, id, View());
      return None;
    }

    method ApproveCount(manager: bool, id: nat) returns (r: Option<Error>)
      requires Valid()
      modifies this
      ensures Valid() && r == Counts.ApproveRefusal(old(View()), manager, id)
      ensures if r.None? then Counts.Approves(old(View()), manager, id, View()) else View() == old(View())
    {
      if !manager { return Some(Forbidden); }
      if id >= |counts| { return Some(NotFound); }
      var c := counts[id];
      if c.status != C_COMPLETED { return Some(InvalidState); }
      var lines := Counts.ApproveLines(c.lines);
      counts := counts[id := c.(lines := lines)];
      Counts.ApproveKeeps(old(View()), manager, id, View());
      return None;
    }

    method ReconcileCount(manager: bool, id: nat) returns (r: Option<Error>)
      requires Valid()
      modifies this
      ensures Valid() && r == Counts.ReconcileRefusal(old(View()), manager, id)
      ensures if r.None? then Counts.Reconciles(old(View()), manager, id, View()) else View() == old(View())
    {
      if !manager { return Some(Forbidden); }
      if id >= |counts| { return Some(NotFound); }
      var c := counts[id];
      if c.status != C_COMPLETED { return Some(InvalidState); }
      if exists l <- c.lines :: l.requiresApproval && !l.approved { return Some(NeedsApproval); }
      assert CountOk(c, ledger);
      ghost var s := View();
      var session, rows, below := Counts.CorrectLines(levels, id, c.lines);
      if below { return Some(CheckViolation); }
      levels, ledger := session, ledger + rows;
      counts := counts[id := c.(status := C_RECONCILED)];
      Counts.CorrectedIsReconciled(s, manager, id, session, View());
      Counts.ReconcileKeeps(s, manager, id, View());
      return None;
    }

    method CancelCount(manager: bool, id: nat) returns (r: Option<Error>)
      requires Valid()
      modifies this
      ensures Valid() && r == Counts.CancelRefusal(old(View()), manager, id)
      ensures if r.None? then Counts.Cancels(old(View()), manager, id, View()) else View() == old(View())
    {
      if !manager { return Some(Forbidden); }
      if id >= |counts| { return Some(NotFound); }
      if counts[id].status in Counts.CLOSED { return Some(InvalidState); }
      counts := counts[id := counts[id].(status := C_CANCELLED)];
      Counts.CancelKeeps(old(View()), manager, id, View());
      return None;
    }

    // ---- LPOs and reservations ----

    method AddOrder(lines: seq<OrderLine>)
      requires Valid() && forall l <- lines :: l.delivered == 0
      modifies this
      ensures Valid() && StockRuns.Orders(old(View()), lines, View())
    {
      orders := orders + [Order(false, lines)];
      StockRuns.OrdersKeep(old(View()), lines, View());
    }

    method SetShippable(o: nat, shippable: bool)
      requires Valid() && o < |orders|
      modifies this
      ensures Valid() && StockRuns.Ships(old(View()), o, shippable, View())
    {
      orders := orders[o := orders[o].(shippable := shippable)];
      StockRuns.ShipsKeep(old(View()), o, shippable, View());
    }

    method Reserve(order: nat, rows: seq<Reservations.Row>, now: int) returns (r: Option<Error>)
      requires Valid()
      modifies this
      ensures Valid() && r == Reservations.ReserveRefusal(old(View()), order, rows)
      ensures if r.None? then Reservations.Reserves(old(View()), order, rows, now, View()) else View() == old(View())
    {
      if order >= |orders| { return Some(NotFound); }
      if !orders[order].shippable { return Some(InvalidState); }
      ghost var s := View();
      var refused, levels', made := Reservations.ReserveRows(View(), order, rows);
      if refused.Some? { return refused; }
      levels, items := levels', items + made;
      heads := heads + [Head(order, ACTIVE, now + Reservations.TTL)];
      assert Reservations.Reserves(s, order, rows, now, View());
      Reservations.ReserveKeeps(s, order, rows, now, View());
      return None;
    }

    method CancelReservation(h: nat) returns (r: Option<Error>)
      requires Valid()
      modifies this
      ensures Valid() && r == Reservations.CancelRefusal(old(View()), h)
      ensures if r.None? then Reservations.Cancels(old(View()), h, View()) else View() == old(View())
    {
      if h >= |heads| { return Some(NotFound); }
      if heads[h].status != ACTIVE { return Some(InvalidState); }
      Reservations.HeldIsOk(levels);
      var session, released := Reservations.ReleaseLines(levels, heads, items, h, CANCELLED);
      levels, items := session, released;
      heads := heads[h := heads[h].(status := CANCELLED)];
      assert heads == Reservations.ReleaseHeads(old(heads), {h}, CANCELLED);
      Reservations.ReleaseKeeps(old(View()), {h}, CANCELLED, View());
      return None;
    }

    method ExpireDue(manager: bool, cutoff: int) returns (r: Option<Error>, expired: nat)
      requires Valid()
      modifies this
      ensures Valid() && r == Reservations.ExpireRefusal(manager)
      ensures if r.None? then Reservations.Expires(old(View()), manager, cutoff, View()) else View() == old(View())
      ensures r.None? ==> expired == |Reservations.Due(old(heads), cutoff)|
    {
      if !manager { return Some(Forbidden), 0; }
      Reservations.HeldIsOk(levels);
      var session, heads', items', n := Reservations.ExpireHeads(levels, heads, items, cutoff);
      levels, heads, items := session, heads', items';
      Reservations.ReleaseKeeps(old(View()), Reservations.Due(old(heads), cutoff), EXPIRED, View());
      return None, n;
    }

    // ---- delivery notes ----

    method DraftNote(order: nat, header: Bin, slices: seq<Deliveries.Slice>) returns (r: Option<Error>)
      requires Valid()
      modifies this
      ensures Valid() && r == Deliveries.PlanRefusal(old(View()), order, header, slices)
      ensures if r.None? then Deliveries.Drafts(old(View()), order, header, slices, View()) else View() == old(View())
    {
      var lines;
      r, lines := Deliveries.PlanLines(View(), order, header, slices);
      if r.Some? { return; }
      notes := notes + [Note(order, N_DRAFT, lines)];
      Deliveries.DraftKeeps(old(View()), order, header, slices, View());
    }

    method RedraftNote(id: nat, header: Bin, slices: seq<Deliveries.Slice>) returns (r: Option<Error>)
      requires Valid()
      modifies this
      ensures Valid() && r == Deliveries.RedraftRefusal(old(View()), id, header, slices)
      ensures if r.None? then Deliveries.Redrafts(old(View()), id, header, slices, View()) else View() == old(View())
    {
      if id >= |notes| { return Some(NotFound); }
      var n := notes[id];
      if n.status != N_DRAFT { return Some(InvalidState); }
      var lines;
      r, lines := Deliveries.PlanLines(View(), n.order, header, slices);
      if r.Some? { return; }
      notes := notes[id := n.(lines := lines)];
      Deliveries.RedraftKeeps(old(View()), id, header, slices, View());
    }

    /** The checks before any stock moves. */
    method CheckNote(id: nat) returns (refused: Option<Error>)
      requires Valid() && id < |notes| && notes[id].status != N_CONFIRMED
      ensures refused.Some? ==> Deliveries.ConfirmRefusal(View(), id) == refused
      ensures refused.None? ==> notes[id].order < |orders|
      ensures refused.None? ==>
                Deliveries.ConfirmRefusal(View(), id)
                == if Deliveries.StockedTo(View(), notes[id], |notes[id].lines|) then None else Some(Insufficient)
    {
      var n := notes[id];
      if n.status != N_DRAFT { return Some(InvalidState); }
      if n.lines == [] { return Some(NoLines); }
      if n.order >= |orders| { return Some(NotFound); }
      if !orders[n.order].shippable { return Some(InvalidState); }
      refused := Deliveries.CheckRemaining(View(), n);
    }

    method ConfirmNote(id: nat) returns (r: Option<Error>)
      requires Valid()
      modifies this
      ensures Valid() && r == Deliveries.ConfirmRefusal(old(View()), id)
      ensures if r.None? then Deliveries.Confirms(old(View()), id, View()) else View() == old(View())
    {
      if id >= |notes| { return Some(NotFound); }
      var n := notes[id];
      if n.status == N_CONFIRMED { return None; }
      r := CheckNote(id);
      if r.Some? { return; }
      var s := View();
      var session, rows, b;
      r, session, rows, b := Deliveries.IssueLines(s, id, n);
      if r.Some? { return; }
      var notes' := notes[id := n.(status := N_CONFIRMED)];
      var orders' := Deliveries.RecalcDelivered(s, notes', n.order);
      levels, ledger, heads, items := session, ledger + rows, b.heads, b.items;
      orders, notes := orders', notes';
      Deliveries.IssuedIsConfirmed(s, id, session, View());
      Deliveries.ConfirmKeeps(s, id, View());
    }

    method CancelNote(id: nat) returns (r: Option<Error>)
      requires Valid()
      modifies this
      ensures Valid() && r == Deliveries.CancelRefusal(old(View()), id)
      ensures if r.None? then Deliveries.Cancels(old(View()), id, View()) else View() == old(View())
    {
      if id >= |notes| { return Some(NotFound); }
      var n := notes[id];
      if n.status != N_CONFIRMED { return Some(InvalidState); }
      if n.order >= |orders| { return Some(NotFound); }
      if !orders[n.order].shippable { return Some(InvalidState); }
      var session, rows := Deliveries.ReturnLines(levels, id, n.lines);
      var notes' := notes[id := n.(status := N_CANCELLED)];
      var orders' := Deliveries.RecalcDelivered(View(), notes', n.order);
      levels, ledger := session, ledger + rows;
      orders, notes := orders', notes';
      Deliveries.CancelKeeps(old(View()), id, View());
      return None;
    }
  }
}
