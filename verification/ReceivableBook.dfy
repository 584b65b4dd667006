/** The receivables service over its tables: each request locks the invoice, updates rows in place and
    commits. */
module ReceivableBook {
  import opened Levels
  import opened Rounding
  import opened Cheques
  import opened Receivables

  class ReceivableBook {
    var invoices: seq<Invoice>
    var payments: seq<Payment>
    var keys: map<string, KeyRow>

    ghost function View(): Book
      reads this
    {
      Book(invoices, payments, keys)
    }

    ghost predicate Valid()
      reads this
    {
      Inv(View())
    }

    constructor ()
      ensures Valid() && View() == Book([], [], map[])
    {
      invoices, payments, keys := [], [], map[];
    }

    method Enter(total: nat, dueDate: int)
      requires Valid()
      modifies this
      ensures Valid() && View() == Serve(old(View()), Request.Enter(total, dueDate)).1
    {
      ServeKeeps(View(), Request.Enter(total, dueDate));
      invoices := invoices + [Invoice(total, 0, 0, dueDate, SENT)];
    }

    /** `amount_paid`: the SUCCESS payments of one invoice. */
    method AmountPaid(invoice: nat) returns (total: int)
      ensures total == Paid(payments, invoice)
    {
      total := 0;
      for i := 0 to |payments|
        invariant total == PaidTo(payments, i, invoice)
      {
        if payments[i].invoice == invoice && payments[i].status == SUCCESS {
          total := total + payments[i].amount;
        }
      }
    }

    /** `balance_due` of an invoice, read off the payments. */
    method ReadBalance(invoice: nat) returns (due: int)
      requires invoice < |invoices|
      ensures due == Due(View(), invoice)
    {
      var inv := invoices[invoice];
      var paid := AmountPaid(invoice);
      var raw := (inv.total - paid - inv.credited + inv.debited) as real;
      if raw < 0.0 {
        raw := 0.0;
      }
      due := Cents(raw);
    }

    /** Recomputes the status from the payments; the only way payments change it. */
    method UpdateStatus(invoice: nat, today: int)
      requires invoice < |invoices|
      modifies `invoices
      ensures invoices == Restated(old(invoices), payments, invoice, today)
    {
      var inv := invoices[invoice];
      var paid := AmountPaid(invoice);
      var balance := ReadBalance(invoice);
      var status := inv.status;
      if status != VOID && status != DRAFT {
        if CreditOwing(inv, paid) > 0 || balance == 0 {
          status := PAID_UP;
        } else if status != PAID_UP && inv.dueDate < today {
          status := OVERDUE;
        } else if paid > 0 {
          status := PART_PAID;
        } else {
          status := SENT;
        }
      }
      invoices := invoices[invoice := inv.(status := status)];
    }

    method Record(q: Instruction) returns (r: Outcome)
      requires Valid() && 0.0 < q.amount
      modifies this
      ensures Valid() && (r, View()) == Receivables.Record(old(View()), q)
    {
      ServeKeeps(View(), Pay(q));
      if q.invoice >= |invoices| { return Failed(NotFound); }
      if q.key in keys && keys[q.key].expires > q.now { return Replayed(keys[q.key].payment); }
      var due := ReadBalance(q.invoice);
      if q.amount > due as real { return Failed(ExceedsBalance); }
      if q.payMethod == PDC && q.pdcDate.None? { return Failed(Validation); }
      r := Created(|payments|);
      keys := keys[q.key := KeyRow(|payments|, q.now + KEY_LIFE)];
      payments := payments + [NewPayment(q)];
      UpdateStatus(q.invoice, q.today);
    }

    /** The checks every cheque action starts with: both rows are found, the user may act, and the
        payment is a post-dated cheque. */
    method Ready(invoice: nat, payment: nat, manager: bool) returns (refused: Option<Error>)
      ensures refused.None? <==> Belongs(View(), invoice, payment) && manager && payments[payment].payMethod == PDC
      ensures refused.Some? ==> forall a, today ::
                Cheque(View(), invoice, payment, a, manager, today) == (Failed(refused.value), View())
    {
      if invoice >= |invoices| || payment >= |payments| || payments[payment].invoice != invoice {
        return Some(NotFound);
      }
      if !manager { return Some(Forbidden); }
      if payments[payment].payMethod != PDC { return Some(InvalidState); }
      return None;
    }

    method Deposit(invoice: nat, payment: nat, manager: bool, today: int) returns (r: Outcome)
      requires Valid()
      modifies this
      ensures Valid() && (r, View()) == Cheque(old(View()), invoice, payment, Action.Deposit(today), manager, today)
    {
      ServeKeeps(View(), ActOn(invoice, payment, Action.Deposit(today), manager, today));
      var refused := Ready(invoice, payment, manager);
      if refused.Some? { return Failed(refused.value); }
      var p := payments[payment];
      if p.pdc == Some(DEPOSITED) && p.status == PENDING { return Unchanged; }
      if ClearedAlready(p) { return Failed(InvalidState); }
      if p.pdc != Some(RECEIVED) || p.status != PENDING { return Failed(InvalidState); }
      if p.pdcDate.None? || p.pdcDate.value > today { return Failed(Validation); }
      payments := payments[payment := p.(pdc := Some(DEPOSITED))];
      return Done;
    }

    method Clear(invoice: nat, payment: nat, manager: bool, today: int) returns (r: Outcome)
      requires Valid()
      modifies this
      ensures Valid() && (r, View()) == Cheque(old(View()), invoice, payment, Action.Clear, manager, today)
    {
      ServeKeeps(View(), ActOn(invoice, payment, Action.Clear, manager, today));
      var refused := Ready(invoice, payment, manager);
      if refused.Some? { return Failed(refused.value); }
      var p := payments[payment];
      if ClearedAlready(p) { return Unchanged; }
      if p.pdc != Some(DEPOSITED) { return Failed(InvalidState); }
      var due := ReadBalance(invoice);
      if p.amount > due { return Failed(ExceedsBalance); }
      payments := payments[payment := p.(status := SUCCESS, pdc := Some(CLEARED))];
      UpdateStatus(invoice, today);
      return Done;
    }

    method Bounce(invoice: nat, payment: nat, manager: bool, today: int) returns (r: Outcome)
      requires Valid()
      modifies this
      ensures Valid() && (r, View()) == Cheque(old(View()), invoice, payment, Action.Bounce, manager, today)
    {
      ServeKeeps(View(), ActOn(invoice, payment, Action.Bounce, manager, today));
      var refused := Ready(invoice, payment, manager);
      if refused.Some? { return Failed(refused.value); }
      var p := payments[payment];
      if p.pdc == Some(BOUNCED) { return Unchanged; }
      if ClearedAlready(p) || p.pdc != Some(DEPOSITED) { return Failed(InvalidState); }
      payments := payments[payment := p.(status := FAILED, pdc := Some(BOUNCED))];
      return Done;
    }

    method ReturnCheque(invoice: nat, payment: nat, manager: bool, today: int) returns (r: Outcome)
      requires Valid()
      modifies this
      ensures Valid() && (r, View()) == Cheque(old(View()), invoice, payment, Action.Return, manager, today)
    {
      ServeKeeps(View(), ActOn(invoice, payment, Action.Return, manager, today));
      var refused := Ready(invoice, payment, manager);
      if refused.Some? { return Failed(refused.value); }
      var p := payments[payment];
      if p.pdc == Some(RETURNED) { return Unchanged; }
      if ClearedAlready(p) || p.pdc != Some(RECEIVED) || p.status != PENDING { return Failed(InvalidState); }
      payments := payments[payment := p.(status := CANCELLED, pdc := Some(RETURNED))];
      return Done;
    }
  }
}
