/** The payables service over its tables: each request locks the rows it needs, updates them in
    place and commits. */
module PayableBook {
  import opened Levels
  import opened Rounding
  import opened Cheques
  import opened Payables

  class PayableBook {
    var invoices: seq<Invoice>
    var payments: seq<Payment>
    var notes: seq<Note>
    var keys: map<string, KeyRow>

    ghost function View(): Book
      reads this
    {
      Book(invoices, payments, notes, keys)
    }

    ghost predicate Valid()
      reads this
    {
      Inv(View())
    }

    constructor ()
      ensures Valid() && View() == Book([], [], [], map[])
    {
      invoices, payments, notes, keys := [], [], [], map[];
    }

    method Enter(supplier: nat, total: nat)
      requires Valid()
      modifies this
      ensures Valid() && View() == Serve(old(View()), Request.Enter(supplier, total)).1
    {
      EnterKeeps(View(), supplier, total);
      invoices := invoices + [Invoice(supplier, total, 0, total, ENTERED, None)];
    }

    method Judge(invoice: nat, verdict: InvStatus) returns (r: Outcome)
      requires Valid()
      modifies this
      ensures Valid() && (r, View()) == Review(old(View()), invoice, verdict)
    {
      ReviewKeeps(View(), invoice, verdict);
      if invoice >= |invoices| { return Failed(NotFound); }
      var inv := invoices[invoice];
      if verdict == MATCHED || verdict == DISCREPANCY {
        if inv.status != ENTERED && inv.status != DISCREPANCY { return Failed(InvalidState); }
      } else if verdict != APPROVED || (inv.status != MATCHED && inv.status != DISCREPANCY) {
        return Failed(InvalidState);
      }
      invoices := invoices[invoice := inv.(status := verdict)];
      return Done;
    }

    /** Adds to `amount_paid`, retires `balance_due`, and moves the status on. */
    method Settle(invoice: nat, amount: real, now: int)
      requires invoice < |invoices|
      modifies `invoices
      ensures invoices == old(invoices)[invoice := Settled(old(invoices)[invoice], amount, now)]
    {
      var inv := invoices[invoice];
      inv := inv.(paid := Cents(inv.paid as real + amount));
      var rest := inv.due as real - amount;
      if rest < 0.0 {
        rest := 0.0;
      }
      inv := inv.(due := Cents(rest));
      if inv.due == 0 {
        inv := inv.(status := PAID);
        if inv.paidAt.None? {
          inv := inv.(paidAt := Some(now));
        }
      } else if inv.status == APPROVED {
        inv := inv.(status := PARTIALLY_PAID);
      }
      invoices := invoices[invoice := inv];
    }

    method Record(q: Instruction) returns (r: Outcome)
      requires Valid()
      modifies this
      ensures Valid() && (r, View()) == Payables.Record(old(View()), q)
    {
      RecordKeeps(View(), q);
      if q.invoice >= |invoices| { return Failed(NotFound); }
      if q.key in keys && keys[q.key].expires > q.now { return Replayed(keys[q.key].payment); }
      var inv := invoices[q.invoice];
      if inv.status != APPROVED && inv.status != PARTIALLY_PAID { return Failed(NotPayable); }
      if q.amount > inv.due as real { return Failed(ExceedsBalance); }
      if q.payMethod == PDC && q.pdcDate.None? { return Failed(Validation); }
      if Cents(q.amount) <= 0 { return Failed(CheckViolation); }
      r := Created(|payments|);
      keys := keys[q.key := KeyRow(|payments|, q.now + KEY_LIFE)];
      payments := payments + [NewPayment(q)];
      if q.payMethod != PDC {
        Settle(q.invoice, q.amount, q.now);
      }
    }

    method ActOn(invoice: nat, payment: nat, a: Action, manager: bool, now: int) returns (r: Outcome)
      requires Valid()
      modifies this
      ensures Valid() && (r, View()) == Cheque(old(View()), invoice, payment, a, manager, now)
    {
      ChequeKeeps(View(), invoice, payment, a, manager, now);
      if invoice >= |invoices| || payment >= |payments| || payments[payment].invoice != invoice {
        return Failed(NotFound);
      }
      var move := Act(payments[payment], a, manager, invoices[invoice].due);
      match move
      case Same => r := Unchanged;
      case Refused(e) => r := Failed(e);
      case To(p) =>
        payments := payments[payment := p];
        if a == Clear {
          Settle(invoice, p.amount as real, now);
        }
        r := Done;
    }

    method Reverse(invoice: nat, payment: nat, manager: bool) returns (r: Outcome)
      requires Valid()
      modifies this
      ensures Valid() && (r, View()) == Payables.Reverse(old(View()), invoice, payment, manager)
    {
      ReverseKeeps(View(), invoice, payment, manager);
      if invoice >= |invoices| || payment >= |payments| || payments[payment].invoice != invoice {
        return Failed(NotFound);
      }
      if !manager { return Failed(Forbidden); }
      var p, inv := payments[payment], invoices[invoice];
      if p.payMethod == PDC { return Failed(InvalidState); }
      if p.status == FAILED { return Unchanged; }
      if p.status != SUCCESS { return Failed(InvalidState); }
      if inv.status !in OPEN { return Failed(InvalidState); }
      if p.amount > inv.paid { return Failed(ExceedsBalance); }
      payments := payments[payment := p.(status := FAILED)];
      inv := inv.(paid := inv.paid - p.amount);
      inv := inv.(due := inv.due + p.amount);
      if inv.due > 0 {
        inv := inv.(paidAt := None);
        if inv.status == PAID {
          inv := inv.(status := PARTIALLY_PAID);
        }
        if inv.status == PARTIALLY_PAID && inv.paid == 0 {
          inv := inv.(status := APPROVED);
        }
      }
      invoices := invoices[invoice := inv];
      return Done;
    }

    method DraftNote(supplier: nat, total: Positive)
      requires Valid()
      modifies this
      ensures Valid() && View() == Serve(old(View()), Request.DraftNote(supplier, total)).1
    {
      DraftKeeps(View(), supplier, total);
      notes := notes + [Note(supplier, total, N_DRAFT, None)];
    }

    method IssueNote(note: nat) returns (r: Outcome)
      requires Valid()
      modifies this
      ensures Valid() && (r, View()) == Payables.IssueNote(old(View()), note)
    {
      ServeKeeps(View(), Request.Issue(note));
      if note >= |notes| { return Failed(NotFound); }
      if notes[note].status != N_DRAFT { return Failed(InvalidState); }
      notes := notes[note := notes[note].(status := N_ISSUED)];
      return Done;
    }

    method ApplyNote(note: nat, invoice: nat) returns (r: Outcome)
      requires Valid()
      modifies this
      ensures Valid() && (r, View()) == Payables.ApplyNote(old(View()), note, invoice)
    {
      ApplyKeeps(View(), note, invoice);
      if note >= |notes| { return Failed(NotFound); }
      var n := notes[note];
      if n.status == N_APPLIED { return Failed(AlreadyApplied); }
      if n.status != N_ISSUED { return Failed(InvalidState); }
      if invoice >= |invoices| { return Failed(NotFound); }
      var inv := invoices[invoice];
      if inv.supplier != n.supplier { return Failed(SupplierMismatch); }
      if inv.status != APPROVED && inv.status != PARTIALLY_PAID { return Failed(InvalidState); }
      if n.total > inv.due { return Failed(ExceedsBalance); }
      invoices := invoices[invoice := inv.(due := inv.due - n.total)];
      notes := notes[note := n.(status := N_APPLIED, applied := Some(invoice))];
      return Done;
    }

    method CancelNote(note: nat) returns (r: Outcome)
      requires Valid()
      modifies this
      ensures Valid() && (r, View()) == Payables.CancelNote(old(View()), note)
    {
      ServeKeeps(View(), Withdraw(note));
      if note >= |notes| { return Failed(NotFound); }
      if notes[note].status == N_APPLIED || notes[note].status == N_CANCELLED { return Failed(InvalidState); }
      notes := notes[note := notes[note].(status := N_CANCELLED)];
      return Done;
    }
  }
}
