/** What reversals, debit notes and retries come to over runs of the payables book. */
module PayableTheorems {
  import opened Levels
  import opened Rounding
  import opened Cheques
  import opened Payables

  /** What no request changes in a payment row. */
  predicate SamePayment(p: Payment, p': Payment) {
    p'.(status := p.status, pdc := p.pdc) == p
  }

  lemma ServeStays(b: Book, r: Request, i: nat)
    requires i < |b.payments|
    ensures i < |Serve(b, r).1.payments| && SamePayment(b.payments[i], Serve(b, r).1.payments[i])
  {
    match r
    case ActOn(inv, p, a, m, now) =>
      if Belongs(b, inv, p) && Act(b.payments[p], a, m, b.invoices[inv].due).To? {
        var q := Act(b.payments[p], a, m, b.invoices[inv].due).payment;
        assert SamePayment(b.payments[p], q);
      }
    case _ =>
  }

  lemma {:induction false} RunStays(b: Book, rs: seq<Request>, i: nat)
    requires i < |b.payments|
    ensures i < |ServeAll(b, rs).payments| && SamePayment(b.payments[i], ServeAll(b, rs).payments[i])
    decreases |rs|
  {
    if rs != [] {
      ServeStays(b, rs[0], i);
      RunStays(Serve(b, rs[0]).1, rs[1..], i);
    }
  }

  // ---- exactly when a request goes through ----

  /** A payment is recorded when its key is free, the invoice is APPROVED or PARTIALLY_PAID and owes at least
      the amount, a post-dated cheque has a date, and the amount does not round to zero; it leaves one
      payment row, its key for 172800 seconds, and every other invoice as it was. */
  lemma PaysIff(b: Book, q: Instruction)
    ensures Record(b, q).0.Created? <==>
              && q.invoice < |b.invoices| && !(q.key in b.keys && q.now < b.keys[q.key].expires)
              && (b.invoices[q.invoice].status == APPROVED || b.invoices[q.invoice].status == PARTIALLY_PAID)
              && 0.5 <= q.amount <= b.invoices[q.invoice].due as real
              && (q.payMethod == PDC ==> q.pdcDate.Some?)
    ensures Record(b, q).0.Created? ==>
              var b' := Record(b, q).1;
              && |b'.payments| == |b.payments| + 1 && b'.payments[..|b.payments|] == b.payments
              && b'.keys == b.keys[q.key := KeyRow(|b.payments|, q.now + 172_800)]
              && b'.notes == b.notes && |b'.invoices| == |b.invoices|
              && (forall i | 0 <= i < |b.invoices| && i != q.invoice :: b'.invoices[i] == b.invoices[i])
              && (q.payMethod == PDC ==> b'.invoices == b.invoices)
              && var p := b'.payments[|b.payments|];
              && p.invoice == q.invoice && p.payMethod == q.payMethod && p.amount as real - 0.5 <= q.amount < p.amount as real + 0.5
              && (if q.payMethod == PDC then p.status == PENDING && p.pdc == Some(RECEIVED) && p.pdcDate == q.pdcDate
                  else p.status == SUCCESS && p.pdc == None && p.pdcDate == None)
              && (p.halfCent <==> q.payMethod != PDC && q.amount + 0.5 == p.amount as real)
    ensures !Record(b, q).0.Created? ==> Record(b, q).1 == b
  {
    HalfIs(q.amount);
  }

  /** Which answer a payment gets otherwise, in the order the service looks. */
  lemma PayAnswers(b: Book, q: Instruction)
    ensures Record(b, q).0
         == if |b.invoices| <= q.invoice then Failed(NotFound)
            else if q.key in b.keys && q.now < b.keys[q.key].expires then Replayed(b.keys[q.key].payment)
            else if b.invoices[q.invoice].status != APPROVED && b.invoices[q.invoice].status != PARTIALLY_PAID then Failed(NotPayable)
            else if b.invoices[q.invoice].due as real < q.amount then Failed(ExceedsBalance)
            else if q.payMethod == PDC && q.pdcDate == None then Failed(Validation)
            else if q.amount < 0.5 then Failed(CheckViolation) else Created(|b.payments|)
  {
  }

  /** And a reversal, a note and a cheque. */
  lemma OtherAnswers(b: Book, invoice: nat, payment: nat, manager: bool, note: nat, a: Action, now: int)
    requires Inv(b)
    ensures |b.invoices| <= invoice || |b.payments| <= payment || b.payments[payment].invoice != invoice ==>
              Reverse(b, invoice, payment, manager).0 == Cheque(b, invoice, payment, a, manager, now).0 == Failed(NotFound)
    ensures invoice < |b.invoices| && payment < |b.payments| && b.payments[payment].invoice == invoice ==>
              Reverse(b, invoice, payment, manager).0
              == if !manager then Failed(Forbidden)
                 else if b.payments[payment].payMethod == PDC then Failed(InvalidState)
                 else if b.payments[payment].status == FAILED then Unchanged
                 else if b.payments[payment].status == SUCCESS then Done else Failed(InvalidState)
    ensures ApplyNote(b, note, invoice).0
         == if |b.notes| <= note then Failed(NotFound)
            else if b.notes[note].status == N_APPLIED then Failed(AlreadyApplied)
            else if b.notes[note].status != N_ISSUED then Failed(InvalidState)
            else if |b.invoices| <= invoice then Failed(NotFound)
            else if b.invoices[invoice].supplier != b.notes[note].supplier then Failed(SupplierMismatch)
            else if b.invoices[invoice].status != APPROVED && b.invoices[invoice].status != PARTIALLY_PAID then Failed(InvalidState)
            else if b.invoices[invoice].due < b.notes[note].total then Failed(ExceedsBalance) else Done
    ensures IssueNote(b, note).0 in {Done, Failed(NotFound), Failed(InvalidState)}
    ensures CancelNote(b, note).0 in {Done, Failed(NotFound), Failed(InvalidState)}
    ensures IssueNote(b, note).0 == Failed(NotFound) <==> |b.notes| <= note
    ensures CancelNote(b, note).0 == Failed(NotFound) <==> |b.notes| <= note
  {
    ReversesIff(b, invoice, payment, manager);
    if invoice < |b.invoices| && payment < |b.payments| && b.payments[payment].invoice == invoice {
      assert PaymentOk(b, b.payments[payment]) && InvoiceOk(b, invoice);
    }
  }

  /** A cheque action on a payment of the invoice does what the lifecycle says to the payment; clearing settles
      the invoice, and nothing else does. */
  lemma ChequeDoes(b: Book, invoice: nat, payment: nat, a: Action, manager: bool, now: int)
    requires Belongs(b, invoice, payment)
    ensures var move := Act(b.payments[payment], a, manager, b.invoices[invoice].due);
            && (move.Same? ==> Cheque(b, invoice, payment, a, manager, now) == (Unchanged, b))
            && (move.Refused? ==> Cheque(b, invoice, payment, a, manager, now) == (Failed(move.error), b))
            && (move.To? ==>
                  Cheque(b, invoice, payment, a, manager, now)
                  == (Done, b.(payments := b.payments[payment := move.payment],
                               invoices := if a.Clear? then b.invoices[invoice := Settled(b.invoices[invoice], move.payment.amount as real, now)]
                                           else b.invoices)))
  {
  }

  /** A payment is taken back by a manager, if it is a SUCCESS payment of the invoice and no cheque. */
  lemma ReversesIff(b: Book, invoice: nat, payment: nat, manager: bool)
    requires Inv(b)
    ensures Reverse(b, invoice, payment, manager).0 == Done <==>
              && invoice < |b.invoices| && payment < |b.payments| && b.payments[payment].invoice == invoice
              && manager && b.payments[payment].payMethod != PDC && b.payments[payment].status == SUCCESS
    ensures Reverse(b, invoice, payment, manager).0 == Done ==>
              var b' := Reverse(b, invoice, payment, manager).1;
              && b'.payments == b.payments[payment := b.payments[payment].(status := FAILED)]
              && b'.notes == b.notes && b'.keys == b.keys && |b'.invoices| == |b.invoices|
              && (forall i | 0 <= i < |b.invoices| && i != invoice :: b'.invoices[i] == b.invoices[i])
              && b'.invoices[invoice].paid == b.invoices[invoice].paid - b.payments[payment].amount
              && b'.invoices[invoice].due == b.invoices[invoice].due + b.payments[payment].amount
              && b'.invoices[invoice].paidAt == None
              && b'.invoices[invoice].status == if b'.invoices[invoice].paid == 0 then APPROVED else PARTIALLY_PAID
    ensures Reverse(b, invoice, payment, manager).0 != Done ==> Reverse(b, invoice, payment, manager).1 == b
  {
    if invoice < |b.invoices| && payment < |b.payments| && b.payments[payment].invoice == invoice {
      assert PaymentOk(b, b.payments[payment]) && InvoiceOk(b, invoice);
      PaidBound(b.payments, payment, |b.payments|, invoice);
    }
  }

  /** A note is applied when it is ISSUED, belongs to the supplier of the invoice and fits its balance, and
      the invoice can be paid; the balance falls by the note and nothing else moves. */
  lemma AppliesIff(b: Book, note: nat, invoice: nat)
    ensures ApplyNote(b, note, invoice).0 == Done <==>
              && note < |b.notes| && invoice < |b.invoices| && b.notes[note].status == N_ISSUED
              && b.invoices[invoice].supplier == b.notes[note].supplier
              && (b.invoices[invoice].status == APPROVED || b.invoices[invoice].status == PARTIALLY_PAID)
              && b.notes[note].total <= b.invoices[invoice].due
    ensures ApplyNote(b, note, invoice).0 == Done ==>
              var (n, inv) := (b.notes[note], b.invoices[invoice]);
              ApplyNote(b, note, invoice).1
              == b.(notes := b.notes[note := Note(n.supplier, n.total, N_APPLIED, Some(invoice))],
                    invoices := b.invoices[invoice := inv.(due := inv.due - n.total)])
    ensures ApplyNote(b, note, invoice).0 != Done ==> ApplyNote(b, note, invoice).1 == b
  {
  }

  /** The life of a note: drafts are issued, everything not applied can be withdrawn once, and an applied or
      withdrawn note never changes again. */
  lemma NoteLife(b: Book, note: nat)
    requires note < |b.notes|
    ensures IssueNote(b, note).0 == Done <==> b.notes[note].status == N_DRAFT
    ensures CancelNote(b, note).0 == Done <==> b.notes[note].status == N_DRAFT || b.notes[note].status == N_ISSUED
    ensures IssueNote(b, note).0 == Done ==> IssueNote(b, note).1.notes == b.notes[note := b.notes[note].(status := N_ISSUED)]
    ensures CancelNote(b, note).0 == Done ==> CancelNote(b, note).1.notes == b.notes[note := b.notes[note].(status := N_CANCELLED)]
  {
  }

  lemma NoteStep(b: Book, r: Request, note: nat)
    requires note < |b.notes| && b.notes[note].status in {N_APPLIED, N_CANCELLED}
    ensures note < |Serve(b, r).1.notes| && Serve(b, r).1.notes[note] == b.notes[note]
  {
  }

  /** So over any run a note lowers the balance of one invoice, once. */
  lemma {:induction false} AppliedOnce(b: Book, rs: seq<Request>, note: nat)
    requires note < |b.notes| && b.notes[note].status in {N_APPLIED, N_CANCELLED}
    ensures note < |ServeAll(b, rs).notes| && ServeAll(b, rs).notes[note] == b.notes[note]
    decreases |rs|
  {
    if rs != [] {
      NoteStep(b, rs[0], note);
      AppliedOnce(Serve(b, rs[0]).1, rs[1..], note);
    }
  }

  /** Request `j` of a run from the empty book set the status of invoice `i` by matching or approval. */
  ghost predicate Judged(rs: seq<Request>, j: nat, i: nat, verdict: InvStatus)
    requires j < |rs|
  {
    rs[j] == Judge(i, verdict) && Serve(ServeAll(EMPTY, rs[..j]), rs[j]).0 == Done
  }

  ghost predicate MatchedBy(rs: seq<Request>, n: nat, i: nat)
    requires n <= |rs|
  {
    exists j | 0 <= j < n :: Judged(rs, j, i, MATCHED) || Judged(rs, j, i, DISCREPANCY)
  }

  ghost predicate ApprovedBy(rs: seq<Request>, n: nat, i: nat)
    requires n <= |rs|
  {
    exists k | 0 <= k < n :: Judged(rs, k, i, APPROVED) && MatchedBy(rs, k, i)
  }

  lemma GateStep(b: Book, r: Request, i: nat)
    requires Inv(b) && i < |Serve(b, r).1.invoices|
    ensures var status := Serve(b, r).1.invoices[i].status;
            && (status in {MATCHED, DISCREPANCY} ==>
                  (r == Judge(i, status) && Serve(b, r).0 == Done) || (i < |b.invoices| && b.invoices[i].status == status))
            && (status in OPEN ==>
                  && i < |b.invoices|
                  && (b.invoices[i].status in OPEN
                      || (r == Judge(i, APPROVED) && Serve(b, r).0 == Done && b.invoices[i].status in {MATCHED, DISCREPANCY})))
  {
    assert i < |b.invoices| ==> InvoiceOk(b, i);
  }

  lemma {:induction false} GatedTo(rs: seq<Request>, n: nat, i: nat)
    requires n <= |rs|
    ensures Inv(ServeAll(EMPTY, rs[..n]))
    ensures i < |ServeAll(EMPTY, rs[..n]).invoices| ==>
              var status := ServeAll(EMPTY, rs[..n]).invoices[i].status;
              && (status in {MATCHED, DISCREPANCY} ==> MatchedBy(rs, n, i))
              && (status in OPEN ==> ApprovedBy(rs, n, i))
  {
    if n != 0 {
      GatedTo(rs, n - 1, i);
      OneMore(EMPTY, rs, n - 1);
      var b := ServeAll(EMPTY, rs[..n - 1]);
      ServeKeeps(b, rs[n - 1]);
      if i < |Serve(b, rs[n - 1]).1.invoices| {
        GateStep(b, rs[n - 1], i);
        var status := Serve(b, rs[n - 1]).1.invoices[i].status;
        assert rs[n - 1] == Judge(i, status) && Serve(b, rs[n - 1]).0 == Done ==> Judged(rs, n - 1, i, status);
        assert rs[n - 1] == Judge(i, APPROVED) && Serve(b, rs[n - 1]).0 == Done ==> Judged(rs, n - 1, i, APPROVED);
      }
    }
  }

  /** In every run from the empty book, an invoice with a payment was matched, and then approved, by requests
      that went through. */
  lemma {:induction false} PaidAfterApproval(rs: seq<Request>, p: nat)
    requires p < |ServeAll(EMPTY, rs).payments|
    ensures ApprovedBy(rs, |rs|, ServeAll(EMPTY, rs).payments[p].invoice)
  {
    assert rs[..|rs|] == rs;
    GatedTo(rs, |rs|, ServeAll(EMPTY, rs).payments[p].invoice);
    assert PaymentOk(ServeAll(EMPTY, rs), ServeAll(EMPTY, rs).payments[p]);
  }

  // ---- reversals ----

  /** A manager can always reverse a SUCCESS payment that is not a cheque: neither the status of the
      invoice nor the amount-paid check can stand in the way.  Reversing again changes nothing. */
  lemma ReversalNeverBlocked(b: Book, invoice: nat, payment: nat)
    requires Inv(b) && Belongs(b, invoice, payment)
    requires b.payments[payment].payMethod != PDC
    ensures b.payments[payment].status == SUCCESS ==> Reverse(b, invoice, payment, true).0 == Done
    ensures var b' := Reverse(b, invoice, payment, true).1;
            Reverse(b', invoice, payment, true) == (Unchanged, b')
  {
    assert PaymentOk(b, b.payments[payment]) && InvoiceOk(b, invoice);
    PaidBound(b.payments, payment, |b.payments|, invoice);
  }

  /** Whatever is served between a settlement and its reversal, the reversal gives back the amount
      the settlement took from each column; the due column is whole again exactly when the amount
      did not end in half a cent. */
  lemma {:induction false} ReversalUndoesSettlement(b0: Book, q: Instruction, rs: seq<Request>)
    requires Inv(b0) && q.payMethod != PDC && Record(b0, q).0.Created?
    requires var b2 := ServeAll(Record(b0, q).1, rs);
             Reverse(b2, q.invoice, |b0.payments|, true).0 == Done
    ensures var b1 := Record(b0, q).1;
            var b2 := ServeAll(b1, rs);
            var b3 := Reverse(b2, q.invoice, |b0.payments|, true).1;
            var i := q.invoice;
            && i < |b2.invoices| && i < |b3.invoices|
            && b3.invoices[i].paid - b2.invoices[i].paid == b0.invoices[i].paid - b1.invoices[i].paid
            && (b3.invoices[i].due - b2.invoices[i].due == b0.invoices[i].due - b1.invoices[i].due <==> !EndsInHalf(q.amount))
  {
    var b1, i := Record(b0, q).1, q.invoice;
    var b2 := ServeAll(b1, rs);
    assert InvoiceOk(b0, i);
    PaidBound(b0.payments, |b0.payments|, |b0.payments|, i);
    SettledMoves(b0.invoices[i], q.amount, q.now);
    RunStays(b1, rs, |b0.payments|);
    RecordKeeps(b0, q);
    RunKeeps(b1, rs);
    assert PaymentOk(b2, b2.payments[|b0.payments|]) && InvoiceOk(b2, i);
    UnsettledMoves(b2.invoices[i], b2.payments[|b0.payments|].amount);
  }

  /** Reversed at once, a settlement leaves the invoice row as it was before it, status and
      `paid_at` included, exactly when the amount did not end in half a cent. */
  lemma ReversalRestoresRow(b: Book, q: Instruction)
    requires Inv(b) && q.payMethod != PDC && Record(b, q).0.Created?
    ensures var b1 := Record(b, q).1;
            var b2 := Reverse(b1, q.invoice, |b.payments|, true).1;
            && Reverse(b1, q.invoice, |b.payments|, true).0 == Done
            && q.invoice < |b2.invoices|
            && (b2.invoices[q.invoice] == b.invoices[q.invoice] <==> !EndsInHalf(q.amount))
  {
    var b1, inv := Record(b, q).1, b.invoices[q.invoice];
    assert InvoiceOk(b, q.invoice);
    PaidBound(b.payments, |b.payments|, |b.payments|, q.invoice);
    SettledMoves(inv, q.amount, q.now);
    RecordKeeps(b, q);
    ReversalNeverBlocked(b1, q.invoice, |b.payments|);
    UnsettledMoves(b1.invoices[q.invoice], Cents(q.amount));
  }

  /** Applying a note never makes an invoice PAID: it lowers the balance and touches nothing else. */
  lemma NoteNeverPays(b: Book, note: nat, invoice: nat)
    requires Inv(b) && ApplyNote(b, note, invoice).0 == Done
    ensures var b' := ApplyNote(b, note, invoice).1;
            var inv, inv' := b.invoices[invoice], b'.invoices[invoice];
            && inv'.paid == inv.paid && inv'.paidAt == inv.paidAt && inv'.status == inv.status != PAID
            && (inv'.due == 0 <==> Exhausted(b', invoice))
  {
    assert InvoiceOk(b, invoice);
  }

  // ---- an invoice whose balance a note used up ----

  /** Nothing is due any more, and yet the invoice is not PAID. */
  predicate Exhausted(b: Book, invoice: nat) {
    invoice < |b.invoices| && b.invoices[invoice].due == 0 && b.invoices[invoice].status in {APPROVED, PARTIALLY_PAID}
  }

  /** A reversal of a payment of the invoice. */
  predicate Undoes(r: Request, invoice: nat) {
    r.Undo? && r.invoice == invoice
  }

  /** The one request that changes such an invoice is a reversal that goes through: payments exceed the
      balance, and so do clearing cheques and further notes. */
  lemma ExhaustedStep(b: Book, r: Request, invoice: nat)
    requires Inv(b) && Exhausted(b, invoice)
    ensures invoice < |Serve(b, r).1.invoices|
    ensures Serve(b, r).1.invoices[invoice] != b.invoices[invoice] <==> Undoes(r, invoice) && Serve(b, r).0 == Done
  {
    match r
    case ActOn(i, p, a, m, now) =>
      if i == invoice && Belongs(b, i, p) {
        assert PaymentOk(b, b.payments[p]);
      }
    case Undo(i, p, m) =>
      if i == invoice && Belongs(b, i, p) {
        assert PaymentOk(b, b.payments[p]);
      }
    case Pay(q) =>
      if q.invoice == invoice {
        NothingToPay(b, q, invoice);
      }
    case _ =>
  }

  lemma NothingToPay(b: Book, q: Instruction, invoice: nat)
    requires Exhausted(b, invoice) && q.invoice == invoice
    ensures Record(b, q).1 == b
  {
    if q.amount <= 0.0 {
      assert q.amount + 0.5 < 1.0;
    }
  }

  /** Over runs: while no reversal of its payments is asked for, nothing changes the invoice. */
  lemma {:induction false} ExhaustedStays(b: Book, rs: seq<Request>, invoice: nat)
    requires Inv(b) && Exhausted(b, invoice) && forall r <- rs :: !Undoes(r, invoice)
    ensures invoice < |ServeAll(b, rs).invoices| && ServeAll(b, rs).invoices[invoice] == b.invoices[invoice]
    decreases |rs|
  {
    if rs != [] {
      assert rs[0] in rs;
      ExhaustedStep(b, rs[0], invoice);
      ServeKeeps(b, rs[0]);
      ExhaustedStays(Serve(b, rs[0]).1, rs[1..], invoice);
    }
  }

  /** A payment that can be taken back. */
  predicate Reversible(b: Book, invoice: nat, payment: nat) {
    Belongs(b, invoice, payment) && b.payments[payment].payMethod != PDC && b.payments[payment].status == SUCCESS
  }

  /** A new payment in cash of what is due. */
  function InCash(invoice: nat, amount: int, key: string, now: int): Instruction {
    Instruction(invoice, amount as real, key, CASH, None, now)
  }

  /** Taking a payment back reopens the invoice, and paying the amount again settles it. */
  lemma {:induction false} ExhaustedReopens(b: Book, invoice: nat, payment: nat, key: string, now: int)
    requires Inv(b) && Exhausted(b, invoice) && Reversible(b, invoice, payment) && !Live(b.keys, key, now)
    ensures var b' := ServeAll(b, [Undo(invoice, payment, true), Pay(InCash(invoice, b.payments[payment].amount, key, now))]);
            invoice < |b'.invoices| && b'.invoices[invoice].status == PAID
  {
    var undo := Undo(invoice, payment, true);
    var pay := Pay(InCash(invoice, b.payments[payment].amount, key, now));
    var b1 := Serve(b, undo).1;
    ReversalNeverBlocked(b, invoice, payment);
    assert InvoiceOk(b, invoice) && PaymentOk(b, b.payments[payment]);
    WholeCents(b.payments[payment].amount);
    WholeCents(0);
    assert ServeAll(b, [undo, pay]) == ServeAll(b1, [pay]) == Serve(b1, pay).1;
  }

  /** Some run from here makes the invoice PAID. */
  ghost predicate CanBePaid(b: Book, invoice: nat) {
    exists rs :: PaidAfter(b, rs, invoice)
  }

  predicate PaidAfter(b: Book, rs: seq<Request>, invoice: nat) {
    invoice < |ServeAll(b, rs).invoices| && ServeAll(b, rs).invoices[invoice].status == PAID
  }

  predicate SameAfter(b: Book, rs: seq<Request>, invoice: nat)
    requires invoice < |b.invoices|
  {
    invoice < |ServeAll(b, rs).invoices| && ServeAll(b, rs).invoices[invoice] == b.invoices[invoice]
  }

  /** No payment of the invoice can be taken back: there are none, or only cheques. */
  ghost predicate Irreversible(b: Book, invoice: nat) {
    forall p: nat :: !Reversible(b, invoice, p)
  }

  /** Only a new payment can be taken back where an old one could not. */
  lemma StaysIrreversible(b: Book, r: Request, invoice: nat, p: nat)
    requires invoice < |b.invoices| && !Reversible(b, invoice, p)
    requires r.Pay? && r.instruction.invoice == invoice ==> Record(b, r.instruction).1 == b
    ensures !Reversible(Serve(b, r).1, invoice, p)
  {
  }

  lemma IrreversibleStep(b: Book, r: Request, invoice: nat)
    requires Inv(b) && Exhausted(b, invoice) && Irreversible(b, invoice)
    ensures invoice < |Serve(b, r).1.invoices| && Serve(b, r).1.invoices[invoice] == b.invoices[invoice]
    ensures Irreversible(Serve(b, r).1, invoice)
  {
    ExhaustedStep(b, r, invoice);
    if r.Undo? {
      assert !Reversible(b, invoice, r.payment);
    }
    if r.Pay? && r.instruction.invoice == invoice {
      NothingToPay(b, r.instruction, invoice);
    }
    forall p: nat
      ensures !Reversible(Serve(b, r).1, invoice, p)
    {
      StaysIrreversible(b, r, invoice, p);
    }
  }

  lemma {:induction false} IrreversibleRun(b: Book, rs: seq<Request>, invoice: nat)
    requires Inv(b) && Exhausted(b, invoice) && Irreversible(b, invoice)
    ensures SameAfter(b, rs, invoice)
    decreases |rs|
  {
    if rs != [] {
      IrreversibleStep(b, rs[0], invoice);
      ServeKeeps(b, rs[0]);
      IrreversibleRun(Serve(b, rs[0]).1, rs[1..], invoice);
    }
  }

  /** An invoice that is APPROVED has no payment that could be taken back. */
  lemma ApprovedIsIrreversible(b: Book, invoice: nat)
    requires Inv(b) && invoice < |b.invoices| && b.invoices[invoice].status == APPROVED
    ensures Irreversible(b, invoice)
  {
    assert InvoiceOk(b, invoice);
    forall p: nat
      ensures !Reversible(b, invoice, p)
    {
      if Reversible(b, invoice, p) {
        assert PaymentOk(b, b.payments[p]);
        PaidBound(b.payments, p, |b.payments|, invoice);
      }
    }
  }

  /** An exhausted invoice stays as it is for good, whatever is asked, exactly when none of its payments
      can be taken back, as when a note used up an APPROVED invoice or one paid by cheques only; in every
      other case some run still makes it PAID. */
  lemma ExhaustedForGood(b: Book, invoice: nat)
    requires Inv(b) && Exhausted(b, invoice)
    ensures (forall rs :: SameAfter(b, rs, invoice)) <==> Irreversible(b, invoice)
    ensures CanBePaid(b, invoice) <==> !Irreversible(b, invoice)
    ensures b.invoices[invoice].status == APPROVED ==> Irreversible(b, invoice)
  {
    if b.invoices[invoice].status == APPROVED {
      ApprovedIsIrreversible(b, invoice);
    }
    if Irreversible(b, invoice) {
      forall rs
        ensures SameAfter(b, rs, invoice) && !PaidAfter(b, rs, invoice)
      {
        IrreversibleRun(b, rs, invoice);
      }
    } else {
      var p: nat :| Reversible(b, invoice, p);
      var now := if "" in b.keys then b.keys[""].expires else 0;
      var rs := [Undo(invoice, p, true), Pay(InCash(invoice, b.payments[p].amount, "", now))];
      ExhaustedReopens(b, invoice, p, "", now);
      assert PaidAfter(b, rs, invoice) && !SameAfter(b, rs, invoice);
    }
  }

  /** The same payment and the same note in the two orders leave the same balances, but only the
      order that ends with the payment leaves a PAID invoice. */
  lemma OrderDecidesPaid(inv: Invoice, amount: Positive, note: Positive, now: int)
    requires Standing(inv) && inv.status in {APPROVED, PARTIALLY_PAID} && 0 <= inv.paid
    requires amount + note == inv.due
    ensures var noteLast := var s := Settled(inv, amount as real, now); s.(due := s.due - note);
            var noteFirst := Settled(inv.(due := inv.due - note), amount as real, now);
            && noteLast.paid == noteFirst.paid && noteLast.due == noteFirst.due == 0
            && noteLast.status == PARTIALLY_PAID && noteFirst.status == PAID
  {
    WholeCents(amount);
    SettledMoves(inv, amount as real, now);
    SettledMoves(inv.(due := inv.due - note), amount as real, now);
  }

  /** One cent over: paying 0.5 cent twice on a one-cent invoice books two cents paid. */
  lemma HalfCentsOverpay()
    ensures var inv := Invoice(0, 1, 0, 1, APPROVED, None);
            var once := Settled(inv, 0.5, 0);
            once.paid == 1 && once.due == 1
            && Settled(once, 0.5, 0).paid == 2 > inv.total
  {
    CentsOf(0.5);
    FloorIs(0.5, 0);
    FloorIs(1.0, 1);
    FloorIs(1.5, 1);
    FloorIs(2.0, 2);
  }
}
