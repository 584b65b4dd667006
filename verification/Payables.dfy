/** Supplier invoices: settlement, cheque clearing, reversal and debit notes, with the balance kept
    in stored columns. */
module Payables {
  import opened Levels
  import opened Rounding
  import opened Cheques

  datatype InvStatus = ENTERED | MATCHED | DISCREPANCY | APPROVED | PARTIALLY_PAID | PAID | VOID

  /** Amounts in cents.  ENTERED stands for RECEIVED and PENDING_MATCHING. */
  datatype Invoice = Invoice(supplier: nat, total: nat, paid: int, due: int, status: InvStatus, paidAt: Option<int>)

  datatype NoteStatus = N_DRAFT | N_ISSUED | N_APPLIED | N_CANCELLED

  datatype Note = Note(supplier: nat, total: Positive, status: NoteStatus, applied: Option<nat>)

  datatype Book = Book(invoices: seq<Invoice>, payments: seq<Payment>, notes: seq<Note>, keys: map<string, KeyRow>)

  const EMPTY := Book([], [], [], map[])

  const OPEN := {APPROVED, PARTIALLY_PAID, PAID}

  /** `amount` is the requested Decimal, in cents; nothing limits its decimal places. */
  datatype Instruction = Instruction(invoice: nat, amount: real, key: string, payMethod: Method, pdcDate: Option<int>, now: int)

  // ---- the stored balance ----

  function Later(inv: Invoice, now: int): Invoice {
    if inv.due == 0 then inv.(status := PAID, paidAt := if inv.paidAt.None? then Some(now) else inv.paidAt)
    else if inv.status == APPROVED then inv.(status := PARTIALLY_PAID)
    else inv
  }

  /** `_settle_invoice`: both columns are rounded to cents on their own. */
  function Settled(inv: Invoice, amount: real, now: int): Invoice {
    var rest := inv.due as real - amount;
    Later(inv.(paid := Cents(inv.paid as real + amount), due := Cents(if rest < 0.0 then 0.0 else rest)), now)
  }

  /** `_reverse_settlement`. */
  function Unsettled(inv: Invoice, amount: int): Invoice {
    var back := inv.(paid := inv.paid - amount, due := inv.due + amount);
    if back.due <= 0 then back
    else
      var reopened := back.(paidAt := None, status := if back.status == PAID then PARTIALLY_PAID else back.status);
      if reopened.status == PARTIALLY_PAID && reopened.paid == 0 then reopened.(status := APPROVED) else reopened
  }

  // ---- the requests ----

  function RecordRefusal(b: Book, q: Instruction): Option<Error>
    requires q.invoice < |b.invoices|
  {
    var inv := b.invoices[q.invoice];
    if inv.status !in {APPROVED, PARTIALLY_PAID} then Some(NotPayable)
    else if q.amount > inv.due as real then Some(ExceedsBalance)
    else if q.payMethod == PDC && q.pdcDate.None? then Some(Validation)
    else if Cents(q.amount) <= 0 then Some(CheckViolation)
    else None
  }

  function NewPayment(q: Instruction): Payment
    requires 0 < Cents(q.amount)
  {
    if q.payMethod == PDC
    then Payment(q.invoice, Cents(q.amount), false, PDC, PENDING, Some(RECEIVED), q.pdcDate)
    else Payment(q.invoice, Cents(q.amount), EndsInHalf(q.amount), q.payMethod, SUCCESS, None, None)
  }

  function Recorded(b: Book, q: Instruction): Book
    requires q.invoice < |b.invoices| && 0 < Cents(q.amount)
  {
    var inv, id := b.invoices[q.invoice], |b.payments|;
    b.(payments := b.payments + [NewPayment(q)],
       keys := b.keys[q.key := KeyRow(id, q.now + KEY_LIFE)],
       invoices := if q.payMethod == PDC then b.invoices
                   else b.invoices[q.invoice := Settled(inv, q.amount, q.now)])
  }

  function Record(b: Book, q: Instruction): (Outcome, Book) {
    if q.invoice >= |b.invoices| then (Failed(NotFound), b)
    else if Live(b.keys, q.key, q.now) then (Replayed(b.keys[q.key].payment), b)
    else
      var refusal := RecordRefusal(b, q);
      if refusal.Some? then (Failed(refusal.value), b) else (Created(|b.payments|), Recorded(b, q))
  }

  predicate Belongs(b: Book, invoice: nat, payment: nat) {
    invoice < |b.invoices| && payment < |b.payments| && b.payments[payment].invoice == invoice
  }

  function Cheque(b: Book, invoice: nat, payment: nat, a: Action, manager: bool, now: int): (Outcome, Book) {
    if !Belongs(b, invoice, payment) then (Failed(NotFound), b)
    else match Act(b.payments[payment], a, manager, b.invoices[invoice].due)
      case Same => (Unchanged, b)
      case Refused(e) => (Failed(e), b)
      case To(p) =>
        (Done, b.(payments := b.payments[payment := p],
                  invoices := if a != Clear then b.invoices
                              else b.invoices[invoice := Settled(b.invoices[invoice], p.amount as real, now)]))
  }

  function Reverse(b: Book, invoice: nat, payment: nat, manager: bool): (Outcome, Book) {
    if !Belongs(b, invoice, payment) then (Failed(NotFound), b)
    else if !manager then (Failed(Forbidden), b)
    else
      var p, inv := b.payments[payment], b.invoices[invoice];
      if p.payMethod == PDC then (Failed(InvalidState), b)
      else if p.status == FAILED then (Unchanged, b)
      else if p.status != SUCCESS || inv.status !in OPEN then (Failed(InvalidState), b)
      else if p.amount > inv.paid then (Failed(ExceedsBalance), b)
      else
        (Done, b.(payments := b.payments[payment := p.(status := FAILED)],
                  invoices := b.invoices[invoice := Unsettled(inv, p.amount)]))
  }

  function IssueNote(b: Book, note: nat): (Outcome, Book) {
    if note >= |b.notes| then (Failed(NotFound), b)
    else if b.notes[note].status != N_DRAFT then (Failed(InvalidState), b)
    else (Done, b.(notes := b.notes[note := b.notes[note].(status := N_ISSUED)]))
  }

  function ApplyNote(b: Book, note: nat, invoice: nat): (Outcome, Book) {
    if note >= |b.notes| then (Failed(NotFound), b)
    else
      var n := b.notes[note];
      if n.status == N_APPLIED then (Failed(AlreadyApplied), b)
      else if n.status != N_ISSUED then (Failed(InvalidState), b)
      else if invoice >= |b.invoices| then (Failed(NotFound), b)
      else
        var inv := b.invoices[invoice];
        if inv.supplier != n.supplier then (Failed(SupplierMismatch), b)
        else if inv.status !in {APPROVED, PARTIALLY_PAID} then (Failed(InvalidState), b)
        else if n.total > inv.due then (Failed(ExceedsBalance), b)
        else
          (Done, b.(invoices := b.invoices[invoice := inv.(due := inv.due - n.total)],
                    notes := b.notes[note := n.(status := N_APPLIED, applied := Some(invoice))]))
  }

  function CancelNote(b: Book, note: nat): (Outcome, Book) {
    if note >= |b.notes| then (Failed(NotFound), b)
    else if b.notes[note].status in {N_APPLIED, N_CANCELLED} then (Failed(InvalidState), b)
    else (Done, b.(notes := b.notes[note := b.notes[note].(status := N_CANCELLED)]))
  }

  /** Three-way matching ends in MATCHED or DISCREPANCY; both can be approved, and a discrepancy can be
      matched again. */
  function Review(b: Book, invoice: nat, verdict: InvStatus): (Outcome, Book) {
    if invoice >= |b.invoices| then (Failed(NotFound), b)
    else
      var inv := b.invoices[invoice];
      if (inv.status in {ENTERED, DISCREPANCY} && verdict in {MATCHED, DISCREPANCY})
         || (inv.status in {MATCHED, DISCREPANCY} && verdict == APPROVED)
      then (Done, b.(invoices := b.invoices[invoice := inv.(status := verdict)]))
      else (Failed(InvalidState), b)
  }

  datatype Request =
    | Enter(supplier: nat, total: nat)
    | Judge(invoice: nat, verdict: InvStatus)
    | Pay(instruction: Instruction)
    | ActOn(invoice: nat, payment: nat, action: Action, manager: bool, now: int)
    | Undo(invoice: nat, payment: nat, manager: bool)
    | DraftNote(supplier: nat, amount: Positive)
    | Issue(note: nat)
    | Apply(note: nat, invoice: nat)
    | Withdraw(note: nat)

  function Serve(b: Book, r: Request): (Outcome, Book) {
    match r
    case Enter(s, t) => (Done, b.(invoices := b.invoices + [Invoice(s, t, 0, t, ENTERED, None)]))
    case Judge(i, v) => Review(b, i, v)
    case Pay(q) => Record(b, q)
    case ActOn(i, p, a, m, now) => Cheque(b, i, p, a, m, now)
    case Undo(i, p, m) => Reverse(b, i, p, m)
    case DraftNote(s, t) => (Done, b.(notes := b.notes + [Note(s, t, N_DRAFT, None)]))
    case Issue(n) => IssueNote(b, n)
    case Apply(n, i) => ApplyNote(b, n, i)
    case Withdraw(n) => CancelNote(b, n)
  }

  function ServeAll(b: Book, rs: seq<Request>): Book
    decreases |rs|
  {
    if rs == [] then b else ServeAll(Serve(b, rs[0]).1, rs[1..])
  }

  // ---- the derived balance ----

  function AppliedBy(n: Note, invoice: nat): int {
    if n.status == N_APPLIED && n.applied == Some(invoice) then n.total else 0
  }

  function AppliedTo(ns: seq<Note>, n: nat, invoice: nat): int
    requires n <= |ns|
  {
    if n == 0 then 0 else AppliedTo(ns, n - 1, invoice) + AppliedBy(ns[n - 1], invoice)
  }

  /** Debit notes applied to an invoice. */
  function Applied(b: Book, invoice: nat): int {
    AppliedTo(b.notes, |b.notes|, invoice)
  }

  function HalfBy(p: Payment, invoice: nat): int {
    if p.invoice == invoice && p.halfCent then 1 else 0
  }

  function HalvesTo(ps: seq<Payment>, n: nat, invoice: nat): int
    requires n <= |ps|
  {
    if n == 0 then 0 else HalvesTo(ps, n - 1, invoice) + HalfBy(ps[n - 1], invoice)
  }

  /** Settlements of an invoice whose requested amount ended in half a cent. */
  function Halves(b: Book, invoice: nat): int {
    HalvesTo(b.payments, |b.payments|, invoice)
  }

  /** The balance recomputed from the documents: total less SUCCESS payments less applied notes. */
  function Derived(b: Book, invoice: nat): int
    requires invoice < |b.invoices|
  {
    b.invoices[invoice].total - Paid(b.payments, invoice) - Applied(b, invoice)
  }

  predicate Standing(inv: Invoice) {
    && (inv.status !in OPEN || inv.status == APPROVED ==> inv.paid == 0 && inv.paidAt.None?)
    && (inv.status == PARTIALLY_PAID ==> inv.paid > 0 && inv.paidAt.None?)
    && (inv.status == PAID ==> inv.paid > 0 && inv.due == 0 && inv.paidAt.Some?)
  }

  ghost predicate InvoiceOk(b: Book, i: nat)
    requires i < |b.invoices|
  {
    && b.invoices[i].paid == Paid(b.payments, i)
    && 0 <= b.invoices[i].due == Derived(b, i) + Halves(b, i)
    && Standing(b.invoices[i])
  }

  predicate PaymentOk(b: Book, p: Payment) {
    Paired(p) && 0 < p.amount && p.invoice < |b.invoices| && b.invoices[p.invoice].status in OPEN
  }

  predicate NoteOk(b: Book, n: Note) {
    (n.status == N_APPLIED <==> n.applied.Some?)
    && (n.applied.Some? ==> n.applied.value < |b.invoices| && b.invoices[n.applied.value].supplier == n.supplier)
  }

  ghost predicate Inv(b: Book) {
    && (forall i | 0 <= i < |b.invoices| :: InvoiceOk(b, i))
    && (forall i | 0 <= i < |b.payments| :: PaymentOk(b, b.payments[i]))
    && (forall i | 0 <= i < |b.notes| :: NoteOk(b, b.notes[i]))
    && (forall key <- b.keys :: b.keys[key].payment < |b.payments|)
  }

  lemma {:induction false} AppliedSame(a: seq<Note>, b: seq<Note>, n: nat, invoice: nat)
    requires n <= |a| && n <= |b|
    requires forall i | 0 <= i < n :: AppliedBy(a[i], invoice) == AppliedBy(b[i], invoice)
    ensures AppliedTo(a, n, invoice) == AppliedTo(b, n, invoice)
  {
    if n != 0 {
      AppliedSame(a, b, n - 1, invoice);
    }
  }

  lemma {:induction false} AppliedUpdate(ns: seq<Note>, i: nat, x: Note, n: nat, invoice: nat)
    requires i < n <= |ns|
    ensures AppliedTo(ns[i := x], n, invoice) == AppliedTo(ns, n, invoice) - AppliedBy(ns[i], invoice) + AppliedBy(x, invoice)
  {
    if i == n - 1 {
      AppliedSame(ns[i := x], ns, i, invoice);
    } else {
      AppliedUpdate(ns, i, x, n - 1, invoice);
    }
  }

  lemma {:induction false} HalvesSame(a: seq<Payment>, b: seq<Payment>, n: nat, invoice: nat)
    requires n <= |a| && n <= |b|
    requires forall i | 0 <= i < n :: HalfBy(a[i], invoice) == HalfBy(b[i], invoice)
    ensures HalvesTo(a, n, invoice) == HalvesTo(b, n, invoice)
  {
    if n != 0 {
      HalvesSame(a, b, n - 1, invoice);
    }
  }

  lemma {:induction false} HalvesNonNegative(ps: seq<Payment>, n: nat, invoice: nat)
    requires n <= |ps|
    ensures 0 <= HalvesTo(ps, n, invoice)
  {
    if n != 0 {
      HalvesNonNegative(ps, n - 1, invoice);
    }
  }

  /** Settling moves the stored columns by the rounded amount, and the due column by a cent less
      when the amount ends in half a cent. */
  lemma SettledMoves(inv: Invoice, amount: real, now: int)
    requires Standing(inv) && inv.status in {APPROVED, PARTIALLY_PAID} && 0 <= inv.paid
    requires amount <= inv.due as real && 0 < Cents(amount)
    ensures var inv' := Settled(inv, amount, now);
            && Standing(inv') && inv'.status in OPEN
            && inv'.(paid := inv.paid, due := inv.due, status := inv.status, paidAt := inv.paidAt) == inv
            && inv'.paid == inv.paid + Cents(amount)
            && 0 <= inv'.due == inv.due - Cents(amount) + (if EndsInHalf(amount) then 1 else 0)
            && inv'.status == (if inv'.due == 0 then PAID else PARTIALLY_PAID)
            && inv'.paidAt == if inv'.due == 0 then Some(now) else None
  {
    CentsAbove(inv.paid, amount);
    RoundedTwice(inv.due, amount);
    CentsFit(amount, inv.due);
  }

  /** A payment comes in, and its invoice follows. */
  lemma PaymentAdded(b: Book, p: Payment, inv: Invoice, key: string, expires: int)
    requires Inv(b) && PaymentOk(b, p)
    requires inv.supplier == b.invoices[p.invoice].supplier && inv.total == b.invoices[p.invoice].total
    requires Standing(inv) && inv.status in OPEN && 0 <= inv.due
    requires inv.paid - b.invoices[p.invoice].paid == PaidBy(p, p.invoice)
    requires inv.paid + inv.due == b.invoices[p.invoice].paid + b.invoices[p.invoice].due + HalfBy(p, p.invoice)
    ensures Inv(b.(payments := b.payments + [p], invoices := b.invoices[p.invoice := inv],
                   keys := b.keys[key := KeyRow(|b.payments|, expires)]))
  {
    var b' := b.(payments := b.payments + [p], invoices := b.invoices[p.invoice := inv],
                 keys := b.keys[key := KeyRow(|b.payments|, expires)]);
    forall i | 0 <= i < |b'.invoices|
      ensures InvoiceOk(b', i)
    {
      assert InvoiceOk(b, i);
      PaidAppend(b.payments, p, i);
      HalvesSame(b'.payments, b.payments, |b.payments|, i);
    }
    forall i | 0 <= i < |b'.payments|
      ensures PaymentOk(b', b'.payments[i])
    {
      assert i < |b.payments| ==> PaymentOk(b, b.payments[i]);
    }
    forall i | 0 <= i < |b'.notes|
      ensures NoteOk(b', b'.notes[i])
    {
      assert NoteOk(b, b.notes[i]);
    }
  }

  lemma RecordKeeps(b: Book, q: Instruction)
    requires Inv(b)
    ensures Inv(Record(b, q).1)
  {
    if Record(b, q).0.Created? {
      var p, inv := NewPayment(q), b.invoices[q.invoice];
      assert InvoiceOk(b, q.invoice);
      PaidBound(b.payments, |b.payments|, |b.payments|, q.invoice);
      SettledMoves(inv, q.amount, q.now);
      if q.payMethod == PDC {
        PaymentAdded(b, p, inv, q.key, q.now + KEY_LIFE);
        assert b.invoices[q.invoice := inv] == b.invoices;
      } else {
        PaymentAdded(b, p, Settled(inv, q.amount, q.now), q.key, q.now + KEY_LIFE);
      }
    }
  }

  /** One payment takes new statuses, and its invoice follows: by `moved` in what is paid. */
  lemma PaymentMoves(b: Book, invoice: nat, payment: nat, p: Payment, inv: Invoice)
    requires Inv(b) && Belongs(b, invoice, payment)
    requires PaymentOk(b, p) && p.invoice == invoice && p.halfCent == b.payments[payment].halfCent
    requires inv.supplier == b.invoices[invoice].supplier && inv.total == b.invoices[invoice].total
    requires Standing(inv) && inv.status in OPEN && 0 <= inv.due
    requires inv.paid - b.invoices[invoice].paid == PaidBy(p, invoice) - PaidBy(b.payments[payment], invoice)
    requires inv.paid + inv.due == b.invoices[invoice].paid + b.invoices[invoice].due
    ensures Inv(b.(payments := b.payments[payment := p], invoices := b.invoices[invoice := inv]))
  {
    var b' := b.(payments := b.payments[payment := p], invoices := b.invoices[invoice := inv]);
    forall i | 0 <= i < |b'.invoices|
      ensures InvoiceOk(b', i)
    {
      assert InvoiceOk(b, i);
      PaidUpdate(b.payments, payment, p, |b.payments|, i);
      HalvesSame(b'.payments, b.payments, |b.payments|, i);
    }
    forall i | 0 <= i < |b'.payments|
      ensures PaymentOk(b', b'.payments[i])
    {
      assert PaymentOk(b, b.payments[i]);
    }
    forall i | 0 <= i < |b'.notes|
      ensures NoteOk(b', b'.notes[i])
    {
      assert NoteOk(b, b.notes[i]);
    }
  }

  lemma ChequeKeeps(b: Book, invoice: nat, payment: nat, a: Action, manager: bool, now: int)
    requires Inv(b)
    ensures Inv(Cheque(b, invoice, payment, a, manager, now).1)
  {
    if Cheque(b, invoice, payment, a, manager, now).0.Done? {
      var was, inv := b.payments[payment], b.invoices[invoice];
      assert PaymentOk(b, was) && InvoiceOk(b, invoice);
      ActKeepsPairs(was, a, manager, inv.due);
      var p := Act(was, a, manager, inv.due).payment;
      if a == Clear {
        WholeCents(p.amount);
        PaidBound(b.payments, |b.payments|, |b.payments|, invoice);
        SettledMoves(inv, p.amount as real, now);
        PaymentMoves(b, invoice, payment, p, Settled(inv, p.amount as real, now));
      } else {
        PaymentMoves(b, invoice, payment, p, inv);
        assert b.invoices[invoice := inv] == b.invoices;
      }
    }
  }

  lemma UnsettledMoves(inv: Invoice, amount: Positive)
    requires Standing(inv) && inv.status in OPEN && amount <= inv.paid && 0 <= inv.due
    ensures var inv' := Unsettled(inv, amount);
            && Standing(inv') && inv'.status in {APPROVED, PARTIALLY_PAID}
            && inv'.(paid := inv.paid, due := inv.due, status := inv.status, paidAt := inv.paidAt) == inv
            && inv'.paid == inv.paid - amount && inv'.due == inv.due + amount
  {
  }

  lemma ReverseKeeps(b: Book, invoice: nat, payment: nat, manager: bool)
    requires Inv(b)
    ensures Inv(Reverse(b, invoice, payment, manager).1)
  {
    if Reverse(b, invoice, payment, manager).0.Done? {
      var was, inv := b.payments[payment], b.invoices[invoice];
      assert PaymentOk(b, was) && InvoiceOk(b, invoice);
      UnsettledMoves(inv, was.amount);
      PaymentMoves(b, invoice, payment, was.(status := FAILED), Unsettled(inv, was.amount));
    }
  }

  lemma ApplyKeeps(b: Book, note: nat, invoice: nat)
    requires Inv(b)
    ensures Inv(ApplyNote(b, note, invoice).1)
  {
    if ApplyNote(b, note, invoice).0.Done? {
      var b', n := ApplyNote(b, note, invoice).1, b.notes[note];
      assert NoteOk(b, n);
      forall i | 0 <= i < |b'.invoices|
        ensures InvoiceOk(b', i)
      {
        assert InvoiceOk(b, i);
        AppliedUpdate(b.notes, note, b'.notes[note], |b.notes|, i);
      }
      forall i | 0 <= i < |b'.payments|
        ensures PaymentOk(b', b'.payments[i])
      {
        assert PaymentOk(b, b.payments[i]);
      }
      forall i | 0 <= i < |b'.notes|
        ensures NoteOk(b', b'.notes[i])
      {
        assert NoteOk(b, b.notes[i]);
      }
    }
  }

  /** A note changes status without being applied. */
  lemma NoteMoves(b: Book, note: nat, status: NoteStatus)
    requires Inv(b) && note < |b.notes|
    requires N_APPLIED !in {b.notes[note].status, status}
    ensures Inv(b.(notes := b.notes[note := b.notes[note].(status := status)]))
  {
    var b' := b.(notes := b.notes[note := b.notes[note].(status := status)]);
    assert NoteOk(b, b.notes[note]);
    forall i | 0 <= i < |b'.invoices|
      ensures InvoiceOk(b', i)
    {
      assert InvoiceOk(b, i);
      AppliedUpdate(b.notes, note, b'.notes[note], |b.notes|, i);
    }
    assert forall i | 0 <= i < |b'.payments| :: PaymentOk(b, b.payments[i]) ==> PaymentOk(b', b.payments[i]);
    assert forall i | 0 <= i < |b'.notes| :: NoteOk(b, b.notes[i]) ==> NoteOk(b', b'.notes[i]);
  }

  lemma DraftKeeps(b: Book, supplier: nat, total: Positive)
    requires Inv(b)
    ensures Inv(b.(notes := b.notes + [Note(supplier, total, N_DRAFT, None)]))
  {
    var b' := b.(notes := b.notes + [Note(supplier, total, N_DRAFT, None)]);
    forall i | 0 <= i < |b'.invoices|
      ensures InvoiceOk(b', i)
    {
      assert InvoiceOk(b, i);
      AppliedSame(b'.notes, b.notes, |b.notes|, i);
    }
    assert forall i | 0 <= i < |b'.payments| :: PaymentOk(b, b.payments[i]) ==> PaymentOk(b', b.payments[i]);
    assert forall i | 0 <= i < |b.notes| :: NoteOk(b, b.notes[i]) ==> NoteOk(b', b'.notes[i]);
  }

  lemma ReviewKeeps(b: Book, invoice: nat, verdict: InvStatus)
    requires Inv(b)
    ensures Inv(Review(b, invoice, verdict).1)
  {
    var b' := Review(b, invoice, verdict).1;
    assert forall i | 0 <= i < |b.invoices| :: InvoiceOk(b, i) ==> InvoiceOk(b', i);
    assert forall i | 0 <= i < |b'.payments| :: PaymentOk(b, b.payments[i]) ==> PaymentOk(b', b.payments[i]);
    assert forall i | 0 <= i < |b.notes| :: NoteOk(b, b.notes[i]) ==> NoteOk(b', b'.notes[i]);
  }

  /** Matching judges an invoice that is entered or in discrepancy, approval one that was matched, with or
      without a discrepancy; nothing else about the invoice changes. */
  lemma JudgesIff(b: Book, invoice: nat, verdict: InvStatus)
    requires invoice < |b.invoices|
    ensures var status := b.invoices[invoice].status;
            Review(b, invoice, verdict).0 == Done
            <==> ((verdict == MATCHED || verdict == DISCREPANCY) && (status == ENTERED || status == DISCREPANCY))
                 || (verdict == APPROVED && (status == MATCHED || status == DISCREPANCY))
    ensures Review(b, invoice, verdict).1
         == if Review(b, invoice, verdict).0 == Done
            then b.(invoices := b.invoices[invoice := b.invoices[invoice].(status := verdict)]) else b
  {
  }

  lemma EnterKeeps(b: Book, supplier: nat, total: nat)
    requires Inv(b)
    ensures Inv(b.(invoices := b.invoices + [Invoice(supplier, total, 0, total, ENTERED, None)]))
  {
    var b' := b.(invoices := b.invoices + [Invoice(supplier, total, 0, total, ENTERED, None)]);
    var n := |b.invoices|;
    forall i | 0 <= i < |b'.invoices|
      ensures InvoiceOk(b', i)
    {
      if i < n {
        assert InvoiceOk(b, i);
      } else {
        NothingYet(b, n, |b.payments|, |b.notes|);
      }
    }
    assert forall i | 0 <= i < |b'.payments| :: PaymentOk(b, b.payments[i]) ==> PaymentOk(b', b.payments[i]);
    assert forall i | 0 <= i < |b.notes| :: NoteOk(b, b.notes[i]) ==> NoteOk(b', b'.notes[i]);
  }

  lemma {:induction false} NothingYet(b: Book, invoice: nat, n: nat, m: nat)
    requires Inv(b) && invoice >= |b.invoices| && n <= |b.payments| && m <= |b.notes|
    ensures PaidTo(b.payments, n, invoice) == HalvesTo(b.payments, n, invoice) == AppliedTo(b.notes, m, invoice) == 0
    decreases n + m
  {
    if n != 0 {
      NothingYet(b, invoice, n - 1, m);
      assert PaymentOk(b, b.payments[n - 1]);
    } else if m != 0 {
      NothingYet(b, invoice, n, m - 1);
      assert NoteOk(b, b.notes[m - 1]);
    }
  }

  /** Every request keeps the stored columns in step with the documents. */
  lemma ServeKeeps(b: Book, r: Request)
    requires Inv(b)
    ensures Inv(Serve(b, r).1)
  {
    match r
    case Enter(s, t) => EnterKeeps(b, s, t);
    case Judge(i, v) => ReviewKeeps(b, i, v);
    case Pay(q) => RecordKeeps(b, q);
    case ActOn(i, p, a, m, now) => ChequeKeeps(b, i, p, a, m, now);
    case Undo(i, p, m) => ReverseKeeps(b, i, p, m);
    case DraftNote(s, t) => DraftKeeps(b, s, t);
    case Issue(n) => if IssueNote(b, n).0.Done? { NoteMoves(b, n, N_ISSUED); }
    case Apply(n, i) => ApplyKeeps(b, n, i);
    case Withdraw(n) => if CancelNote(b, n).0.Done? { NoteMoves(b, n, N_CANCELLED); }
  }

  lemma {:induction false} RunKeeps(b: Book, rs: seq<Request>)
    requires Inv(b)
    ensures Inv(ServeAll(b, rs))
    decreases |rs|
  {
    if rs != [] {
      ServeKeeps(b, rs[0]);
      RunKeeps(Serve(b, rs[0]).1, rs[1..]);
    }
  }

  /** Over any sequence of requests the stored `amount_paid` is the sum of the SUCCESS payments, and
      the stored `balance_due` exceeds the balance recomputed from the documents by one cent for
      each settlement that ended in half a cent: the two forms agree exactly when there was none. */
  lemma {:induction false} StoredRefinesDerived(rs: seq<Request>, i: nat)
    requires i < |ServeAll(EMPTY, rs).invoices|
    ensures var b := ServeAll(EMPTY, rs);
            && b.invoices[i].paid == Paid(b.payments, i)
            && b.invoices[i].due >= 0
            && b.invoices[i].due == Derived(b, i) + Halves(b, i)
            && (b.invoices[i].due == Derived(b, i) <==> Halves(b, i) == 0)
  {
    assert Inv(EMPTY);
    RunKeeps(EMPTY, rs);
    assert InvoiceOk(ServeAll(EMPTY, rs), i);
  }

  // ---- a cheque pays only after it was deposited ----

  lemma {:induction false} Split(b: Book, rs: seq<Request>, more: seq<Request>)
    ensures ServeAll(b, rs + more) == ServeAll(ServeAll(b, rs), more)
    decreases |rs|
  {
    if rs == [] {
      assert rs + more == more;
    } else {
      assert (rs + more)[0] == rs[0] && (rs + more)[1..] == rs[1..] + more;
      Split(Serve(b, rs[0]).1, rs[1..], more);
    }
  }

  lemma {:induction false} OneMore(b: Book, rs: seq<Request>, n: nat)
    requires n < |rs|
    ensures ServeAll(b, rs[..n + 1]) == Serve(ServeAll(b, rs[..n]), rs[n]).1
  {
    assert rs[..n + 1] == rs[..n] + [rs[n]];
    Split(b, rs[..n], [rs[n]]);
    assert ServeAll(ServeAll(b, rs[..n]), [rs[n]]) == ServeAll(Serve(ServeAll(b, rs[..n]), rs[n]).1, []);
  }

  /** Request `j` of a run from the empty book deposited cheque `i`, on its date or later. */
  ghost predicate Banked(rs: seq<Request>, j: nat, i: nat)
    requires j < |rs|
  {
    var b := ServeAll(EMPTY, rs[..j]);
    && rs[j].ActOn? && rs[j].payment == i && rs[j].action.Deposit? && Serve(b, rs[j]).0 == Done
    && i < |b.payments| && b.payments[i].pdcDate.Some? && b.payments[i].pdcDate.value <= rs[j].action.today
  }

  /** A cheque that is, or was, with the bank. */
  predicate AtBank(p: Payment) {
    p.payMethod == PDC && p.pdc in {Some(DEPOSITED), Some(CLEARED), Some(BOUNCED)}
  }

  lemma BankStep(b: Book, r: Request, i: nat)
    requires Inv(b)
    requires i < |Serve(b, r).1.payments| && AtBank(Serve(b, r).1.payments[i])
    ensures i < |b.payments|
    ensures AtBank(b.payments[i]) || (r.ActOn? && r.payment == i && r.action.Deposit? && Serve(b, r).0 == Done
                                      && b.payments[i].pdcDate.Some? && b.payments[i].pdcDate.value <= r.action.today)
  {
    if r.ActOn? && Belongs(b, r.invoice, r.payment) {
      assert PaymentOk(b, b.payments[r.payment]);
      ActIff(b.payments[r.payment], r.action, r.manager, b.invoices[r.invoice].due);
    }
  }

  lemma {:induction false} BankedBefore(rs: seq<Request>, n: nat, i: nat)
    requires n <= |rs|
    ensures Inv(ServeAll(EMPTY, rs[..n]))
    ensures i < |ServeAll(EMPTY, rs[..n]).payments| && AtBank(ServeAll(EMPTY, rs[..n]).payments[i]) ==>
              exists j | 0 <= j < n :: Banked(rs, j, i)
  {
    if n != 0 {
      BankedBefore(rs, n - 1, i);
      OneMore(EMPTY, rs, n - 1);
      var b := ServeAll(EMPTY, rs[..n - 1]);
      ServeKeeps(b, rs[n - 1]);
      if i < |Serve(b, rs[n - 1]).1.payments| && AtBank(Serve(b, rs[n - 1]).1.payments[i]) {
        BankStep(b, rs[n - 1], i);
        if !AtBank(b.payments[i]) {
          assert Banked(rs, n - 1, i);
        }
      }
    }
  }

  /** In every run from the empty book a post-dated cheque that counts as paid was deposited before, by a
      request that went through on the date of the cheque or later. */
  lemma {:induction false} PaidAfterDeposit(rs: seq<Request>, i: nat)
    requires i < |ServeAll(EMPTY, rs).payments|
    requires var p := ServeAll(EMPTY, rs).payments[i]; p.payMethod == PDC && p.status == SUCCESS
    ensures exists j | 0 <= j < |rs| :: Banked(rs, j, i)
  {
    assert rs[..|rs|] == rs;
    BankedBefore(rs, |rs|, i);
    assert PaymentOk(ServeAll(EMPTY, rs), ServeAll(EMPTY, rs).payments[i]);
  }
}
