/** Customer invoices: the balance is derived from the payments on every read. */
module Receivables {
  import opened Levels
  import opened Rounding
  import opened Cheques

  datatype Status = DRAFT | SENT | PART_PAID | PAID_UP | OVERDUE | VOID

  /** Amounts in cents.  `credited` and `debited` are the issued credit and tax debit notes. */
  datatype Invoice = Invoice(total: nat, credited: nat, debited: nat, dueDate: int, status: Status)

  datatype Book = Book(invoices: seq<Invoice>, payments: seq<Payment>, keys: map<string, KeyRow>)

  /** `amount` is the requested Decimal, in cents; the schema only asks that it is positive. */
  datatype Instruction = Instruction(invoice: nat, amount: real, key: string, payMethod: Method, pdcDate: Option<int>,
                         today: int, now: int)

  const EMPTY := Book([], [], map[])

  // ---- the derived balance ----

  function Raw(inv: Invoice, paid: int): int {
    inv.total - paid - inv.credited + inv.debited
  }

  /** `balance_due`: the sum, clamped at zero, then quantized half up. */
  function BalanceDue(inv: Invoice, paid: int): int {
    Cents(if Raw(inv, paid) < 0 then 0.0 else Raw(inv, paid) as real)
  }

  function CreditOwing(inv: Invoice, paid: int): int {
    if Raw(inv, paid) < 0 then -Raw(inv, paid) else 0
  }

  function StatusOf(inv: Invoice, paid: int, today: int): Status {
    if inv.status in {VOID, DRAFT} then inv.status
    else if CreditOwing(inv, paid) > 0 || BalanceDue(inv, paid) == 0 then PAID_UP
    else if inv.status in {SENT, PART_PAID, OVERDUE} && inv.dueDate < today then OVERDUE
    else if paid > 0 then PART_PAID
    else SENT
  }

  function Due(b: Book, invoice: nat): int
    requires invoice < |b.invoices|
  {
    BalanceDue(b.invoices[invoice], Paid(b.payments, invoice))
  }

  /** The invoices after one of them recomputed its status from the payments. */
  function Restated(invoices: seq<Invoice>, payments: seq<Payment>, invoice: nat, today: int): seq<Invoice>
    requires invoice < |invoices|
  {
    var inv := invoices[invoice];
    invoices[invoice := inv.(status := StatusOf(inv, Paid(payments, invoice), today))]
  }

  // ---- the requests ----

  function RecordRefusal(b: Book, q: Instruction): Option<Error>
    requires q.invoice < |b.invoices|
  {
    if q.amount > Due(b, q.invoice) as real then Some(ExceedsBalance)
    else if q.payMethod == PDC && q.pdcDate.None? then Some(Validation)
    else None
  }

  lemma CentsAtLeast(x: real)
    requires 0.0 < x
    ensures 0 <= Cents(x)
  {
  }

  /** A plain cheque ignores the date; only a post-dated one starts PENDING. */
  function NewPayment(q: Instruction): Payment
    requires 0.0 < q.amount
  {
    CentsAtLeast(q.amount);
    var half := EndsInHalf(q.amount);
    if q.payMethod == PDC then Payment(q.invoice, Cents(q.amount), half, PDC, PENDING, Some(RECEIVED), q.pdcDate)
    else Payment(q.invoice, Cents(q.amount), half, q.payMethod, SUCCESS, None,
                 if q.payMethod == CHEQUE then None else q.pdcDate)
  }

  function Recorded(b: Book, q: Instruction): Book
    requires q.invoice < |b.invoices| && 0.0 < q.amount
  {
    var payments' := b.payments + [NewPayment(q)];
    Book(Restated(b.invoices, payments', q.invoice, q.today), payments',
         b.keys[q.key := KeyRow(|b.payments|, q.now + KEY_LIFE)])
  }

  function Record(b: Book, q: Instruction): (Outcome, Book)
    requires 0.0 < q.amount
  {
    if q.invoice >= |b.invoices| then (Failed(NotFound), b)
    else if Live(b.keys, q.key, q.now) then (Replayed(b.keys[q.key].payment), b)
    else
      var refusal := RecordRefusal(b, q);
      if refusal.Some? then (Failed(refusal.value), b) else (Created(|b.payments|), Recorded(b, q))
  }

  predicate Belongs(b: Book, invoice: nat, payment: nat) {
    invoice < |b.invoices| && payment < |b.payments| && b.payments[payment].invoice == invoice
  }

  function Cheque(b: Book, invoice: nat, payment: nat, a: Action, manager: bool, today: int): (Outcome, Book) {
    if !Belongs(b, invoice, payment) then (Failed(NotFound), b)
    else match Act(b.payments[payment], a, manager, Due(b, invoice))
      case Same => (Unchanged, b)
      case Refused(e) => (Failed(e), b)
      case To(p) =>
        var payments' := b.payments[payment := p];
        (Done, b.(payments := payments',
                  invoices := if a == Clear then Restated(b.invoices, payments', invoice, today) else b.invoices))
  }

  datatype Request =
    | Enter(total: nat, dueDate: int)
    | Pay(instruction: Instruction)
    | ActOn(invoice: nat, payment: nat, action: Action, manager: bool, today: int)
    | SetNotes(invoice: nat, credited: nat, debited: nat)

  predicate Fit(r: Request) {
    r.Pay? ==> 0.0 < r.instruction.amount
  }

  function Serve(b: Book, r: Request): (Outcome, Book)
    requires Fit(r)
  {
    match r
    case Enter(t, d) => (Done, b.(invoices := b.invoices + [Invoice(t, 0, 0, d, SENT)]))
    case Pay(q) => Record(b, q)
    case ActOn(i, p, a, m, today) => Cheque(b, i, p, a, m, today)
    case SetNotes(i, c, d) =>
      if i >= |b.invoices| then (Failed(NotFound), b)
      else (Done, b.(invoices := b.invoices[i := b.invoices[i].(credited := c, debited := d)]))
  }

  // ---- what a request does to a balance ----

  /** Quantizing never changes a balance that is already in cents. */
  lemma QuantizeIsIdentity(inv: Invoice, paid: int)
    ensures BalanceDue(inv, paid) == Max(0, inv.total - paid - inv.credited + inv.debited)
  {
    WholeCents(if Raw(inv, paid) < 0 then 0 else Raw(inv, paid));
  }

  predicate PaymentOk(b: Book, p: Payment) {
    Paired(p) && p.invoice < |b.invoices|
  }

  ghost predicate Inv(b: Book) {
    && (forall i | 0 <= i < |b.payments| :: PaymentOk(b, b.payments[i]))
    && (forall key <- b.keys :: b.keys[key].payment < |b.payments|)
  }

  /** The amount by which a request lowers the balance of invoice `j`: what it newly books as SUCCESS. */
  function Booked(b: Book, r: Request, j: nat): int
    requires Fit(r)
  {
    match r
    case Pay(q) => if q.invoice == j && Record(b, q).0.Created? && q.payMethod != PDC then Cents(q.amount) else 0
    case ActOn(i, p, a, m, today) =>
      if i == j && a == Clear && Cheque(b, i, p, a, m, today).0.Done? then b.payments[p].amount else 0
    case _ => 0
  }

  /** Adding or rewriting one payment shifts the balance by what it adds to the SUCCESS sum, as long
      as that fits. */
  lemma BalanceShifts(inv: Invoice, status: Status, paid: int, more: int)
    requires 0 <= more <= BalanceDue(inv, paid)
    ensures BalanceDue(inv.(status := status), paid + more) == BalanceDue(inv, paid) - more
  {
    QuantizeIsIdentity(inv, paid);
    QuantizeIsIdentity(inv.(status := status), paid + more);
  }

  lemma RecordMoves(b: Book, q: Instruction, j: nat)
    requires Inv(b) && j < |b.invoices| && 0.0 < q.amount
    ensures var b' := Record(b, q).1;
            && Inv(b') && |b'.invoices| == |b.invoices|
            && Due(b', j) == Due(b, j) - Booked(b, Pay(q), j)
  {
    if Record(b, q).0.Created? {
      var p := NewPayment(q);
      QuantizeIsIdentity(b.invoices[q.invoice], Paid(b.payments, q.invoice));
      CentsFit(q.amount, Due(b, q.invoice));
      PaidAppend(b.payments, p, j);
      if j == q.invoice {
        BalanceShifts(b.invoices[j], Recorded(b, q).invoices[j].status, Paid(b.payments, j), PaidBy(p, j));
      }
      assert forall i | 0 <= i < |b.payments| :: PaymentOk(b, b.payments[i]);
    }
  }

  lemma ChequeMoves(b: Book, i: nat, payment: nat, a: Action, manager: bool, today: int, j: nat)
    requires Inv(b) && j < |b.invoices|
    ensures var b' := Cheque(b, i, payment, a, manager, today).1;
            && Inv(b') && |b'.invoices| == |b.invoices|
            && Due(b', j) == Due(b, j) - Booked(b, ActOn(i, payment, a, manager, today), j)
  {
    var (outcome, b') := Cheque(b, i, payment, a, manager, today);
    if outcome.Done? {
      var was, p := b.payments[payment], b'.payments[payment];
      assert PaymentOk(b, was);
      ActKeepsPairs(was, a, manager, Due(b, i));
      PaidUpdate(b.payments, payment, p, |b.payments|, j);
      if j == i {
        QuantizeIsIdentity(b.invoices[j], Paid(b.payments, j));
        BalanceShifts(b.invoices[j], b'.invoices[j].status, Paid(b.payments, j), PaidBy(p, j));
      }
      assert forall k | 0 <= k < |b.payments| :: PaymentOk(b, b.payments[k]);
    }
  }

  /** Among payment and cheque requests only a booked payment or the first clearing of a cheque moves
      a balance: that of its own invoice, by exactly its amount in cents and never below zero, however
      the requested amount rounds.  Deposits, bounces, returns, repeats, replays and refusals leave
      every balance fixed. */
  lemma BalanceMovesByBooked(b: Book, r: Request, j: nat)
    requires Inv(b) && j < |b.invoices|
    requires Fit(r) && (r.Pay? || r.ActOn?)
    ensures var b' := Serve(b, r).1;
            Inv(b') && j < |b'.invoices| && 0 <= Due(b', j) == Due(b, j) - Booked(b, r, j)
  {
    if r.Pay? {
      RecordMoves(b, r.instruction, j);
    } else {
      ChequeMoves(b, r.invoice, r.payment, r.action, r.manager, r.today, j);
    }
    var b' := Serve(b, r).1;
    QuantizeIsIdentity(b'.invoices[j], Paid(b'.payments, j));
  }

  lemma ServeKeeps(b: Book, r: Request)
    requires Inv(b) && Fit(r)
    ensures Inv(Serve(b, r).1) && |b.invoices| <= |Serve(b, r).1.invoices|
  {
    var b' := Serve(b, r).1;
    if (r.Pay? || r.ActOn?) && b.invoices != [] {
      BalanceMovesByBooked(b, r, 0);
    }
    assert forall i | 0 <= i < |b.payments| :: PaymentOk(b, b.payments[i]);
  }

  // ---- runs ----

  function ServeAll(b: Book, rs: seq<Request>): Book
    requires forall r <- rs :: Fit(r)
    decreases |rs|
  {
    if rs == [] then b else ServeAll(Serve(b, rs[0]).1, rs[1..])
  }

  function BookedAll(b: Book, rs: seq<Request>, j: nat): int
    requires forall r <- rs :: Fit(r)
    decreases |rs|
  {
    if rs == [] then 0 else Booked(b, rs[0], j) + BookedAll(Serve(b, rs[0]).1, rs[1..], j)
  }

  /** Over any run of payment and cheque requests on any invoices a balance falls by exactly what the
      run booked on it, and the statuses of every payment stay one of the pairs the lifecycle allows. */
  lemma {:induction false} RunBalances(b: Book, rs: seq<Request>, j: nat)
    requires Inv(b) && j < |b.invoices|
    requires forall r <- rs :: Fit(r) && (r.Pay? || r.ActOn?)
    ensures var b' := ServeAll(b, rs);
            Inv(b') && j < |b'.invoices| && 0 <= Due(b', j) == Due(b, j) - BookedAll(b, rs, j)
    decreases |rs|
  {
    if rs == [] {
      QuantizeIsIdentity(b.invoices[j], Paid(b.payments, j));
    } else {
      BalanceMovesByBooked(b, rs[0], j);
      RunBalances(Serve(b, rs[0]).1, rs[1..], j);
    }
  }

  lemma ServeTerminal(b: Book, r: Request, i: nat)
    requires i < |b.payments| && Terminal(b.payments[i]) && Paired(b.payments[i]) && Fit(r)
    ensures var b' := Serve(b, r).1;
            i < |b'.payments| && b'.payments[i] == b.payments[i]
  {
    if r.ActOn? && r.payment == i && Belongs(b, r.invoice, i) {
      ActKeepsPairs(b.payments[i], r.action, r.manager, Due(b, r.invoice));
    }
  }

  /** A cleared, bounced or returned cheque never changes again. */
  lemma {:induction false} TerminalForGood(b: Book, rs: seq<Request>, i: nat)
    requires i < |b.payments| && Terminal(b.payments[i]) && Paired(b.payments[i])
    requires forall r <- rs :: Fit(r)
    ensures i < |ServeAll(b, rs).payments| && ServeAll(b, rs).payments[i] == b.payments[i]
    decreases |rs|
  {
    if rs != [] {
      ServeTerminal(b, rs[0], i);
      TerminalForGood(Serve(b, rs[0]).1, rs[1..], i);
    }
  }

  /** The recomputed status, from the amounts and the due date: PAID when nothing is owed, OVERDUE from the
      day after the due date unless it was PAID before, and otherwise by whether anything was paid; drafts
      and void invoices keep theirs. */
  lemma StatusIff(inv: Invoice, paid: int, today: int)
    ensures var owed := inv.total - paid - inv.credited + inv.debited;
            var status := StatusOf(inv, paid, today);
            if inv.status == DRAFT || inv.status == VOID then status == inv.status
            else
              && (status == PAID_UP <==> owed <= 0)
              && (status == OVERDUE <==> 0 < owed && inv.dueDate < today && inv.status != PAID_UP)
              && (status == PART_PAID <==> 0 < owed && !(inv.dueDate < today && inv.status != PAID_UP) && 0 < paid)
              && status in {PAID_UP, OVERDUE, PART_PAID, SENT}
  {
    QuantizeIsIdentity(inv, paid);
  }

  /** A payment is recorded when its key is free, the balance covers it and a post-dated cheque has a date;
      it leaves one payment row and its key for 172800 seconds, and only its own invoice can change, in
      its status. */
  lemma PaysIff(b: Book, q: Instruction)
    requires 0.0 < q.amount
    ensures Record(b, q).0.Created? <==>
              && q.invoice < |b.invoices| && !(q.key in b.keys && q.now < b.keys[q.key].expires)
              && var inv := b.invoices[q.invoice];
              && q.amount <= (inv.total - Paid(b.payments, q.invoice) - inv.credited + inv.debited) as real
              && (q.payMethod == PDC ==> q.pdcDate.Some?)
    ensures Record(b, q).0.Created? ==>
              var b' := Record(b, q).1;
              && |b'.payments| == |b.payments| + 1 && b'.payments[..|b.payments|] == b.payments
              && b'.keys == b.keys[q.key := KeyRow(|b.payments|, q.now + 172_800)]
              && |b'.invoices| == |b.invoices|
              && (forall i | 0 <= i < |b.invoices| && i != q.invoice :: b'.invoices[i] == b.invoices[i])
              && b'.invoices[q.invoice].(status := b.invoices[q.invoice].status) == b.invoices[q.invoice]
              && b'.invoices[q.invoice].status == StatusOf(b.invoices[q.invoice], Paid(b'.payments, q.invoice), q.today)
              && var p := b'.payments[|b.payments|];
              && p.invoice == q.invoice && p.payMethod == q.payMethod && p.amount as real - 0.5 <= q.amount < p.amount as real + 0.5
              && (if q.payMethod == PDC then p.status == PENDING && p.pdc == Some(RECEIVED) && p.pdcDate == q.pdcDate
                  else p.status == SUCCESS && p.pdc == None
                       && p.pdcDate == if q.payMethod == CHEQUE then None else q.pdcDate)
              && (p.halfCent <==> q.amount + 0.5 == p.amount as real)
    ensures !Record(b, q).0.Created? ==> Record(b, q).1 == b
  {
    HalfIs(q.amount);
    if q.invoice < |b.invoices| {
      QuantizeIsIdentity(b.invoices[q.invoice], Paid(b.payments, q.invoice));
    }
  }

  /** Which answer a payment gets otherwise, in the order the service looks. */
  lemma PayAnswers(b: Book, q: Instruction)
    requires 0.0 < q.amount
    ensures var found := q.invoice < |b.invoices|;
            var owed := if found then b.invoices[q.invoice].total - Paid(b.payments, q.invoice)
                                      - b.invoices[q.invoice].credited + b.invoices[q.invoice].debited else 0;
            Record(b, q).0
            == if !found then Failed(NotFound)
               else if q.key in b.keys && q.now < b.keys[q.key].expires then Replayed(b.keys[q.key].payment)
               else if owed as real < q.amount then Failed(ExceedsBalance)
               else if q.payMethod == PDC && q.pdcDate == None then Failed(Validation) else Created(|b.payments|)
  {
    if q.invoice < |b.invoices| {
      QuantizeIsIdentity(b.invoices[q.invoice], Paid(b.payments, q.invoice));
    }
  }

  /** A cheque action does to the payment what the lifecycle says, the balance being what is owed by then; only
      clearing touches an invoice, its own, and there only the status. */
  lemma ChequeDoes(b: Book, invoice: nat, payment: nat, a: Action, manager: bool, today: int)
    ensures !Belongs(b, invoice, payment) ==> Cheque(b, invoice, payment, a, manager, today) == (Failed(NotFound), b)
    ensures Belongs(b, invoice, payment) ==>
              var inv := b.invoices[invoice];
              var owed := inv.total - Paid(b.payments, invoice) - inv.credited + inv.debited;
              var move := Act(b.payments[payment], a, manager, Max(0, owed));
              var (answer, b') := Cheque(b, invoice, payment, a, manager, today);
              && (move.Same? ==> answer == Unchanged && b' == b) && (move.Refused? ==> answer == Failed(move.error) && b' == b)
              && (move.To? ==>
                    && answer == Done && b'.payments == b.payments[payment := move.payment] && b'.keys == b.keys
                    && |b'.invoices| == |b.invoices| && (!a.Clear? ==> b'.invoices == b.invoices)
                    && (forall i | 0 <= i < |b.invoices| && i != invoice :: b'.invoices[i] == b.invoices[i])
                    && b'.invoices[invoice].(status := inv.status) == inv
                    && (a.Clear? ==> b'.invoices[invoice].status == StatusOf(inv, Paid(b'.payments, invoice), today)))
  {
    if Belongs(b, invoice, payment) {
      QuantizeIsIdentity(b.invoices[invoice], Paid(b.payments, invoice));
    }
  }

  // ---- a cheque pays only after it was deposited ----

  lemma {:induction false} Split(b: Book, rs: seq<Request>, more: seq<Request>)
    requires forall r <- rs + more :: Fit(r)
    ensures ServeAll(b, rs + more) == ServeAll(ServeAll(b, rs), more)
    decreases |rs|
  {
    if rs == [] {
      assert rs + more == more;
    } else {
      assert (rs + more)[0] == rs[0] && (rs + more)[1..] == rs[1..] + more;
      Split(Serve(b, rs[0]).1, rs[1..], more);
    }
  }

  lemma {:induction false} OneMore(b: Book, rs: seq<Request>, n: nat)
    requires n < |rs| && forall r <- rs :: Fit(r)
    ensures ServeAll(b, rs[..n + 1]) == Serve(ServeAll(b, rs[..n]), rs[n]).1
  {
    assert rs[..n + 1] == rs[..n] + [rs[n]];
    Split(b, rs[..n], [rs[n]]);
    assert ServeAll(ServeAll(b, rs[..n]), [rs[n]]) == ServeAll(Serve(ServeAll(b, rs[..n]), rs[n]).1, []);
  }

  /** Request `j` of a run from the empty book deposited cheque `i`, on its date or later. */
  ghost predicate Banked(rs: seq<Request>, j: nat, i: nat)
    requires j < |rs| && forall r <- rs :: Fit(r)
  {
    var b := ServeAll(EMPTY, rs[..j]);
    && rs[j].ActOn? && rs[j].payment == i && rs[j].action.Deposit? && Serve(b, rs[j]).0 == Done
    && i < |b.payments| && b.payments[i].pdcDate.Some? && b.payments[i].pdcDate.value <= rs[j].action.today
  }

  /** A cheque that is, or was, with the bank. */
  predicate AtBank(p: Payment) {
    p.payMethod == PDC && p.pdc in {Some(DEPOSITED), Some(CLEARED), Some(BOUNCED)}
  }

  lemma BankStep(b: Book, r: Request, i: nat)
    requires Inv(b) && Fit(r)
    requires i < |Serve(b, r).1.payments| && AtBank(Serve(b, r).1.payments[i])
    ensures i < |b.payments|
    ensures AtBank(b.payments[i]) || (r.ActOn? && r.payment == i && r.action.Deposit? && Serve(b, r).0 == Done
                                      && b.payments[i].pdcDate.Some? && b.payments[i].pdcDate.value <= r.action.today)
  {
    if r.ActOn? && Belongs(b, r.invoice, r.payment) {
      assert PaymentOk(b, b.payments[r.payment]);
      ActIff(b.payments[r.payment], r.action, r.manager, Due(b, r.invoice));
    }
  }

  lemma {:induction false} BankedBefore(rs: seq<Request>, n: nat, i: nat)
    requires n <= |rs| && forall r <- rs :: Fit(r)
    ensures Inv(ServeAll(EMPTY, rs[..n]))
    ensures i < |ServeAll(EMPTY, rs[..n]).payments| && AtBank(ServeAll(EMPTY, rs[..n]).payments[i]) ==>
              exists j | 0 <= j < n :: Banked(rs, j, i)
  {
    if n != 0 {
      BankedBefore(rs, n - 1, i);
      OneMore(EMPTY, rs, n - 1);
      var b := ServeAll(EMPTY, rs[..n - 1]);
      ServeKeeps(b, rs[n - 1]);
      if i < |Serve(b, rs[n - 1]).1.payments| && AtBank(Serve(b, rs[n - 1]).1.payments[i]) {
        BankStep(b, rs[n - 1], i);
        if !AtBank(b.payments[i]) {
          assert Banked(rs, n - 1, i);
        }
      }
    }
  }

  /** In every run from the empty book a post-dated cheque that counts as paid was deposited before, by a
      request that went through on the date of the cheque or later. */
  lemma {:induction false} PaidAfterDeposit(rs: seq<Request>, i: nat)
    requires forall r <- rs :: Fit(r)
    requires i < |ServeAll(EMPTY, rs).payments|
    requires var p := ServeAll(EMPTY, rs).payments[i]; p.payMethod == PDC && p.status == SUCCESS
    ensures exists j | 0 <= j < |rs| :: Banked(rs, j, i)
  {
    assert rs[..|rs|] == rs;
    BankedBefore(rs, |rs|, i);
    assert PaymentOk(ServeAll(EMPTY, rs), ServeAll(EMPTY, rs).payments[i]);
  }
}
