/** Payments and the post-dated-cheque lifecycle that receivables and payables share. */
module Cheques {
  import opened Levels

  datatype Method = CASH | BANK_TRANSFER | CHEQUE | PDC | CREDIT_CARD
  datatype PayStatus = PENDING | SUCCESS | FAILED | CANCELLED | REFUNDED
  datatype PdcStatus = RECEIVED | DEPOSITED | CLEARED | BOUNCED | RETURNED

  datatype Error = NotFound | Forbidden | InvalidState | Validation | ExceedsBalance | NotPayable
                 | SupplierMismatch | AlreadyApplied | CheckViolation

  /** A payment row.  `amount` is the Numeric(12,2) column in cents; `halfCent` remembers that the
      requested amount ended in exactly half a cent, which the row itself does not show. */
  datatype Payment = Payment(invoice: nat, amount: nat, halfCent: bool, payMethod: Method,
                             status: PayStatus, pdc: Option<PdcStatus>, pdcDate: Option<int>)

  /** What a request came to; `Created` and `Replayed` answer with a payment. */
  datatype Outcome = Created(payment: nat) | Replayed(payment: nat) | Done | Unchanged | Failed(error: Error)

  datatype KeyRow = KeyRow(payment: nat, expires: int)

  /** Seconds in the 48-hour life of an idempotency key. */
  const KEY_LIFE := 48 * 3600

  /** The services' own test: a key binds strictly before its expiry. */
  predicate Live<K>(keys: map<K, KeyRow>, key: K, now: int) {
    key in keys && keys[key].expires > now
  }

  datatype Action = Deposit(today: int) | Clear | Bounce | Return

  /** What an action does to a payment: nothing at all, a refusal, or new statuses. */
  datatype Move = Same | Refused(error: Error) | To(payment: Payment)

  predicate ClearedAlready(p: Payment) {
    p.pdc == Some(CLEARED) || (p.status == SUCCESS && p.payMethod == PDC)
  }

  /** The lifecycle RECEIVED to DEPOSITED to CLEARED or BOUNCED, and RECEIVED to RETURNED; `due` is
      the invoice balance that a clearing amount must fit. */
  function Act(p: Payment, a: Action, manager: bool, due: int): Move {
    if !manager then Refused(Forbidden)
    else if p.payMethod != PDC then Refused(InvalidState)
    else match a
      case Deposit(today) =>
        if p.pdc == Some(DEPOSITED) && p.status == PENDING then Same
        else if ClearedAlready(p) then Refused(InvalidState)
        else if p.pdc != Some(RECEIVED) || p.status != PENDING then Refused(InvalidState)
        else if p.pdcDate.None? || p.pdcDate.value > today then Refused(Validation)
        else To(p.(pdc := Some(DEPOSITED)))
      case Clear =>
        if ClearedAlready(p) then Same
        else if p.pdc != Some(DEPOSITED) then Refused(InvalidState)
        else if p.amount > due then Refused(ExceedsBalance)
        else To(p.(status := SUCCESS, pdc := Some(CLEARED)))
      case Bounce =>
        if p.pdc == Some(BOUNCED) then Same
        else if ClearedAlready(p) then Refused(InvalidState)
        else if p.pdc != Some(DEPOSITED) then Refused(InvalidState)
        else To(p.(status := FAILED, pdc := Some(BOUNCED)))
      case Return =>
        if p.pdc == Some(RETURNED) then Same
        else if ClearedAlready(p) then Refused(InvalidState)
        else if p.pdc != Some(RECEIVED) || p.status != PENDING then Refused(InvalidState)
        else To(p.(status := CANCELLED, pdc := Some(RETURNED)))
  }

  /** The pairs of statuses a payment can have. */
  predicate Paired(p: Payment) {
    if p.payMethod != PDC then p.pdc == None && p.status in {SUCCESS, FAILED}
    else
      p.pdcDate.Some?
      && (p.pdc, p.status) in {(Some(RECEIVED), PENDING), (Some(DEPOSITED), PENDING), (Some(CLEARED), SUCCESS),
                               (Some(BOUNCED), FAILED), (Some(RETURNED), CANCELLED)}
  }

  predicate Terminal(p: Payment) {
    p.payMethod == PDC && p.pdc in {Some(CLEARED), Some(BOUNCED), Some(RETURNED)}
  }

  /** Actions keep the pairing, never leave a terminal state, touch nothing but the statuses, and
      make a payment successful by clearing it and in no other way. */
  lemma ActKeepsPairs(p: Payment, a: Action, manager: bool, due: int)
    requires Paired(p)
    ensures Act(p, a, manager, due).To? ==>
              var q := Act(p, a, manager, due).payment;
              && Paired(q) && !Terminal(p)
              && q.(status := p.status, pdc := p.pdc) == p
              && p.status == PENDING
              && (q.status == SUCCESS <==> a == Clear)
              && (q.status == SUCCESS ==> q.amount <= due)
  {
  }

  /** Exactly when an action goes through, and what it leaves: a cheque is deposited from RECEIVED and not
      before its date, cleared or bounced from DEPOSITED, cleared only within the balance, and returned
      from RECEIVED; a manager does it, and nothing but the two statuses changes.  For the rows
      a book can have, the conditions on `status` follow from those on the cheque. */
  lemma ActIff(p: Payment, a: Action, manager: bool, due: int)
    ensures Act(p, a, manager, due).To? <==> manager && p.payMethod == PDC && match a
              case Deposit(today) => p.pdc == Some(RECEIVED) && p.status == PENDING && p.pdcDate.Some? && p.pdcDate.value <= today
              case Clear => p.pdc == Some(DEPOSITED) && p.status != SUCCESS && p.amount <= due
              case Bounce => p.pdc == Some(DEPOSITED) && p.status != SUCCESS
              case Return => p.pdc == Some(RECEIVED) && p.status == PENDING
    ensures Act(p, a, manager, due).To? ==> Act(p, a, manager, due).payment == match a
              case Deposit(_) => p.(pdc := Some(DEPOSITED))
              case Clear => p.(pdc := Some(CLEARED), status := SUCCESS)
              case Bounce => p.(pdc := Some(BOUNCED), status := FAILED)
              case Return => p.(pdc := Some(RETURNED), status := CANCELLED)
  {
  }

  /** What the other answers mean: the cheque is already where the action leads, the user may not act, the
      date has not come, the balance is too small, or the cheque is somewhere else in its life. */
  lemma ActOtherwise(p: Payment, a: Action, manager: bool, due: int)
    requires Paired(p) && p.payMethod == PDC
    ensures Act(p, a, manager, due) == Refused(Forbidden) <==> !manager
    ensures Act(p, a, manager, due) == Same <==> manager && p.pdc == Some(match a
              case Deposit(_) => DEPOSITED
              case Clear => CLEARED
              case Bounce => BOUNCED
              case Return => RETURNED)
    ensures Act(p, a, manager, due) == Refused(Validation)
       <==> manager && a.Deposit? && p.pdc == Some(RECEIVED) && a.today < p.pdcDate.value
    ensures Act(p, a, manager, due) == Refused(ExceedsBalance)
       <==> manager && a.Clear? && p.pdc == Some(DEPOSITED) && due < p.amount
    ensures Act(p, a, manager, due).Refused? ==>
              Act(p, a, manager, due).error in {Forbidden, Validation, ExceedsBalance, InvalidState}
  {
  }

  /** Repeating an action that went through does nothing, whatever the balance is by then. */
  lemma ActTwice(p: Payment, a: Action, manager: bool, due: int, due': int)
    requires Act(p, a, manager, due).To?
    ensures Act(Act(p, a, manager, due).payment, a, manager, due') == Same
  {
  }

  // ---- successful payments of one invoice ----

  function PaidTo(ps: seq<Payment>, n: nat, invoice: nat): int
    requires n <= |ps|
  {
    if n == 0 then 0
    else PaidTo(ps, n - 1, invoice) + PaidBy(ps[n - 1], invoice)
  }

  /** Only SUCCESS payments count. */
  function PaidBy(p: Payment, invoice: nat): int {
    if p.invoice == invoice && p.status == SUCCESS then p.amount else 0
  }

  function Paid(ps: seq<Payment>, invoice: nat): int {
    PaidTo(ps, |ps|, invoice)
  }

  lemma {:induction false} PaidSame(a: seq<Payment>, b: seq<Payment>, n: nat, invoice: nat)
    requires n <= |a| && n <= |b| && forall i | 0 <= i < n :: a[i] == b[i]
    ensures PaidTo(a, n, invoice) == PaidTo(b, n, invoice)
  {
    if n != 0 {
      PaidSame(a, b, n - 1, invoice);
    }
  }

  lemma {:induction false} PaidUpdate(ps: seq<Payment>, i: nat, p: Payment, n: nat, invoice: nat)
    requires i < n <= |ps|
    ensures PaidTo(ps[i := p], n, invoice) == PaidTo(ps, n, invoice) - PaidBy(ps[i], invoice) + PaidBy(p, invoice)
  {
    if i == n - 1 {
      PaidSame(ps[i := p], ps, i, invoice);
    } else {
      PaidUpdate(ps, i, p, n - 1, invoice);
    }
  }

  lemma PaidAppend(ps: seq<Payment>, p: Payment, invoice: nat)
    ensures Paid(ps + [p], invoice) == Paid(ps, invoice) + PaidBy(p, invoice)
  {
    PaidSame(ps + [p], ps, |ps|, invoice);
  }

  lemma {:induction false} PaidBound(ps: seq<Payment>, i: nat, n: nat, invoice: nat)
    requires i <= n <= |ps|
    ensures 0 <= PaidTo(ps, i, invoice) <= PaidTo(ps, n, invoice)
    ensures i < n ==> PaidBy(ps[i], invoice) <= PaidTo(ps, n, invoice)
  {
    if n != 0 {
      if i == n {
        PaidBound(ps, n - 1, n - 1, invoice);
      } else {
        PaidBound(ps, i, n - 1, invoice);
      }
    }
  }
}
