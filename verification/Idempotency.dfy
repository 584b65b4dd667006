/** Idempotency keys: at most one payment in each 48-hour life of a (workspace, key) pair. */
module Idempotency {
  import Cheques
  import Payables
  import Receivables

  datatype Slot = Slot(workspace: nat, key: string)

  type Row = Cheques.KeyRow

  /** The laws below write it out: 172800 seconds. */
  const LIFE := Cheques.KEY_LIFE

  /** A payment request: `found` when its invoice exists in the workspace, `accepted` when the checks
      that follow the key lookup pass. */
  datatype Request = Request(slot: Slot, now: int, found: bool, accepted: bool)

  datatype Outcome = Missing | Replay(payment: nat) | Create(payment: nat) | Refuse

  datatype Store = Store(rows: map<Slot, Row>, next: nat)

  /** An expired row is deleted and inserted anew; a refusal rolls the deletion back. */
  function Handle(st: Store, q: Request): (Outcome, Store) {
    if !q.found then (Missing, st)
    else if Cheques.Live(st.rows, q.slot, q.now) then (Replay(st.rows[q.slot].payment), st)
    else if !q.accepted then (Refuse, st)
    else (Create(st.next), Store(st.rows[q.slot := Cheques.KeyRow(st.next, q.now + LIFE)], st.next + 1))
  }

  /** `stores` before, between and after the requests `qs`. */
  ghost predicate Trace(stores: seq<Store>, qs: seq<Request>) {
    && |stores| == |qs| + 1
    && (forall i | 0 <= i < |qs| :: stores[i + 1] == Handle(stores[i], qs[i]).1)
    && forall i, j | 0 <= i <= j < |qs| :: qs[i].now <= qs[j].now
  }

  /** While a row lives nothing replaces it. */
  lemma {:induction false} RowStays(stores: seq<Store>, qs: seq<Request>, i: nat, j: nat, slot: Slot)
    requires Trace(stores, qs) && i <= j < |qs|
    requires Cheques.Live(stores[i].rows, slot, qs[j].now)
    ensures slot in stores[j].rows && stores[j].rows[slot] == stores[i].rows[slot]
  {
    if i != j {
      RowStays(stores, qs, i, j - 1, slot);
      assert qs[j - 1].now <= qs[j].now;
      assert stores[j] == Handle(stores[j - 1], qs[j - 1]).1;
    }
  }

  /** A request that created a payment is followed, for the next 48 hours, by replays of that very
      payment only: whatever the later checks would have said, and whatever other keys and
      workspaces do in between. */
  lemma OnePaymentPerLife(stores: seq<Store>, qs: seq<Request>, i: nat, j: nat)
    requires Trace(stores, qs) && i < j < |qs|
    requires qs[i].slot == qs[j].slot && Handle(stores[i], qs[i]).0.Create?
    ensures qs[j].now < qs[i].now + 172_800 && qs[j].found ==>
              Handle(stores[j], qs[j]).0 == Replay(Handle(stores[i], qs[i]).0.payment)
    ensures Handle(stores[j], qs[j]).0.Create? ==> qs[i].now + 172_800 <= qs[j].now
  {
    assert stores[i + 1] == Handle(stores[i], qs[i]).1;
    if qs[j].now < qs[i].now + 172_800 {
      RowStays(stores, qs, i + 1, j, qs[i].slot);
    }
  }

  lemma {:induction false} NextGrows(stores: seq<Store>, qs: seq<Request>, i: nat, j: nat)
    requires Trace(stores, qs) && i <= j <= |qs|
    ensures stores[i].next <= stores[j].next
  {
    if i != j {
      NextGrows(stores, qs, i, j - 1);
      assert stores[j] == Handle(stores[j - 1], qs[j - 1]).1;
    }
  }

  /** No payment is created twice, under any key. */
  lemma CreatedOnce(stores: seq<Store>, qs: seq<Request>, i: nat, j: nat)
    requires Trace(stores, qs) && i < j < |qs|
    requires Handle(stores[i], qs[i]).0.Create? && Handle(stores[j], qs[j]).0.Create?
    ensures Handle(stores[i], qs[i]).0.payment < Handle(stores[j], qs[j]).0.payment
  {
    assert stores[i + 1] == Handle(stores[i], qs[i]).1;
    NextGrows(stores, qs, i + 1, j);
  }

  /** `is_expired` on the row model. */
  predicate IsExpired(row: Row, now: int) {
    now > row.expires
  }

  /** The row of a slot stays until a request on the slot creates a payment. */
  lemma {:induction false} RowStaysUntil(stores: seq<Store>, qs: seq<Request>, i: nat, j: nat, slot: Slot)
    requires Trace(stores, qs) && i <= j <= |qs| && slot in stores[i].rows
    requires forall m | i <= m < j && qs[m].slot == slot :: !Handle(stores[m], qs[m]).0.Create?
    ensures slot in stores[j].rows && stores[j].rows[slot] == stores[i].rows[slot]
  {
    if i != j {
      RowStaysUntil(stores, qs, i, j - 1, slot);
      assert stores[j] == Handle(stores[j - 1], qs[j - 1]).1;
    }
  }

  /** The first acceptable request after a payment that can make a second one under its key is the one that
      comes 48 hours later or more: the service creates it at that very instant, when the row model does
      not call the row expired yet, and the two agree at every other instant. */
  lemma ReusedAtExpiry(stores: seq<Store>, qs: seq<Request>, i: nat, j: nat)
    requires Trace(stores, qs) && i < j < |qs| && qs[i].slot == qs[j].slot
    requires Handle(stores[i], qs[i]).0.Create? && qs[j].found && qs[j].accepted
    requires forall m | i < m < j && qs[m].slot == qs[i].slot :: !Handle(stores[m], qs[m]).0.Create?
    ensures qs[i].slot in stores[j].rows
    ensures Handle(stores[j], qs[j]).0.Create? <==> qs[i].now + 172_800 <= qs[j].now
    ensures Handle(stores[j], qs[j]).0.Create? == IsExpired(stores[j].rows[qs[i].slot], qs[j].now)
       <==> qs[j].now != qs[i].now + 172_800
  {
    assert stores[i + 1] == Handle(stores[i], qs[i]).1;
    RowStaysUntil(stores, qs, i + 1, j, qs[i].slot);
  }

  // ---- both payment services follow this protocol ----

  function Rows(workspace: nat, keys: map<string, Cheques.KeyRow>): map<Slot, Row> {
    map key | key in keys :: Slot(workspace, key) := Cheques.KeyRow(keys[key].payment, keys[key].expires)
  }

  lemma Rekeyed(workspace: nat, keys: map<string, Cheques.KeyRow>, key: string, payment: nat, expires: int)
    ensures Rows(workspace, keys[key := Cheques.KeyRow(payment, expires)])
         == Rows(workspace, keys)[Slot(workspace, key) := Cheques.KeyRow(payment, expires)]
  {
  }

  lemma SameRow(workspace: nat, keys: map<string, Cheques.KeyRow>, key: string)
    ensures Slot(workspace, key) in Rows(workspace, keys) <==> key in keys
    ensures key in keys ==> Rows(workspace, keys)[Slot(workspace, key)] == keys[key]
  {
  }

  /** One recorded payment, as the key protocol sees it. */
  function Answer(workspace: nat, keys: map<string, Cheques.KeyRow>, payments: nat, key: string, now: int, found: bool,
                  accepted: bool): (Outcome, Store)
  {
    Handle(Store(Rows(workspace, keys), payments), Request(Slot(workspace, key), now, found, accepted))
  }

  lemma Answers(workspace: nat, keys: map<string, Cheques.KeyRow>, payments: nat, key: string, now: int, found: bool,
                accepted: bool)
    ensures Answer(workspace, keys, payments, key, now, found, accepted)
         == if !found then (Missing, Store(Rows(workspace, keys), payments))
            else if Cheques.Live(keys, key, now) then (Replay(keys[key].payment), Store(Rows(workspace, keys), payments))
            else if !accepted then (Refuse, Store(Rows(workspace, keys), payments))
            else (Create(payments), Store(Rows(workspace, keys[key := Cheques.KeyRow(payments, now + LIFE)]), payments + 1))
  {
    SameRow(workspace, keys, key);
    Rekeyed(workspace, keys, key, payments, now + LIFE);
  }

  predicate Agrees(answer: Outcome, outcome: Cheques.Outcome) {
    && (answer.Create? <==> outcome.Created?) && (answer.Create? ==> answer.payment == outcome.payment)
    && (answer.Replay? <==> outcome.Replayed?) && (answer.Replay? ==> answer.payment == outcome.payment)
  }

  lemma PayablesOutcome(b: Payables.Book, q: Payables.Instruction)
    ensures var found := q.invoice < |b.invoices|;
            var accepted := found && Payables.RecordRefusal(b, q).None?;
            var (outcome, b') := Payables.Record(b, q);
            && outcome == (if !found then Cheques.Failed(Cheques.NotFound)
                           else if Cheques.Live(b.keys, q.key, q.now) then Cheques.Replayed(b.keys[q.key].payment)
                           else if !accepted then Cheques.Failed(Payables.RecordRefusal(b, q).value)
                           else Cheques.Created(|b.payments|))
            && b'.keys == (if outcome.Created? then b.keys[q.key := Cheques.KeyRow(|b.payments|, q.now + LIFE)] else b.keys)
            && |b'.payments| == |b.payments| + if outcome.Created? then 1 else 0
  {
  }

  /** Recording a supplier payment handles its key as `Handle` does. */
  lemma PayablesFollow(workspace: nat, b: Payables.Book, q: Payables.Instruction)
    ensures var found := q.invoice < |b.invoices|;
            var accepted := found && Payables.RecordRefusal(b, q).None?;
            var (outcome, b') := Payables.Record(b, q);
            var (answer, st') := Answer(workspace, b.keys, |b.payments|, q.key, q.now, found, accepted);
            st' == Store(Rows(workspace, b'.keys), |b'.payments|) && Agrees(answer, outcome)
  {
    var found := q.invoice < |b.invoices|;
    PayablesOutcome(b, q);
    Answers(workspace, b.keys, |b.payments|, q.key, q.now, found, found && Payables.RecordRefusal(b, q).None?);
  }

  /** So does recording a customer payment. */
  lemma ReceivablesFollow(workspace: nat, b: Receivables.Book, q: Receivables.Instruction)
    requires 0.0 < q.amount
    ensures var found := q.invoice < |b.invoices|;
            var accepted := found && Receivables.RecordRefusal(b, q).None?;
            var (outcome, b') := Receivables.Record(b, q);
            var (answer, st') := Answer(workspace, b.keys, |b.payments|, q.key, q.now, found, accepted);
            st' == Store(Rows(workspace, b'.keys), |b'.payments|) && Agrees(answer, outcome)
  {
    var found := q.invoice < |b.invoices|;
    Answers(workspace, b.keys, |b.payments|, q.key, q.now, found, found && Receivables.RecordRefusal(b, q).None?);
  }

  // ---- retries in a run of either service ----

  /** Payments come with a clock that never runs back. */
  predicate PayablesClock(rs: seq<Payables.Request>) {
    forall i, j | 0 <= i < j < |rs| && rs[i].Pay? && rs[j].Pay? :: rs[i].instruction.now <= rs[j].instruction.now
  }

  lemma PayablesRowStep(b: Payables.Book, r: Payables.Request, key: string)
    requires key in b.keys && (r.Pay? ==> r.instruction.now < b.keys[key].expires)
    ensures key in Payables.Serve(b, r).1.keys && Payables.Serve(b, r).1.keys[key] == b.keys[key]
    ensures |b.invoices| <= |Payables.Serve(b, r).1.invoices|
  {
  }

  /** Until it expires nothing replaces a key row, whatever is served. */
  lemma {:induction false} PayablesRowStays(b: Payables.Book, rs: seq<Payables.Request>, key: string)
    requires key in b.keys && forall r <- rs | r.Pay? :: r.instruction.now < b.keys[key].expires
    ensures key in Payables.ServeAll(b, rs).keys && Payables.ServeAll(b, rs).keys[key] == b.keys[key]
    ensures |b.invoices| <= |Payables.ServeAll(b, rs).invoices|
    decreases |rs|
  {
    if rs != [] {
      assert rs[0] in rs;
      PayablesRowStep(b, rs[0], key);
      PayablesRowStays(Payables.Serve(b, rs[0]).1, rs[1..], key);
    }
  }

  /** In a run of the payables, whatever cheque actions, reversals, notes and other payments come in
      between: a payment recorded under a key is what every payment request with that key returns for the
      next 48 hours, and a second payment under it needs them to pass. */
  lemma {:induction false} PayablesPayOnce(b: Payables.Book, rs: seq<Payables.Request>, i: nat, j: nat)
    requires i < j < |rs| && PayablesClock(rs) && rs[i].Pay? && rs[j].Pay?
    requires rs[i].instruction.key == rs[j].instruction.key
    requires Payables.Serve(Payables.ServeAll(b, rs[..i]), rs[i]).0.Created?
    ensures var made, again := Payables.Serve(Payables.ServeAll(b, rs[..i]), rs[i]).0,
                               Payables.Serve(Payables.ServeAll(b, rs[..j]), rs[j]).0;
            var q, q' := rs[i].instruction, rs[j].instruction;
            && (q'.now < q.now + 172_800 && q'.invoice < |Payables.ServeAll(b, rs[..j]).invoices| ==>
                  again == Cheques.Replayed(made.payment))
            && (again.Created? ==> q.now + 172_800 <= q'.now)
  {
    var bi, q, q' := Payables.ServeAll(b, rs[..i]), rs[i].instruction, rs[j].instruction;
    var made := Payables.Serve(bi, rs[i]).1;
    if q'.now < q.now + 172_800 {
      Payables.Split(b, rs[..i], rs[i..j]);
      assert rs[..i] + rs[i..j] == rs[..j];
      assert rs[i..j][0] == rs[i] && rs[i..j][1..] == rs[i + 1..j];
      forall r <- rs[i + 1..j] | r.Pay?
        ensures r.instruction.now < made.keys[q.key].expires
      {
        var m :| i + 1 <= m < j && rs[m] == r;
      }
      PayablesRowStays(made, rs[i + 1..j], q.key);
    }
  }

  // ---- and of the receivables ----

  predicate ReceivablesClock(rs: seq<Receivables.Request>) {
    forall i, j | 0 <= i < j < |rs| && rs[i].Pay? && rs[j].Pay? :: rs[i].instruction.now <= rs[j].instruction.now
  }

  lemma ReceivablesRowStep(b: Receivables.Book, r: Receivables.Request, key: string)
    requires Receivables.Fit(r) && key in b.keys && (r.Pay? ==> r.instruction.now < b.keys[key].expires)
    ensures key in Receivables.Serve(b, r).1.keys && Receivables.Serve(b, r).1.keys[key] == b.keys[key]
    ensures |b.invoices| <= |Receivables.Serve(b, r).1.invoices|
  {
  }

  lemma {:induction false} ReceivablesRowStays(b: Receivables.Book, rs: seq<Receivables.Request>, key: string)
    requires (forall r <- rs :: Receivables.Fit(r)) && key in b.keys && forall r <- rs | r.Pay? :: r.instruction.now < b.keys[key].expires
    ensures key in Receivables.ServeAll(b, rs).keys && Receivables.ServeAll(b, rs).keys[key] == b.keys[key]
    ensures |b.invoices| <= |Receivables.ServeAll(b, rs).invoices|
    decreases |rs|
  {
    if rs != [] {
      assert rs[0] in rs;
      ReceivablesRowStep(b, rs[0], key);
      ReceivablesRowStays(Receivables.Serve(b, rs[0]).1, rs[1..], key);
    }
  }

  /** The same for customer payments, whatever cheque actions and notes come in between. */
  lemma {:induction false} ReceivablesPayOnce(b: Receivables.Book, rs: seq<Receivables.Request>, i: nat, j: nat)
    requires (forall r <- rs :: Receivables.Fit(r)) && i < j < |rs| && ReceivablesClock(rs) && rs[i].Pay? && rs[j].Pay?
    requires rs[i].instruction.key == rs[j].instruction.key
    requires Receivables.Serve(Receivables.ServeAll(b, rs[..i]), rs[i]).0.Created?
    ensures var made, again := Receivables.Serve(Receivables.ServeAll(b, rs[..i]), rs[i]).0,
                               Receivables.Serve(Receivables.ServeAll(b, rs[..j]), rs[j]).0;
            var q, q' := rs[i].instruction, rs[j].instruction;
            && (q'.now < q.now + 172_800 && q'.invoice < |Receivables.ServeAll(b, rs[..j]).invoices| ==>
                  again == Cheques.Replayed(made.payment))
            && (again.Created? ==> q.now + 172_800 <= q'.now)
  {
    var bi, q, q' := Receivables.ServeAll(b, rs[..i]), rs[i].instruction, rs[j].instruction;
    var made := Receivables.Serve(bi, rs[i]).1;
    if q'.now < q.now + 172_800 {
      Receivables.Split(b, rs[..i], rs[i..j]);
      assert rs[..i] + rs[i..j] == rs[..j];
      assert rs[i..j][0] == rs[i] && rs[i..j][1..] == rs[i + 1..j];
      forall r <- rs[i + 1..j] | r.Pay?
        ensures r.instruction.now < made.keys[q.key].expires
      {
        var m :| i + 1 <= m < j && rs[m] == r;
      }
      ReceivablesRowStays(made, rs[i + 1..j], q.key);
    }
  }
}
