/** The stock tables of one workspace, and the sums the level counters are meant to cache. */
module Tables {
  import opened Levels

  datatype TxnKind = RECEIPT | ISSUE | TRANSFER | ADJUSTMENT

  datatype Source = Manual | Grn | Return | NoteOut(note: nat) | NoteBack(note: nat)
                  | Moving(transfer: nat) | MovedBack(transfer: nat) | Counted(count: nat)

  /** One immutable ledger row.  Exactly one of `source_bin_id` and `destination_bin_id` is set
      on every row the services write; `inbound` says which one `key.bin` is. */
  datatype Txn = Txn(kind: TxnKind, key: Key, inbound: bool, quantity: int, source: Source)

  function ReplayTo(ledger: seq<Txn>, n: nat, sc: Scope): int
    requires n <= |ledger|
  {
    if n == 0 then 0
    else ReplayTo(ledger, n - 1, sc) + if Within(ledger[n - 1].key, sc) then ledger[n - 1].quantity else 0
  }

  /** Net quantity the ledger records for the levels in `sc`. */
  function Replay(ledger: seq<Txn>, sc: Scope): int {
    ReplayTo(ledger, |ledger|, sc)
  }

  datatype ResStatus = ACTIVE | DISPATCHED | CANCELLED | EXPIRED

  datatype Head = Head(order: nat, status: ResStatus, expiresAt: int)

  /** A reservation line; rows stand in `created_at` order. */
  datatype ResItem = ResItem(head: nat, order: nat, line: nat, key: Key,
                             quantity: int, consumed: int, status: ResStatus)

  function Remaining(it: ResItem): int {
    it.quantity - it.consumed
  }

  function Claim(it: ResItem): Entry {
    Entry(it.key, if it.status == ACTIVE then Remaining(it) else 0)
  }

  function Claims(items: seq<ResItem>): (es: seq<Entry>)
    ensures |es| == |items|
  {
    seq(|items|, i requires 0 <= i < |items| => Claim(items[i]))
  }

  datatype TransferStatus = T_DRAFT | T_APPROVED | T_IN_TRANSIT | T_RECEIVED | T_CANCELLED

  datatype TransferLine = TransferLine(product: nat, source: Bin, destination: Bin,
                                       quantity: Positive, received: int)

  datatype Transfer = Transfer(status: TransferStatus, lines: seq<TransferLine>)

  /** What the lines of a transfer take from their source levels. */
  function Outgoing(lines: seq<TransferLine>): (es: seq<Entry>)
    ensures |es| == |lines|
  {
    seq(|lines|, i requires 0 <= i < |lines| =>
      Entry(Key(lines[i].product, lines[i].source), lines[i].quantity))
  }

  /** What the lines of a received transfer put on their destination levels. */
  function Incoming(lines: seq<TransferLine>): (es: seq<Entry>)
    ensures |es| == |lines|
  {
    seq(|lines|, i requires 0 <= i < |lines| =>
      Entry(Key(lines[i].product, lines[i].destination), lines[i].received))
  }

  function InFlight(t: Transfer): seq<Entry> {
    if t.status == T_IN_TRANSIT then Outgoing(t.lines) else []
  }

  function TransitTo(ts: seq<Transfer>, n: nat, sc: Scope): int
    requires n <= |ts|
  {
    if n == 0 then 0 else TransitTo(ts, n - 1, sc) + Sum(InFlight(ts[n - 1]), sc)
  }

  /** Quantity dispatched from the levels in `sc` and neither received nor returned. */
  function Transit(ts: seq<Transfer>, sc: Scope): int {
    TransitTo(ts, |ts|, sc)
  }

  datatype CountStatus = C_SCHEDULED | C_IN_PROGRESS | C_COMPLETED | C_RECONCILED | C_CANCELLED

  datatype CountLine = CountLine(key: Key, expected: int, counted: Option<nat>,
                                 requiresApproval: bool, approved: bool)

  /** `since` is the count's `created_at`, told as the number of ledger rows written by then. */
  datatype Count = Count(warehouse: nat, since: nat, status: CountStatus, lines: seq<CountLine>)

  datatype OrderLine = OrderLine(product: Option<nat>, quantity: Positive, delivered: int)

  /** A customer LPO; `shippable` stands for the status set RECEIVED, PARTIAL, INVOICED. */
  datatype Order = Order(shippable: bool, lines: seq<OrderLine>)

  datatype NoteStatus = N_DRAFT | N_CONFIRMED | N_CANCELLED

  /** `target` is None on an ad-hoc line, which has no product and moves no stock. */
  datatype NoteLine = NoteLine(line: nat, target: Option<Key>, quantity: Positive)

  datatype Note = Note(order: nat, status: NoteStatus, lines: seq<NoteLine>)

  function ShippedTo(lines: seq<NoteLine>, n: nat, line: nat): int
    requires n <= |lines|
  {
    if n == 0 then 0
    else ShippedTo(lines, n - 1, line) + if lines[n - 1].line == line then lines[n - 1].quantity else 0
  }

  function Shipped(lines: seq<NoteLine>, line: nat): int {
    ShippedTo(lines, |lines|, line)
  }

  function Delivered(n: Note, order: nat, line: nat): int {
    if n.order == order && n.status == N_CONFIRMED then Shipped(n.lines, line) else 0
  }

  function ConfirmedTo(notes: seq<Note>, n: nat, order: nat, line: nat): int
    requires n <= |notes|
  {
    if n == 0 then 0
    else ConfirmedTo(notes, n - 1, order, line) + Delivered(notes[n - 1], order, line)
  }

  /** Quantity of one LPO line over its CONFIRMED delivery notes. */
  function Confirmed(notes: seq<Note>, order: nat, line: nat): int {
    ConfirmedTo(notes, |notes|, order, line)
  }

  /** Stock a note takes; an ad-hoc line takes none, whatever level it is written against. */
  function Issued(lines: seq<NoteLine>): (es: seq<Entry>)
    ensures |es| == |lines|
  {
    seq(|lines|, i requires 0 <= i < |lines| => IssuedLine(lines[i]))
  }

  function IssuedLine(l: NoteLine): Entry {
    if l.target.Some? then Entry(l.target.value, l.quantity) else Entry(Key(0, Bin(0, 0)), 0)
  }

  datatype Error = NotFound | Forbidden | InvalidState | ZeroQuantity | NegativeOnHand | Insufficient
                 | ExceedsUndelivered | AdHocLine | BadReceived | Uncounted | NeedsApproval
                 | NoLines | OverDelivery | NoBin | BinInactive | Ambiguous | CheckViolation

  /** Of the first `n` verdicts, the first that refuses decides. */
  function FirstTo(verdicts: seq<Option<Error>>, n: nat): Option<Error>
    requires n <= |verdicts|
  {
    if n == 0 then None
    else
      var earlier := FirstTo(verdicts, n - 1);
      if earlier.Some? then earlier else verdicts[n - 1]
  }

  lemma {:induction false} FirstStays(verdicts: seq<Option<Error>>, i: nat, n: nat)
    requires i <= n <= |verdicts|
    ensures FirstTo(verdicts, i).Some? ==> FirstTo(verdicts, n) == FirstTo(verdicts, i)
    ensures FirstTo(verdicts, n).None? && i < n ==> verdicts[i] == None
  {
    if i != n {
      FirstStays(verdicts, i, n - 1);
    }
  }

  /** `autoflush` is the session flag: does a query see this transaction's unflushed changes? */
  datatype State = State(
    autoflush: bool,
    levels: Table, ledger: seq<Txn>,
    heads: seq<Head>, items: seq<ResItem>,
    transfers: seq<Transfer>, counts: seq<Count>,
    orders: seq<Order>, notes: seq<Note>)

  // ---- sums under updates ----

  lemma {:induction false} ReplaySame(a: seq<Txn>, b: seq<Txn>, n: nat, sc: Scope)
    requires n <= |a| && n <= |b|
    requires forall i | 0 <= i < n :: a[i] == b[i]
    ensures ReplayTo(a, n, sc) == ReplayTo(b, n, sc)
  {
    if n != 0 {
      ReplaySame(a, b, n - 1, sc);
    }
  }

  lemma {:induction false} ReplayConcatTo(a: seq<Txn>, b: seq<Txn>, n: nat, sc: Scope)
    requires n <= |b|
    ensures ReplayTo(a + b, |a| + n, sc) == Replay(a, sc) + ReplayTo(b, n, sc)
  {
    if n == 0 {
      ReplaySame(a + b, a, |a|, sc);
    } else {
      ReplayConcatTo(a, b, n - 1, sc);
      assert (a + b)[|a| + n - 1] == b[n - 1];
    }
  }

  lemma ReplayConcat(a: seq<Txn>, b: seq<Txn>, sc: Scope)
    ensures Replay(a + b, sc) == Replay(a, sc) + Replay(b, sc)
  {
    ReplayConcatTo(a, b, |b|, sc);
  }

  /** Rows that carry the entries of a document, all with one sign, replay to its sums. */
  lemma {:induction false} ReplayEntries(rows: seq<Txn>, es: seq<Entry>, leaving: bool, n: nat, sc: Scope)
    requires n <= |rows| == |es|
    requires forall i | 0 <= i < n :: rows[i].key == es[i].key && rows[i].quantity == Signed(leaving, es[i].amount)
    ensures ReplayTo(rows, n, sc) == Signed(leaving, SumTo(es, n, sc))
  {
    if n != 0 {
      ReplayEntries(rows, es, leaving, n - 1, sc);
    }
  }

  lemma {:induction false} TransitSame(a: seq<Transfer>, b: seq<Transfer>, n: nat, sc: Scope)
    requires n <= |a| && n <= |b|
    requires forall i | 0 <= i < n :: InFlight(a[i]) == InFlight(b[i])
    ensures TransitTo(a, n, sc) == TransitTo(b, n, sc)
  {
    if n != 0 {
      TransitSame(a, b, n - 1, sc);
    }
  }

  lemma {:induction false} TransitUpdate(ts: seq<Transfer>, id: nat, t: Transfer, n: nat, sc: Scope)
    requires id < n <= |ts|
    ensures TransitTo(ts[id := t], n, sc) == TransitTo(ts, n, sc) - Sum(InFlight(ts[id]), sc) + Sum(InFlight(t), sc)
  {
    if id == n - 1 {
      TransitSame(ts[id := t], ts, id, sc);
    } else {
      TransitUpdate(ts, id, t, n - 1, sc);
    }
  }

  lemma {:induction false} TransitNonNegative(ts: seq<Transfer>, n: nat, sc: Scope)
    requires n <= |ts|
    ensures 0 <= TransitTo(ts, n, sc)
  {
    if n != 0 {
      TransitNonNegative(ts, n - 1, sc);
      SumBound(InFlight(ts[n - 1]), 0, |InFlight(ts[n - 1])|, sc);
    }
  }

  lemma {:induction false} ConfirmedSame(a: seq<Note>, b: seq<Note>, n: nat, order: nat, line: nat)
    requires n <= |a| && n <= |b|
    requires forall i | 0 <= i < n :: a[i] == b[i]
    ensures ConfirmedTo(a, n, order, line) == ConfirmedTo(b, n, order, line)
  {
    if n != 0 {
      ConfirmedSame(a, b, n - 1, order, line);
    }
  }

  lemma {:induction false} ConfirmedUpdate(notes: seq<Note>, id: nat, x: Note, n: nat, order: nat, line: nat)
    requires id < n <= |notes|
    ensures ConfirmedTo(notes[id := x], n, order, line)
         == ConfirmedTo(notes, n, order, line) - Delivered(notes[id], order, line) + Delivered(x, order, line)
  {
    if id == n - 1 {
      ConfirmedSame(notes[id := x], notes, id, order, line);
    } else {
      ConfirmedUpdate(notes, id, x, n - 1, order, line);
    }
  }

  lemma {:induction false} ShippedNonNegative(lines: seq<NoteLine>, n: nat, line: nat)
    requires n <= |lines|
    ensures 0 <= ShippedTo(lines, n, line)
  {
    if n != 0 {
      ShippedNonNegative(lines, n - 1, line);
    }
  }

  lemma {:induction false} ConfirmedNonNegative(notes: seq<Note>, n: nat, order: nat, line: nat)
    requires n <= |notes|
    ensures 0 <= ConfirmedTo(notes, n, order, line)
  {
    if n != 0 {
      ConfirmedNonNegative(notes, n - 1, order, line);
      ShippedNonNegative(notes[n - 1].lines, |notes[n - 1].lines|, line);
    }
  }
}
