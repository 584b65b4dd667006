/** What every reachable state of the stock tables satisfies. */
module StockInvariant {
  import opened Levels
  import opened Tables
  import opened Rounding
  import opened Demands

  /** How far the snapshot is from the replay of the ledger. */
  function OnHandGap(levels: Table, ledger: seq<Txn>, k: Key): int {
    Get(levels, k).onHand - Replay(ledger, One(k))
  }

  /** How far `reserved` is from the open claims of the reservation lines it caches. */
  function HeldGap(levels: Table, items: seq<ResItem>, k: Key): int {
    Get(levels, k).reserved - Sum(Claims(items), One(k))
  }

  /** `in_transit` caches the shipments under way. */
  ghost predicate TransitAgrees(levels: Table, transfers: seq<Transfer>) {
    forall k :: Get(levels, k).inTransit == Transit(transfers, One(k))
  }

  /** The four CHECK constraints of `inventory_levels`. */
  ghost predicate NonNegativeLevels(levels: Table) {
    forall k :: NonNegativeLevel(Get(levels, k))
  }

  predicate NonNegativeLevel(l: Level) {
    0 <= l.onHand && 0 <= l.reserved && 0 <= l.damaged && 0 <= l.inTransit
  }

  ghost predicate ItemsOk(heads: seq<Head>, items: seq<ResItem>) {
    forall i | 0 <= i < |items| :: ItemOk(heads, items[i])
  }

  predicate ItemOk(heads: seq<Head>, it: ResItem) {
    && it.head < |heads|
    && 0 <= it.consumed <= it.quantity
    && (it.status == ACTIVE ==> it.consumed < it.quantity && heads[it.head].status == ACTIVE)
    && (it.status == DISPATCHED ==> it.consumed == it.quantity)
  }

  predicate LinesOk(t: Transfer) {
    forall l <- t.lines :: 0 <= l.received <= l.quantity && l.source.warehouse != l.destination.warehouse
  }

  ghost predicate TransfersOk(transfers: seq<Transfer>) {
    forall t <- transfers :: LinesOk(t)
  }

  function ExternalTo(ledger: seq<Txn>, n: nat, p: nat): int
    requires n <= |ledger|
  {
    if n == 0 then 0
    else ExternalTo(ledger, n - 1, p)
         + if ledger[n - 1].kind != TRANSFER && ledger[n - 1].key.product == p then ledger[n - 1].quantity else 0
  }

  /** Quantity of a product that entered or left the company's warehouses: every non-TRANSFER row. */
  function External(ledger: seq<Txn>, p: nat): int {
    ExternalTo(ledger, |ledger|, p)
  }

  /** Dispatched but not booked in on receipt: the discrepancy the transfer lines record. */
  function Shortfall(t: Transfer, p: nat): int {
    if t.status == T_RECEIVED then Sum(Outgoing(t.lines), All(p)) - Sum(Incoming(t.lines), All(p)) else 0
  }

  function LostTo(ts: seq<Transfer>, n: nat, p: nat): int
    requires n <= |ts|
  {
    if n == 0 then 0 else LostTo(ts, n - 1, p) + Shortfall(ts[n - 1], p)
  }

  function Lost(ts: seq<Transfer>, p: nat): int {
    LostTo(ts, |ts|, p)
  }

  ghost predicate BalancedAt(ledger: seq<Txn>, transfers: seq<Transfer>, p: nat) {
    Replay(ledger, All(p)) + Transit(transfers, All(p)) + Lost(transfers, p) == External(ledger, p)
  }

  /** Transfers neither make nor lose stock of a product without recording it. */
  ghost predicate Balanced(ledger: seq<Txn>, transfers: seq<Transfer>) {
    forall p :: BalancedAt(ledger, transfers, p)
  }

  predicate Distinct(lines: seq<CountLine>) {
    forall i, j | 0 <= i < j < |lines| :: lines[i].key != lines[j].key
  }

  ghost predicate CountOk(c: Count, ledger: seq<Txn>) {
    && c.since <= |ledger|
    && Distinct(c.lines)
    && (forall l <- c.lines :: 0 <= l.expected)
    && (c.status in {C_COMPLETED, C_RECONCILED} ==> forall l <- c.lines :: l.counted.Some?)
  }

  ghost predicate CountsOk(counts: seq<Count>, ledger: seq<Txn>) {
    forall c <- counts :: CountOk(c, ledger)
  }

  predicate NoteOk(orders: seq<Order>, n: Note) {
    n.order < |orders| && n.lines != [] && forall l <- n.lines :: l.line < |orders[n.order].lines|
  }

  ghost predicate LineOk(orders: seq<Order>, notes: seq<Note>, o: nat, l: nat)
    requires o < |orders| && l < |orders[o].lines|
  {
    && 0 <= orders[o].lines[l].delivered <= orders[o].lines[l].quantity
    && Confirmed(notes, o, l) <= orders[o].lines[l].quantity
  }

  /** No LPO line is over-delivered, by its stored figure or by its confirmed notes. */
  ghost predicate DeliveriesOk(orders: seq<Order>, notes: seq<Note>) {
    && (forall n <- notes :: NoteOk(orders, n))
    && forall o, l | 0 <= o < |orders| && 0 <= l < |orders[o].lines| :: LineOk(orders, notes, o, l)
  }

  ghost predicate Inv(s: State) {
    && TransitAgrees(s.levels, s.transfers)
    && NonNegativeLevels(s.levels)
    && ItemsOk(s.heads, s.items)
    && TransfersOk(s.transfers)
    && Balanced(s.ledger, s.transfers)
    && CountsOk(s.counts, s.ledger)
    && DeliveriesOk(s.orders, s.notes)
  }

  // ---- how the parts react to a document ----

  /** The rows say of every level what the lines come to when each is rounded. */
  ghost predicate RowsCarry(rows: seq<Txn>, xs: seq<Ask>) {
    forall k :: Replay(rows, One(k)) == Sum(Written(xs), One(k))
  }

  lemma LinesCarry(rows: seq<Txn>, xs: seq<Ask>)
    requires |rows| == |xs|
    requires forall i | 0 <= i < |xs| :: rows[i].key == xs[i].key && rows[i].quantity == Nearest(xs[i].amount)
    ensures RowsCarry(rows, xs)
  {
    forall k
      ensures Replay(rows, One(k)) == Sum(Written(xs), One(k))
    {
      ReplayEntries(rows, Written(xs), false, |xs|, One(k));
    }
  }

  /** When the rows carry the lines of a document and `on_hand` takes them, the snapshot of a level moves
      away from its replay by the slip of those lines. */
  lemma PostingGap(levels: Table, levels': Table, ledger: seq<Txn>, rows: seq<Txn>, xs: seq<Ask>, cuts: seq<Reload>, k: Key)
    requires |xs| == |cuts| && RowsCarry(rows, xs)
    requires Get(levels', k).onHand == Column(Get(levels, k).onHand, xs, cuts, k)
    ensures OnHandGap(levels', ledger + rows, k) == OnHandGap(levels, ledger, k) + Slip(Get(levels, k).onHand, xs, cuts, k)
  {
    ReplayConcat(ledger, rows, One(k));
  }

  /** Rows that carry the stored lines of a document leave the gap as it is. */
  lemma StoredPostingGap(levels: Table, levels': Table, ledger: seq<Txn>, rows: seq<Txn>, es: seq<Entry>, leaving: bool, k: Key)
    requires |rows| == |es|
    requires forall i | 0 <= i < |es| :: rows[i].key == es[i].key && rows[i].quantity == Signed(leaving, es[i].amount)
    requires Get(levels', k).onHand == Get(levels, k).onHand + Signed(leaving, Sum(es, One(k)))
    ensures OnHandGap(levels', ledger + rows, k) == OnHandGap(levels, ledger, k)
  {
    ReplayConcat(ledger, rows, One(k));
    ReplayEntries(rows, es, leaving, |es|, One(k));
  }

  lemma CountsKeep(counts: seq<Count>, ledger: seq<Txn>, rows: seq<Txn>)
    requires CountsOk(counts, ledger)
    ensures CountsOk(counts, ledger + rows)
  {
  }

  lemma {:induction false} ExternalSame(a: seq<Txn>, b: seq<Txn>, n: nat, p: nat)
    requires n <= |a| && n <= |b|
    requires forall i | 0 <= i < n :: a[i] == b[i]
    ensures ExternalTo(a, n, p) == ExternalTo(b, n, p)
  {
    if n != 0 {
      ExternalSame(a, b, n - 1, p);
    }
  }

  /** Transfer rows are internal; any other kind of row is external in full. */
  lemma {:induction false} ExternalAppend(ledger: seq<Txn>, rows: seq<Txn>, moved: bool, n: nat, p: nat)
    requires n <= |rows|
    requires forall t <- rows :: (t.kind == TRANSFER) == moved
    ensures ExternalTo(ledger + rows, |ledger| + n, p)
         == External(ledger, p) + if moved then 0 else ReplayTo(rows, n, All(p))
  {
    if n == 0 {
      ExternalSame(ledger + rows, ledger, |ledger|, p);
    } else {
      ExternalAppend(ledger, rows, moved, n - 1, p);
      assert (ledger + rows)[|ledger| + n - 1] == rows[n - 1];
      assert rows[n - 1] in rows;
    }
  }

  lemma BalancedOutside(ledger: seq<Txn>, rows: seq<Txn>, transfers: seq<Transfer>)
    requires Balanced(ledger, transfers)
    requires forall t <- rows :: t.kind != TRANSFER
    ensures Balanced(ledger + rows, transfers)
  {
    forall p
      ensures BalancedAt(ledger + rows, transfers, p)
    {
      assert BalancedAt(ledger, transfers, p);
      ReplayConcat(ledger, rows, All(p));
      ExternalAppend(ledger, rows, false, |rows|, p);
    }
  }

  lemma {:induction false} LostSame(a: seq<Transfer>, b: seq<Transfer>, n: nat, p: nat)
    requires n <= |a| && n <= |b|
    requires forall i | 0 <= i < n :: Shortfall(a[i], p) == Shortfall(b[i], p)
    ensures LostTo(a, n, p) == LostTo(b, n, p)
  {
    if n != 0 {
      LostSame(a, b, n - 1, p);
    }
  }

  lemma {:induction false} LostUpdate(ts: seq<Transfer>, id: nat, t: Transfer, n: nat, p: nat)
    requires id < n <= |ts|
    ensures LostTo(ts[id := t], n, p) == LostTo(ts, n, p) - Shortfall(ts[id], p) + Shortfall(t, p)
  {
    if id == n - 1 {
      LostSame(ts[id := t], ts, id, p);
    } else {
      LostUpdate(ts, id, t, n - 1, p);
    }
  }

  /** A transfer step keeps the balance when its rows make up for what it changes in the transfer. */
  lemma BalancedMove(ledger: seq<Txn>, rows: seq<Txn>, ts: seq<Transfer>, id: nat, t: Transfer, p: nat)
    requires id < |ts| && BalancedAt(ledger, ts, p)
    requires forall r <- rows :: r.kind == TRANSFER
    requires Replay(rows, All(p)) + Sum(InFlight(t), All(p)) + Shortfall(t, p)
          == Sum(InFlight(ts[id]), All(p)) + Shortfall(ts[id], p)
    ensures BalancedAt(ledger + rows, ts[id := t], p)
  {
    ReplayConcat(ledger, rows, All(p));
    ExternalAppend(ledger, rows, true, |rows|, p);
    TransitUpdate(ts, id, t, |ts|, All(p));
    LostUpdate(ts, id, t, |ts|, p);
  }
}
