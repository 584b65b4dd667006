/** Whole runs of the stock service: any sequence of committed requests. */
module StockRuns {
  import opened Levels
  import opened Tables
  import opened StockInvariant
  import opened Rounding
  import opened Demands
  import Postings
  import Reservations
  import Bins
  import Transfers
  import Counts
  import Deliveries

  datatype Request =
    | Adjust(manager: bool, key: Key, quantity: real)
    | Dispose(warehouse: nat, product: nat, bins: set<Bin>, accepted: real, damaged: real)
    | Issue(asks: seq<Ask>)
    | EnterOrder(lines: seq<OrderLine>)
    | SetShippable(order: nat, shippable: bool)
    | Reserve(order: nat, rows: seq<Reservations.Row>, now: int)
    | CancelReservation(reservation: nat)
    | ExpireDue(manager: bool, cutoff: int)
    | CreateTransfer(yard: Bins.Yard, source: nat, destination: nat, drafts: seq<Transfers.Draft>)
    | ApproveTransfer(transfer: nat)
    | DispatchTransfer(transfer: nat)
    | ReceiveTransfer(transfer: nat, received: map<nat, real>)
    | CancelTransfer(transfer: nat)
    | CreateCount(manager: bool, warehouse: nat, keys: seq<Key>)
    | RecordCount(manager: bool, count: nat, line: nat, counted: Tally)
    | CompleteCount(manager: bool, count: nat)
    | ApproveCount(manager: bool, count: nat)
    | ReconcileCount(manager: bool, count: nat)
    | CancelCount(manager: bool, count: nat)
    | DraftNote(order: nat, header: Bin, slices: seq<Deliveries.Slice>)
    | RedraftNote(note: nat, header: Bin, slices: seq<Deliveries.Slice>)
    | ConfirmNote(note: nat)
    | CancelNote(note: nat)

  ghost predicate Orders(s: State, lines: seq<OrderLine>, s': State) {
    && (forall l <- lines :: l.delivered == 0)
    && s' == s.(orders := s.orders + [Order(false, lines)])
  }

  ghost predicate Ships(s: State, o: nat, shippable: bool, s': State) {
    o < |s.orders| && s' == s.(orders := s.orders[o := s.orders[o].(shippable := shippable)])
  }

  /** The request commits and takes the tables from `s` to `s'`. */
  ghost predicate Step(s: State, r: Request, s': State) {
    match r
    case Adjust(m, k, q) => Postings.Adjusts(s, m, k, q, s')
    case Dispose(w, p, bs, a, d) => Postings.Disposes(s, w, p, bs, a, d, s')
    case Issue(xs) => Postings.Issues(s, xs, s')
    case EnterOrder(ls) => Orders(s, ls, s')
    case SetShippable(o, b) => Ships(s, o, b, s')
    case Reserve(o, rows, now) => Reservations.Reserves(s, o, rows, now, s')
    case CancelReservation(h) => Reservations.Cancels(s, h, s')
    case ExpireDue(m, cutoff) => Reservations.Expires(s, m, cutoff, s')
    case CreateTransfer(y, a, b, ls) => Transfers.Creates(s, y, a, b, ls, s')
    case ApproveTransfer(t) => Transfers.Approves(s, t, s')
    case DispatchTransfer(t) => Transfers.Dispatches(s, t, s')
    case ReceiveTransfer(t, m) => Transfers.Receives(s, t, m, s')
    case CancelTransfer(t) => Transfers.Cancels(s, t, s')
    case CreateCount(m, w, ks) => Counts.Creates(s, m, w, ks, s')
    case RecordCount(m, c, l, q) => Counts.Records(s, m, c, l, q, s')
    case CompleteCount(m, c) => Counts.Completes(s, m, c, s')
    case ApproveCount(m, c) => Counts.Approves(s, m, c, s')
    case ReconcileCount(m, c) => Counts.Reconciles(s, m, c, s')
    case CancelCount(m, c) => Counts.Cancels(s, m, c, s')
    case DraftNote(o, h, xs) => Deliveries.Drafts(s, o, h, xs, s')
    case RedraftNote(n, h, xs) => Deliveries.Redrafts(s, n, h, xs, s')
    case ConfirmNote(n) => Deliveries.Confirms(s, n, s')
    case CancelNote(n) => Deliveries.Cancels(s, n, s')
  }

  function Empty(autoflush: bool): State {
    State(autoflush, map[], [], [], [], [], [], [], [])
  }

  lemma EmptyOk(autoflush: bool)
    ensures Inv(Empty(autoflush))
  {
    forall p
      ensures BalancedAt([], [], p)
    {
    }
  }

  lemma OrdersKeep(s: State, lines: seq<OrderLine>, s': State)
    requires Inv(s) && Orders(s, lines, s')
    ensures Inv(s')
  {
    forall o, l | 0 <= o < |s'.orders| && 0 <= l < |s'.orders[o].lines|
      ensures LineOk(s'.orders, s'.notes, o, l)
    {
      if o < |s.orders| {
        assert LineOk(s.orders, s.notes, o, l);
      } else {
        assert lines[l] in lines;
        NothingConfirmed(s.orders, s.notes, |s.notes|, o, l);
      }
    }
  }

  lemma {:induction false} NothingConfirmed(orders: seq<Order>, notes: seq<Note>, n: nat, o: nat, l: nat)
    requires n <= |notes| && o >= |orders|
    requires forall x <- notes :: NoteOk(orders, x)
    ensures ConfirmedTo(notes, n, o, l) == 0
  {
    if n != 0 {
      NothingConfirmed(orders, notes, n - 1, o, l);
      assert notes[n - 1] in notes;
    }
  }

  lemma ShipsKeep(s: State, o: nat, shippable: bool, s': State)
    requires Inv(s) && Ships(s, o, shippable, s')
    ensures Inv(s')
  {
    forall p, l | 0 <= p < |s.orders| && 0 <= l < |s.orders[p].lines|
      ensures LineOk(s'.orders, s'.notes, p, l)
    {
      assert LineOk(s.orders, s.notes, p, l);
    }
  }

  /** Every request keeps the whole invariant. */
  lemma StepKeeps(s: State, r: Request, s': State)
    requires Inv(s) && Step(s, r, s')
    ensures Inv(s')
  {
    match r
    case Adjust(m, k, q) => Postings.AdjustKeeps(s, m, k, q, s');
    case Dispose(w, p, bs, a, d) => Postings.DisposeKeeps(s, w, p, bs, a, d, s');
    case Issue(xs) => Postings.IssueKeeps(s, xs, s');
    case EnterOrder(ls) => OrdersKeep(s, ls, s');
    case SetShippable(o, b) => ShipsKeep(s, o, b, s');
    case Reserve(o, rows, now) => Reservations.ReserveKeeps(s, o, rows, now, s');
    case CancelReservation(h) => Reservations.ReleaseKeeps(s, {h}, CANCELLED, s');
    case ExpireDue(_, cutoff) => Reservations.ReleaseKeeps(s, Reservations.Due(s.heads, cutoff), EXPIRED, s');
    case CreateTransfer(y, a, b, ls) => Transfers.CreateKeeps(s, y, a, b, ls, s');
    case ApproveTransfer(t) => Transfers.ApproveKeeps(s, t, s');
    case DispatchTransfer(t) => Transfers.DispatchKeeps(s, t, s');
    case ReceiveTransfer(t, m) => Transfers.ReceiveKeeps(s, t, m, s');
    case CancelTransfer(t) => Transfers.CancelKeeps(s, t, s');
    case CreateCount(m, w, ks) => Counts.CreateKeeps(s, m, w, ks, s');
    case RecordCount(m, c, l, q) => Counts.RecordKeeps(s, m, c, l, q, s');
    case CompleteCount(m, c) => Counts.CompleteKeeps(s, m, c, s');
    case ApproveCount(m, c) => Counts.ApproveKeeps(s, m, c, s');
    case ReconcileCount(m, c) => Counts.ReconcileKeeps(s, m, c, s');
    case CancelCount(m, c) => Counts.CancelKeeps(s, m, c, s');
    case DraftNote(o, h, xs) => Deliveries.DraftKeeps(s, o, h, xs, s');
    case RedraftNote(n, h, xs) => Deliveries.RedraftKeeps(s, n, h, xs, s');
    case ConfirmNote(n) => Deliveries.ConfirmKeeps(s, n, s');
    case CancelNote(n) => Deliveries.CancelKeeps(s, n, s');
  }

  // ---- how a request moves a cached column away from what it caches ----

  /** The lines of a request that reach `on_hand` without having been stored before. */
  function StockAsks(s: State, r: Request): seq<Ask> {
    match r
    case Adjust(_, k, q) => [Ask(k, q)]
    case Issue(xs) => Postings.Taken(xs)
    case ReceiveTransfer(t, m) => if t < |s.transfers| then Transfers.Arrivals(m, s.transfers[t].lines) else []
    case _ => []
  }

  /** Those that reach `reserved`. */
  function HoldAsks(s: State, r: Request): seq<Ask> {
    match r
    case Reserve(o, rows, _) => if o < |s.orders| then Reservations.RowAsks(s, o, rows) else []
    case _ => []
  }

  /** What the session reads back between those lines. */
  function StockReloads(s: State, r: Request): (cuts: seq<Reload>)
    ensures |cuts| == |StockAsks(s, r)|
  {
    Reloads(s.autoflush, s.levels, StockAsks(s, r), if r.Issue? then Everything else Others)
  }

  function HoldReloads(s: State, r: Request): (cuts: seq<Reload>)
    ensures |cuts| == |HoldAsks(s, r)|
  {
    Reloads(s.autoflush, s.levels, HoldAsks(s, r), Others)
  }

  /** How far the request moves `on_hand` of level `k` away from the ledger. */
  function Slipped(s: State, r: Request, k: Key): int {
    Slip(Get(s.levels, k).onHand, StockAsks(s, r), StockReloads(s, r), k)
  }

  /** How far it moves `reserved` away from the reservation lines. */
  function HoldSlipped(s: State, r: Request, k: Key): int {
    Slip(Get(s.levels, k).reserved, HoldAsks(s, r), HoldReloads(s, r), k)
  }

  predicate MovesStock(r: Request) {
    r.Adjust? || r.Dispose? || r.Issue? || r.DispatchTransfer? || r.ReceiveTransfer? || r.CancelTransfer?
    || r.ReconcileCount? || r.ConfirmNote? || r.CancelNote?
  }

  lemma StillStock(s: State, r: Request, s': State, k: Key)
    requires Step(s, r, s') && !MovesStock(r)
    ensures s'.ledger == s.ledger && Get(s'.levels, k).onHand == Get(s.levels, k).onHand && Slipped(s, r, k) == 0
  {
    SlipNone(Get(s.levels, k).onHand, [], [], k);
  }

  predicate Posts(r: Request) {
    r.Adjust? || r.Dispose? || r.Issue?
  }

  lemma PostingSlips(s: State, r: Request, s': State, k: Key)
    requires Inv(s) && Step(s, r, s') && Posts(r)
    ensures OnHandGap(s'.levels, s'.ledger, k) == OnHandGap(s.levels, s.ledger, k) + Slipped(s, r, k)
  {
    match r
    case Adjust(m, j, q) => Postings.PostGap(s, [Ask(j, q)], Others, [Postings.AdjustRow(j, q)], [], s', k);
    case Dispose(w, p, bs, a, d) =>
      SlipNone(Get(s.levels, k).onHand, [], [], k);
      Postings.DisposeKeeps(s, w, p, bs, a, d, s');
    case Issue(xs) => Postings.PostGap(s, Postings.Taken(xs), Everything, Postings.IssueRows(xs, |xs|), [], s', k);
  }

  /** Requests that move stored quantities only never slip. */
  lemma StoredSlips(s: State, r: Request, s': State, k: Key)
    requires Inv(s) && Step(s, r, s') && MovesStock(r) && !Posts(r) && !r.ReceiveTransfer?
    ensures OnHandGap(s'.levels, s'.ledger, k) == OnHandGap(s.levels, s.ledger, k)
  {
    match r
    case DispatchTransfer(t) => Transfers.DispatchKeeps(s, t, s');
    case CancelTransfer(t) => Transfers.CancelKeeps(s, t, s');
    case ReconcileCount(m, c) => Counts.ReconcileKeeps(s, m, c, s');
    case ConfirmNote(n) => if s.notes[n].status == N_DRAFT { Deliveries.ConfirmGap(s, n, s', k); }
    case CancelNote(n) => Deliveries.CancelGap(s, n, s', k);
  }

  /** Whatever the request, the gap between snapshot and ledger grows by its slip and by nothing else. */
  lemma StepSlips(s: State, r: Request, s': State, k: Key)
    requires Inv(s) && Step(s, r, s')
    ensures OnHandGap(s'.levels, s'.ledger, k) == OnHandGap(s.levels, s.ledger, k) + Slipped(s, r, k)
  {
    if !MovesStock(r) {
      StillStock(s, r, s', k);
    } else if Posts(r) {
      PostingSlips(s, r, s', k);
    } else if r.ReceiveTransfer? {
      ReceiptStepSlips(s, r.transfer, r.received, s', k);
    } else {
      StoredSlips(s, r, s', k);
      SlipNone(Get(s.levels, k).onHand, [], [], k);
    }
  }

  lemma ReceiptStepSlips(s: State, t: nat, m: map<nat, real>, s': State, k: Key)
    requires Inv(s) && Transfers.Receives(s, t, m, s')
    ensures OnHandGap(s'.levels, s'.ledger, k) == OnHandGap(s.levels, s.ledger, k) + Slipped(s, ReceiveTransfer(t, m), k)
  {
    Transfers.ReceiptGap(s, t, m, s', k);
  }

  predicate MovesHolds(r: Request) {
    r.Reserve? || r.CancelReservation? || r.ExpireDue? || r.ConfirmNote?
  }

  lemma StillHolds(s: State, r: Request, s': State, k: Key)
    requires Step(s, r, s') && !MovesHolds(r)
    ensures s'.items == s.items && Get(s'.levels, k).reserved == Get(s.levels, k).reserved && HoldSlipped(s, r, k) == 0
  {
    SlipNone(Get(s.levels, k).reserved, [], [], k);
  }

  /** The gap between `reserved` and its lines grows by the slip of the request; where a release lets a
      level stop at the floor, it is what the lines that stay open claim. */
  lemma StepHolds(s: State, r: Request, s': State, k: Key)
    requires Inv(s) && Step(s, r, s')
    ensures HeldGap(s'.levels, s'.items, k)
         == Max(HeldGap(s.levels, s.items, k) + HoldSlipped(s, r, k), -Sum(Claims(s'.items), One(k)))
  {
    StepKeeps(s, r, s');
    assert NonNegativeLevel(Get(s.levels, k)) && NonNegativeLevel(Get(s'.levels, k));
    SlipNone(Get(s.levels, k).reserved, [], [], k);
    if r.Reserve? {
      ReserveStepHolds(s, r.order, r.rows, r.now, s', k);
    } else if r.CancelReservation? {
      Reservations.ReleaseGap(s, {r.reservation}, CANCELLED, s', k);
    } else if r.ExpireDue? {
      Reservations.ReleaseGap(s, Reservations.Due(s.heads, r.cutoff), EXPIRED, s', k);
    } else if r.ConfirmNote? {
      if s.notes[r.note].status == N_DRAFT {
        Deliveries.ConfirmGap(s, r.note, s', k);
      }
    } else {
      StillHolds(s, r, s', k);
    }
  }

  lemma ReserveStepHolds(s: State, o: nat, rows: seq<Reservations.Row>, now: int, s': State, k: Key)
    requires Inv(s) && Reservations.Reserves(s, o, rows, now, s')
    ensures HeldGap(s'.levels, s'.items, k) == HeldGap(s.levels, s.items, k) + HoldSlipped(s, Reserve(o, rows, now), k)
  {
    Reservations.ReserveGap(s, o, rows, now, s', k);
  }

  predicate AtMostOne(xs: seq<Ask>, k: Key) {
    forall i, j | 0 <= i < j < |xs| :: xs[i].key != k || xs[j].key != k
  }

  /** A line takes from level `k` a quantity that ends in half a hundredth. */
  predicate TakesHalf(xs: seq<Ask>, k: Key) {
    exists x <- xs :: x.key == k && x.amount < 0.0 && EndsInHalf(x.amount)
  }

  lemma SlipSingle(h: nat, xs: seq<Ask>, cuts: seq<Reload>, k: Key)
    requires |xs| == |cuts| && AtMostOne(xs, k)
    requires forall i | 0 <= i < |xs| && xs[i].key == k :: 0.0 <= h as real + xs[i].amount
    ensures Slip(h, xs, cuts, k) == if TakesHalf(xs, k) then 1 else 0
  {
    if i :| 0 <= i < |xs| && xs[i].key == k {
      SlipOne(h, xs, cuts, i);
      assert xs[i] in xs;
      forall x <- xs | x.key == k
        ensures x == xs[i]
      {
        var j :| 0 <= j < |xs| && xs[j] == x;
      }
    } else {
      SlipNone(h, xs, cuts, k);
    }
  }

  /** A request with at most one line on a level slips there by one hundredth if the line takes a quantity
      that ends in half a hundredth, and not at all otherwise; so one line a level never slips in a
      receipt or a reservation. */
  lemma OneLineSlips(s: State, r: Request, s': State, k: Key)
    requires Inv(s) && Step(s, r, s')
    requires AtMostOne(StockAsks(s, r), k) && AtMostOne(HoldAsks(s, r), k)
    ensures Slipped(s, r, k) == if TakesHalf(StockAsks(s, r), k) then 1 else 0
    ensures HoldSlipped(s, r, k) == 0
    ensures r.ReceiveTransfer? ==> Slipped(s, r, k) == 0
  {
    assert NonNegativeLevel(Get(s.levels, k));
    StockFits(s, r, s', k);
    SlipSingle(Get(s.levels, k).onHand, StockAsks(s, r), StockReloads(s, r), k);
    SlipSingle(Get(s.levels, k).reserved, HoldAsks(s, r), HoldReloads(s, r), k);
  }

  /** A single line never takes a level below zero. */
  lemma StockFits(s: State, r: Request, s': State, k: Key)
    requires Inv(s) && Step(s, r, s') && AtMostOne(StockAsks(s, r), k)
    ensures forall i | 0 <= i < |StockAsks(s, r)| && StockAsks(s, r)[i].key == k ::
              0.0 <= Get(s.levels, k).onHand as real + StockAsks(s, r)[i].amount
    ensures r.ReceiveTransfer? ==> Rising(StockAsks(s, r))
  {
    assert NonNegativeLevel(Get(s.levels, k));
    if r.Issue? {
      IssueFits(s, r.asks, k);
    }
  }

  lemma IssueFits(s: State, lines: seq<Ask>, k: Key)
    requires NonNegativeLevels(s.levels) && Postings.IssueRefusal(s, lines) == None && AtMostOne(Postings.Taken(lines), k)
    ensures forall i | 0 <= i < |lines| && lines[i].key == k ::
              0.0 <= Get(s.levels, k).onHand as real + Postings.Taken(lines)[i].amount
  {
    var xs := Postings.Taken(lines);
    assert NonNegativeLevel(Get(s.levels, k));
    forall i | 0 <= i < |lines| && lines[i].key == k
      ensures 0.0 <= Get(s.levels, k).onHand as real + xs[i].amount
    {
      assert forall j | 0 <= j < |xs| && j != i :: xs[j].key != xs[i].key;
      assert forall j | 0 <= j < |lines| :: xs[j].key == lines[j].key;
      Postings.AloneFits(s, lines, i);
    }
  }

  /** Every quantity that could slip has two decimals. */
  predicate TwoDecimals(r: Request) {
    match r
    case Adjust(_, _, q) => IsWhole(q)
    case Issue(xs) => forall x <- xs :: IsWhole(x.amount)
    case Reserve(_, rows, _) => forall row <- rows :: IsWhole(row.quantity)
    case ReceiveTransfer(_, m) => forall p <- m :: IsWhole(m[p])
    case _ => true
  }

  lemma TwoDecimalsNeverSlip(s: State, r: Request, k: Key)
    requires TwoDecimals(r)
    ensures Slipped(s, r, k) == HoldSlipped(s, r, k) == 0
  {
    SlipNone(Get(s.levels, k).onHand, [], [], k);
    SlipNone(Get(s.levels, k).reserved, [], [], k);
    WholeAsks(s, r);
    if StockAsks(s, r) != [] {
      SlipWhole(Get(s.levels, k).onHand, StockAsks(s, r), StockReloads(s, r), k);
    }
    if HoldAsks(s, r) != [] {
      SlipWhole(Get(s.levels, k).reserved, HoldAsks(s, r), HoldReloads(s, r), k);
    }
  }

  lemma WholeAsks(s: State, r: Request)
    requires TwoDecimals(r)
    ensures forall i | 0 <= i < |StockAsks(s, r)| :: IsWhole(StockAsks(s, r)[i].amount)
    ensures forall i | 0 <= i < |HoldAsks(s, r)| :: IsWhole(HoldAsks(s, r)[i].amount)
  {
    match r
    case Issue(xs) =>
      forall i | 0 <= i < |xs|
        ensures IsWhole(Postings.Taken(xs)[i].amount)
      {
        assert xs[i] in xs;
        FloorIs(-xs[i].amount, -xs[i].amount.Floor);
      }
    case Reserve(o, rows, _) => assert forall i | 0 <= i < |rows| :: rows[i] in rows;
    case _ =>
  }

  // ---- runs ----

  /** `states` is what the tables look like before, between and after `requests`. */
  ghost predicate Run(states: seq<State>, requests: seq<Request>) {
    && |states| == |requests| + 1
    && forall i | 0 <= i < |requests| :: Step(states[i], requests[i], states[i + 1])
  }

  /** A delivery note that left DRAFT keeps its lines for good. */
  predicate NoteFrozen(before: Note, after: Note) {
    before.order == after.order && (before.status != N_DRAFT ==> after.status != N_DRAFT && after.lines == before.lines)
  }

  /** What no request can undo: ledger rows stay, and frozen notes stay as they are. */
  ghost predicate Extends(s: State, s': State) {
    && s.ledger <= s'.ledger
    && |s.notes| <= |s'.notes|
    && s.autoflush == s'.autoflush
    && forall i | 0 <= i < |s.notes| :: NoteFrozen(s.notes[i], s'.notes[i])
  }

  lemma LedgerGrows(s: State, r: Request, s': State)
    requires Step(s, r, s')
    ensures s.ledger <= s'.ledger && s.autoflush == s'.autoflush
  {
  }

  lemma NotesFreeze(s: State, r: Request, s': State)
    requires Step(s, r, s')
    ensures |s.notes| <= |s'.notes| && forall i | 0 <= i < |s.notes| :: NoteFrozen(s.notes[i], s'.notes[i])
  {
    if !r.DraftNote? && !r.RedraftNote? && !r.ConfirmNote? && !r.CancelNote? {
      assert s'.notes == s.notes;
    }
  }

  lemma StepExtends(s: State, r: Request, s': State)
    requires Step(s, r, s')
    ensures Extends(s, s')
  {
    LedgerGrows(s, r, s');
    NotesFreeze(s, r, s');
  }

  /** Any run keeps the whole invariant. */
  lemma {:induction false} RunKeeps(states: seq<State>, requests: seq<Request>, i: nat)
    requires Run(states, requests) && Inv(states[0])
    requires i <= |requests|
    ensures Inv(states[i])
  {
    if i != 0 {
      RunKeeps(states, requests, i - 1);
      StepKeeps(states[i - 1], requests[i - 1], states[i]);
    }
  }

  /** The ledger is append-only over any stretch of a run. */
  lemma {:induction false} RunExtends(states: seq<State>, requests: seq<Request>, i: nat, j: nat)
    requires Run(states, requests)
    requires i <= j <= |requests|
    ensures Extends(states[i], states[j])
  {
    if i != j {
      RunExtends(states, requests, i, j - 1);
      StepExtends(states[j - 1], requests[j - 1], states[j]);
      assert forall n | 0 <= n < |states[i].notes| ::
        NoteFrozen(states[i].notes[n], states[j - 1].notes[n]) && NoteFrozen(states[j - 1].notes[n], states[j].notes[n]);
    }
  }

  predicate Counting(r: Request) {
    r.CreateCount? || r.RecordCount? || r.CompleteCount? || r.ApproveCount? || r.ReconcileCount? || r.CancelCount?
  }

  lemma CountsStay(s: State, r: Request, s': State)
    requires Step(s, r, s') && !Counting(r)
    ensures s'.counts == s.counts
  {
  }

  lemma CountingStays(s: State, r: Request, s': State)
    requires Step(s, r, s') && Counting(r)
    ensures Counts.Stay(s.counts, s'.counts)
  {
    match r
    case CreateCount(m, w, ks) => Counts.CreateStays(s, m, w, ks, s');
    case RecordCount(m, c, l, q) => Counts.RecordStays(s, m, c, l, q, s');
    case CompleteCount(m, c) => Counts.CompleteStays(s, m, c, s');
    case ApproveCount(m, c) => Counts.ApproveStays(s, m, c, s');
    case ReconcileCount(m, c) => Counts.ReconcileStays(s, m, c, s');
    case CancelCount(m, c) => Counts.CancelStays(s, m, c, s');
  }

  lemma StepKeepsCounts(s: State, r: Request, s': State)
    requires Step(s, r, s')
    ensures Counts.Stay(s.counts, s'.counts)
  {
    if Counting(r) {
      CountingStays(s, r, s');
    } else {
      CountsStay(s, r, s');
    }
  }

  lemma {:induction false} RunKeepsCounts(states: seq<State>, requests: seq<Request>, i: nat, j: nat, id: nat)
    requires Run(states, requests)
    requires i <= j <= |requests| && id < |states[i].counts|
    ensures id < |states[j].counts| && Counts.Kept(states[i].counts[id], states[j].counts[id])
  {
    if i != j {
      RunKeepsCounts(states, requests, i, j - 1, id);
      StepKeepsCounts(states[j - 1], requests[j - 1], states[j]);
    }
  }
}
