/** Stock transfers between warehouses: what each step may do to the tables. */
module Transfers {
  import opened Levels
  import opened Tables
  import opened StockInvariant
  import opened Rounding
  import opened Demands
  import opened Bins

  function DispatchRow(id: nat, l: TransferLine): Txn {
    Txn(TRANSFER, Key(l.product, l.source), false, 0 - l.quantity, Moving(id))
  }

  function ReceiptRow(id: nat, l: TransferLine): Txn {
    Txn(TRANSFER, Key(l.product, l.destination), true, l.received, Moving(id))
  }

  /** The return of a cancelled shipment names the source bin although stock comes in. */
  function ReturnRow(id: nat, l: TransferLine): Txn {
    Txn(TRANSFER, Key(l.product, l.source), false, l.quantity, MovedBack(id))
  }

  function DispatchRows(id: nat, lines: seq<TransferLine>): (rows: seq<Txn>)
    ensures |rows| == |lines|
  {
    seq(|lines|, i requires 0 <= i < |lines| => DispatchRow(id, lines[i]))
  }

  function ReceiptRows(id: nat, lines: seq<TransferLine>): (rows: seq<Txn>)
    ensures |rows| == |lines|
  {
    seq(|lines|, i requires 0 <= i < |lines| => ReceiptRow(id, lines[i]))
  }

  function ReturnRows(id: nat, lines: seq<TransferLine>): (rows: seq<Txn>)
    ensures |rows| == |lines|
  {
    seq(|lines|, i requires 0 <= i < |lines| => ReturnRow(id, lines[i]))
  }

  /** Quantities that arrive: the receipt map is keyed by product, a missing product arrives in full. */
  function Arrival(received: map<nat, real>, l: TransferLine): real {
    if l.product in received then received[l.product] else l.quantity as real
  }

  function ReceivedLine(received: map<nat, real>, l: TransferLine): TransferLine {
    l.(received := Nearest(Arrival(received, l)))
  }

  function Received(received: map<nat, real>, lines: seq<TransferLine>): (ls: seq<TransferLine>)
    ensures |ls| == |lines|
  {
    seq(|lines|, i requires 0 <= i < |lines| => ReceivedLine(received, lines[i]))
  }

  /** What arrives at the destination levels. */
  function Arrivals(received: map<nat, real>, lines: seq<TransferLine>): (xs: seq<Ask>)
    ensures |xs| == |lines|
  {
    seq(|lines|, i requires 0 <= i < |lines| =>
      Ask(Key(lines[i].product, lines[i].destination), Arrival(received, lines[i])))
  }

  /** Between two lines of a receipt the loop still refers to the destination row of the first; the source
      rows exist since the dispatch. */
  function ArrivalReloads(autoflush: bool, levels: Table, received: map<nat, real>, lines: seq<TransferLine>): (cuts: seq<Reload>)
    ensures |cuts| == |lines|
  {
    Reloads(autoflush, levels, Arrivals(received, lines), Others)
  }

  /** No line is said to receive less than nothing or more than was sent. */
  predicate Plausible(received: map<nat, real>, lines: seq<TransferLine>) {
    PlausibleTo(received, lines, |lines|)
  }

  predicate PlausibleTo(received: map<nat, real>, lines: seq<TransferLine>, n: nat)
    requires n <= |lines|
  {
    forall i | 0 <= i < n :: 0.0 <= Arrival(received, lines[i]) <= lines[i].quantity as real
  }

  /** A requested line; a bin it does not name is chosen for it. */
  datatype Draft = Draft(product: nat, source: Option<Bin>, destination: Option<Bin>, quantity: Amount)

  /** One of the first `n` lines would be stored as zero, which the database does not take. */
  predicate TinyTo(drafts: seq<Draft>, n: nat)
    requires n <= |drafts|
  {
    exists i | 0 <= i < n :: Nearest(drafts[i].quantity) == 0
  }

  /** Why line `i` is refused; a session that flushes by itself writes the lines before it first. */
  function DraftRefusal(autoflush: bool, yard: Yard, source: nat, destination: nat, drafts: seq<Draft>, i: nat): Option<Error>
    requires i < |drafts|
  {
    if autoflush && TinyTo(drafts, i) then Some(CheckViolation)
    else if BinRefusal(yard, source, drafts[i].source).Some? then BinRefusal(yard, source, drafts[i].source)
    else BinRefusal(yard, destination, drafts[i].destination)
  }

  function DraftVerdicts(autoflush: bool, yard: Yard, source: nat, destination: nat, drafts: seq<Draft>)
    : (verdicts: seq<Option<Error>>)
    ensures |verdicts| == |drafts|
  {
    seq(|drafts|, i requires 0 <= i < |drafts| => DraftRefusal(autoflush, yard, source, destination, drafts, i))
  }

  /** A draft as it is stored. */
  ghost predicate Enters(yard: Yard, source: nat, destination: nat, d: Draft, l: TransferLine) {
    && l.product == d.product && l.quantity == Nearest(d.quantity) && l.received == 0
    && Resolved(yard, source, d.source, l.source) && Resolved(yard, destination, d.destination, l.destination)
  }

  /** The first `n` drafts as they are stored. */
  ghost predicate EnteredTo(yard: Yard, source: nat, destination: nat, drafts: seq<Draft>, n: nat, lines: seq<TransferLine>)
    requires n <= |drafts|
  {
    |lines| == n && forall i | 0 <= i < n :: Enters(yard, source, destination, drafts[i], lines[i])
  }

  // ---- refusals: the error a request meets, in the order the service looks for them ----

  function CreateRefusal(s: State, yard: Yard, source: nat, destination: nat, drafts: seq<Draft>): Option<Error> {
    var refused := FirstTo(DraftVerdicts(s.autoflush, yard, source, destination, drafts), |drafts|);
    if source == destination then Some(InvalidState)
    else if refused.Some? then refused
    else if TinyTo(drafts, |drafts|) then Some(CheckViolation)
    else None
  }

  ghost function ApproveRefusal(s: State, id: nat): Option<Error> {
    if id >= |s.transfers| then Some(NotFound)
    else if s.transfers[id].status != T_DRAFT then Some(InvalidState)
    else None
  }

  ghost function DispatchRefusal(s: State, id: nat): Option<Error> {
    if id >= |s.transfers| then Some(NotFound)
    else if s.transfers[id].status != T_APPROVED then Some(InvalidState)
    else
      var out := Outgoing(s.transfers[id].lines);
      if AllFit(s.levels, Whole(out), |out|) then None else Some(Insufficient)
  }

  ghost function ReceiveRefusal(s: State, id: nat, received: map<nat, real>): Option<Error> {
    if id >= |s.transfers| then Some(NotFound)
    else if s.transfers[id].status != T_IN_TRANSIT then Some(InvalidState)
    else if !Plausible(received, s.transfers[id].lines) then Some(BadReceived)
    else None
  }

  ghost function CancelRefusal(s: State, id: nat): Option<Error> {
    if id >= |s.transfers| then Some(NotFound)
    else if s.transfers[id].status in {T_RECEIVED, T_CANCELLED} then Some(InvalidState)
    else None
  }

  /** On hand takes `xs`, and `out` leaves the swing accounts. */
  ghost predicate Arrived(levels: Table, levels': Table, xs: seq<Ask>, cuts: seq<Reload>, out: seq<Entry>)
    requires |xs| == |cuts|
  {
    forall k :: Get(levels', k) == Get(levels, k).(
                  onHand := Column(Get(levels, k).onHand, xs, cuts, k),
                  inTransit := Get(levels, k).inTransit - Sum(out, One(k)))
  }

  // ---- effects of the requests that are not refused ----

  ghost predicate Creates(s: State, yard: Yard, source: nat, destination: nat, drafts: seq<Draft>, s': State) {
    && CreateRefusal(s, yard, source, destination, drafts) == None
    && |s'.transfers| == |s.transfers| + 1
    && var t := s'.transfers[|s.transfers|];
    && t.status == T_DRAFT && EnteredTo(yard, source, destination, drafts, |drafts|, t.lines)
    && s' == s.(transfers := s.transfers + [t])
  }

  ghost predicate Approves(s: State, id: nat, s': State) {
    && ApproveRefusal(s, id) == None
    && s' == s.(transfers := s.transfers[id := s.transfers[id].(status := T_APPROVED)])
  }

  ghost predicate Dispatches(s: State, id: nat, s': State) {
    && DispatchRefusal(s, id) == None
    && var t := s.transfers[id];
    && var out := Outgoing(t.lines);
    && s' == s.(levels := s'.levels,
                ledger := s.ledger + DispatchRows(id, t.lines),
                transfers := s.transfers[id := t.(status := T_IN_TRANSIT)])
    && forall k :: Get(s'.levels, k) == Get(s.levels, k).(
                     onHand := Get(s.levels, k).onHand - Sum(out, One(k)),
                     inTransit := Get(s.levels, k).inTransit + Sum(out, One(k)))
  }

  ghost predicate Receives(s: State, id: nat, received: map<nat, real>, s': State) {
    && ReceiveRefusal(s, id, received) == None
    && var t := s.transfers[id];
    && var lines := Received(received, t.lines);
    && s' == s.(levels := s'.levels,
                ledger := s.ledger + ReceiptRows(id, lines),
                transfers := s.transfers[id := Transfer(T_RECEIVED, lines)])
    && Arrived(s.levels, s'.levels, Arrivals(received, t.lines),
               ArrivalReloads(s.autoflush, s.levels, received, t.lines), Outgoing(t.lines))
  }

  ghost predicate Cancels(s: State, id: nat, s': State) {
    && CancelRefusal(s, id) == None
    && var t := s.transfers[id];
    && var back := InFlight(t);
    && s' == s.(levels := s'.levels,
                ledger := s.ledger + if t.status == T_IN_TRANSIT then ReturnRows(id, t.lines) else [],
                transfers := s.transfers[id := t.(status := T_CANCELLED)])
    && forall k :: Get(s'.levels, k) == Get(s.levels, k).(
                     onHand := Get(s.levels, k).onHand + Sum(back, One(k)),
                     inTransit := Get(s.levels, k).inTransit - Sum(back, One(k)))
  }

  // ---- what the refusals come to ----

  /** A dispatch of an approved transfer goes through exactly when no source level is asked for
      more than it has available, summed over all the lines that draw on it. */
  lemma DispatchNeedsWholeDemand(s: State, id: nat)
    requires id < |s.transfers| && s.transfers[id].status == T_APPROVED
    ensures DispatchRefusal(s, id) == None
       <==> forall k :: OwedAt(s.levels, Outgoing(s.transfers[id].lines), k)
  {
    var out := Outgoing(s.transfers[id].lines);
    LineByLineIsPerLevel(s.levels, Whole(out), |out|);
    forall k
      ensures CoveredAt(s.levels, Whole(out), |out|, k) <==> OwedAt(s.levels, out, k)
    {
      AskIsSum(out, |out|, k);
    }
  }

  /** Level `k` has what the lines together take from it. */
  ghost predicate OwedAt(levels: Table, out: seq<Entry>, k: Key) {
    0 < Sum(out, One(k)) ==> Sum(out, One(k)) <= Available(levels, k)
  }

  function Carrying(lines: seq<TransferLine>, n: nat, p: nat): nat
    requires n <= |lines|
  {
    if n == 0 then 0 else Carrying(lines, n - 1, p) + if lines[n - 1].product == p then 1 else 0
  }

  lemma ReceivedAt(received: map<nat, real>, lines: seq<TransferLine>, i: nat, p: nat)
    requires p in received && i < |lines|
    ensures At(Incoming(Received(received, lines))[i], All(p)) == if lines[i].product == p then Nearest(received[p]) else 0
  {
  }

  lemma OneMore(c: int, r: int)
    ensures (c + 1) * r == c * r + r
  {
  }

  lemma {:induction false} ReceivedPerProductTo(received: map<nat, real>, lines: seq<TransferLine>, n: nat, p: nat)
    requires p in received
    requires n <= |lines|
    ensures SumTo(Incoming(Received(received, lines)), n, All(p)) == Carrying(lines, n, p) * Nearest(received[p])
  {
    if n != 0 {
      ReceivedPerProductTo(received, lines, n - 1, p);
      ReceivedAt(received, lines, n - 1, p);
      OneMore(Carrying(lines, n - 1, p), Nearest(received[p]));
    }
  }

  lemma TimesItself(c: int, r: int)
    ensures c * r == r <==> c == 1 || r == 0
  {
    assert c * r - r == (c - 1) * r;
  }

  /** The map carries one figure per product, and every line of that product receives it: the
      quantity booked in is the quantity reported exactly when the figure has two decimals and one
      line carries the product (or nothing of it arrived). */
  lemma {:induction false} ReportedIsBookedIn(received: map<nat, real>, lines: seq<TransferLine>, p: nat)
    requires p in received
    ensures Sum(Incoming(Received(received, lines)), All(p)) as real == received[p]
       <==> IsWhole(received[p]) && (Carrying(lines, |lines|, p) == 1 || received[p] == 0.0)
  {
    ReceivedPerProductTo(received, lines, |lines|, p);
    NearestWhole(received[p].Floor);
    TimesItself(Carrying(lines, |lines|, p), received[p].Floor);
  }

  // ---- every step keeps the invariant ----

  /** The step turns transfer `id` into `t`, writes `rows` for the entries `landed`, and moves
      `in_transit` by what the transfer has in flight before and after. */
  ghost predicate Moves(s: State, id: nat, t: Transfer, rows: seq<Txn>, landed: seq<Entry>, leaving: bool, s': State) {
    && id < |s.transfers|
    && s' == s.(levels := s'.levels, ledger := s.ledger + rows, transfers := s.transfers[id := t])
    && |rows| == |landed|
    && (forall i | 0 <= i < |rows| :: rows[i].kind == TRANSFER && rows[i].key == landed[i].key
                                      && rows[i].quantity == Signed(leaving, landed[i].amount))
    && forall k :: Get(s'.levels, k) == Get(s.levels, k).(
                     onHand := Get(s'.levels, k).onHand,
                     inTransit := Get(s.levels, k).inTransit - Sum(InFlight(s.transfers[id]), One(k))
                                                             + Sum(InFlight(t), One(k)))
  }

  lemma MoveKeeps(s: State, id: nat, t: Transfer, rows: seq<Txn>, landed: seq<Entry>, leaving: bool, s': State)
    requires Inv(s) && Moves(s, id, t, rows, landed, leaving, s')
    requires LinesOk(t)
    requires forall k :: 0 <= Get(s'.levels, k).onHand
    requires forall p :: Signed(leaving, Sum(landed, All(p))) + Sum(InFlight(t), All(p)) + Shortfall(t, p)
                      == Sum(InFlight(s.transfers[id]), All(p)) + Shortfall(s.transfers[id], p)
    ensures Inv(s')
  {
    CountsKeep(s.counts, s.ledger, rows);
    forall k
      ensures Get(s'.levels, k).inTransit == Transit(s'.transfers, One(k))
      ensures NonNegativeLevel(Get(s'.levels, k))
    {
      TransitUpdate(s.transfers, id, t, |s.transfers|, One(k));
      TransitNonNegative(s'.transfers, |s'.transfers|, One(k));
      assert NonNegativeLevel(Get(s.levels, k));
    }
    forall p
      ensures BalancedAt(s'.ledger, s'.transfers, p)
    {
      assert BalancedAt(s.ledger, s.transfers, p);
      ReplayEntries(rows, landed, leaving, |landed|, All(p));
      BalancedMove(s.ledger, rows, s.transfers, id, t, p);
    }
  }

  lemma EnteredOk(yard: Yard, source: nat, destination: nat, drafts: seq<Draft>, t: Transfer)
    requires source != destination && EnteredTo(yard, source, destination, drafts, |drafts|, t.lines)
    requires !TinyTo(drafts, |drafts|)
    ensures LinesOk(t)
  {
    forall l <- t.lines
      ensures 0 <= l.received <= l.quantity && l.source.warehouse != l.destination.warehouse
    {
      var i :| 0 <= i < |t.lines| && t.lines[i] == l;
      assert Enters(yard, source, destination, drafts[i], l);
    }
  }

  lemma CreateKeeps(s: State, yard: Yard, source: nat, destination: nat, drafts: seq<Draft>, s': State)
    requires Inv(s) && Creates(s, yard, source, destination, drafts, s')
    ensures Inv(s')
  {
    var n := |s.transfers|;
    EnteredOk(yard, source, destination, drafts, s'.transfers[n]);
    forall sc: Scope
      ensures Transit(s'.transfers, sc) == Transit(s.transfers, sc)
    {
      TransitSame(s'.transfers, s.transfers, n, sc);
    }
    forall p
      ensures BalancedAt(s'.ledger, s'.transfers, p)
    {
      assert BalancedAt(s.ledger, s.transfers, p);
      LostSame(s'.transfers, s.transfers, n, p);
    }
  }

  lemma ApproveKeeps(s: State, id: nat, s': State)
    requires Inv(s) && Approves(s, id, s')
    ensures Inv(s')
  {
    assert LinesOk(s.transfers[id]);
    assert s.ledger + [] == s.ledger;
    MoveKeeps(s, id, s'.transfers[id], [], [], false, s');
  }

  lemma DispatchKeeps(s: State, id: nat, s': State)
    requires Inv(s) && Dispatches(s, id, s')
    ensures Inv(s')
    ensures forall k :: OnHandGap(s'.levels, s'.ledger, k) == OnHandGap(s.levels, s.ledger, k)
  {
    var lines := s.transfers[id].lines;
    var out := Outgoing(lines);
    assert LinesOk(s.transfers[id]);
    DispatchNeedsWholeDemand(s, id);
    forall k
      ensures 0 <= Get(s'.levels, k).onHand
      ensures OnHandGap(s'.levels, s'.ledger, k) == OnHandGap(s.levels, s.ledger, k)
    {
      assert NonNegativeLevel(Get(s.levels, k)) && OwedAt(s.levels, out, k);
      StoredPostingGap(s.levels, s'.levels, s.ledger, DispatchRows(id, lines), out, true, k);
    }
    MoveKeeps(s, id, s'.transfers[id], DispatchRows(id, lines), out, true, s');
  }

  lemma ReceivedLines(received: map<nat, real>, t: Transfer)
    requires LinesOk(t) && Plausible(received, t.lines)
    ensures var lines := Received(received, t.lines);
            && LinesOk(Transfer(T_RECEIVED, lines)) && Outgoing(lines) == Outgoing(t.lines)
            && Incoming(lines) == Written(Arrivals(received, t.lines)) && Rising(Arrivals(received, t.lines))
  {
    forall i | 0 <= i < |t.lines|
      ensures 0 <= Nearest(Arrival(received, t.lines[i])) <= t.lines[i].quantity
      ensures t.lines[i].source.warehouse != t.lines[i].destination.warehouse
    {
      assert t.lines[i] in t.lines;
      CentsFit(Arrival(received, t.lines[i]), t.lines[i].quantity);
    }
  }

  lemma ReceiptMoves(s: State, id: nat, received: map<nat, real>, s': State)
    requires Receives(s, id, received, s')
    ensures var lines := s'.transfers[id].lines;
            Moves(s, id, s'.transfers[id], ReceiptRows(id, lines), Incoming(lines), false, s')
  {
  }

  lemma ReceiptNonNegative(s: State, id: nat, received: map<nat, real>, s': State, k: Key)
    requires Inv(s) && Receives(s, id, received, s')
    ensures 0 <= Get(s'.levels, k).onHand
  {
    var t := s.transfers[id];
    assert LinesOk(t) && NonNegativeLevel(Get(s.levels, k));
    ReceivedLines(received, t);
    ColumnRises(Get(s.levels, k).onHand, Arrivals(received, t.lines),
                ArrivalReloads(s.autoflush, s.levels, received, t.lines), |t.lines|, k);
  }

  lemma ReceiveKeeps(s: State, id: nat, received: map<nat, real>, s': State)
    requires Inv(s) && Receives(s, id, received, s')
    ensures Inv(s')
  {
    var t, t' := s.transfers[id], s'.transfers[id];
    assert LinesOk(t);
    ReceivedLines(received, t);
    forall k
      ensures 0 <= Get(s'.levels, k).onHand
    {
      ReceiptNonNegative(s, id, received, s', k);
    }
    ReceiptMoves(s, id, received, s');
    MoveKeeps(s, id, t', ReceiptRows(id, t'.lines), Incoming(t'.lines), false, s');
  }

  /** A receipt moves the snapshot of a level away from its ledger by the difference between what its
      lines would leave on an empty level and the sum of the rounded lines, so it keeps them together
      exactly when the two agree. */
  lemma ReceiptSlips(s: State, id: nat, received: map<nat, real>, s': State, k: Key)
    requires Inv(s) && Receives(s, id, received, s')
    ensures var xs := Arrivals(received, s.transfers[id].lines);
            var cuts := ArrivalReloads(s.autoflush, s.levels, received, s.transfers[id].lines);
            && OnHandGap(s'.levels, s'.ledger, k)
               == OnHandGap(s.levels, s.ledger, k) + Column(0, xs, cuts, k) - Sum(Written(xs), One(k))
            && (OnHandGap(s'.levels, s'.ledger, k) == OnHandGap(s.levels, s.ledger, k)
                <==> Column(0, xs, cuts, k) == Sum(Written(xs), One(k)))
  {
    ReceiptGap(s, id, received, s', k);
    var t := s.transfers[id];
    assert LinesOk(t) && NonNegativeLevel(Get(s.levels, k));
    ReceivedLines(received, t);
    SlipRising(Get(s.levels, k).onHand, Arrivals(received, t.lines),
               ArrivalReloads(s.autoflush, s.levels, received, t.lines), k);
  }

  lemma ReceiptGap(s: State, id: nat, received: map<nat, real>, s': State, k: Key)
    requires Inv(s) && Receives(s, id, received, s')
    ensures var xs := Arrivals(received, s.transfers[id].lines);
            var cuts := ArrivalReloads(s.autoflush, s.levels, received, s.transfers[id].lines);
            OnHandGap(s'.levels, s'.ledger, k)
            == OnHandGap(s.levels, s.ledger, k) + Slip(Get(s.levels, k).onHand, xs, cuts, k)
  {
    var lines := s.transfers[id].lines;
    LinesCarry(ReceiptRows(id, Received(received, lines)), Arrivals(received, lines));
    PostingGap(s.levels, s'.levels, s.ledger, ReceiptRows(id, Received(received, lines)), Arrivals(received, lines),
               ArrivalReloads(s.autoflush, s.levels, received, lines), k);
  }

  /** When every destination row exists and the session does not flush by itself, what counts is the
      rounded sum of what arrives. */
  lemma ReceiptSlipsOnce(s: State, id: nat, received: map<nat, real>, s': State, k: Key)
    requires Inv(s) && Receives(s, id, received, s')
    requires !s.autoflush && forall l <- s.transfers[id].lines :: Key(l.product, l.destination) in s.levels
    ensures var xs := Arrivals(received, s.transfers[id].lines);
            OnHandGap(s'.levels, s'.ledger, k) == OnHandGap(s.levels, s.ledger, k)
            <==> Nearest(Asked(xs, k)) == Sum(Written(xs), One(k))
  {
    var t := s.transfers[id];
    ReceiptSlips(s, id, received, s', k);
    assert LinesOk(t);
    ReceivedLines(received, t);
    assert forall i | 0 <= i < |t.lines| :: t.lines[i] in t.lines;
    SlipRising(0, Arrivals(received, t.lines), ArrivalReloads(s.autoflush, s.levels, received, t.lines), k);
  }

  /** Two lines of 0.006 into one bin: the column takes 0.012 as 0.01, the rows say 0.01 each. */
  lemma TwoSmallReceiptsSlip(product: nat, from: Bin, into: Bin, levels: Table, h: nat)
    requires Key(product, into) in levels
    ensures var lines := [TransferLine(product, from, into, 100, 0), TransferLine(product, from, into, 100, 0)];
            var received := map[product := 0.6];
            Slip(h, Arrivals(received, lines), ArrivalReloads(false, levels, received, lines), Key(product, into)) == -1
  {
    var l, k := TransferLine(product, from, into, 100, 0), Key(product, into);
    var received := map[product := 0.6];
    assert Arrivals(received, [l, l]) == [Ask(k, 0.6), Ask(k, 0.6)];
    assert ArrivalReloads(false, levels, received, [l, l]) == [Never, Never];
    SixAndSix(h, k);
  }

  /** The same two lines with a line into a new row between them: creating the row writes the first
      line's 0.006 as 0.01, the last line starts from there, and the column takes 0.02 as the rows do. */
  lemma NewRowBetweenReceipts(product: nat, from: Bin, into: Bin, bare: Bin, levels: Table, h: nat)
    requires Key(product, into) in levels && Key(product, bare) !in levels
    ensures var l, m := TransferLine(product, from, into, 100, 0), TransferLine(product, from, bare, 100, 0);
            var received := map[product := 0.6];
            Slip(h, Arrivals(received, [l, m, l]), ArrivalReloads(false, levels, received, [l, m, l]), Key(product, into)) == 0
  {
    var l, m := TransferLine(product, from, into, 100, 0), TransferLine(product, from, bare, 100, 0);
    var received, k, other := map[product := 0.6], Key(product, into), Key(product, bare);
    var xs := Arrivals(received, [l, m, l]);
    assert xs == [Ask(k, 0.6), Ask(other, 0.6), Ask(k, 0.6)];
    assert NewRow(levels, xs, 1);
    assert ArrivalReloads(false, levels, received, [l, m, l]) == [Never, Others, Never];
    SixNewSix(h, k, other);
  }

  lemma InwardNonNegative(levels: Table, levels': Table, into: seq<Entry>)
    requires NonNegativeLevels(levels) && NonNegative(into)
    requires forall k :: Get(levels', k).onHand == Get(levels, k).onHand + Sum(into, One(k))
    ensures forall k :: 0 <= Get(levels', k).onHand
  {
    forall k
      ensures 0 <= Get(levels', k).onHand
    {
      assert NonNegativeLevel(Get(levels, k));
      SumBound(into, 0, |into|, One(k));
    }
  }

  lemma ReturnMoves(s: State, id: nat, rows: seq<Txn>, s': State)
    requires Cancels(s, id, s') && s'.ledger == s.ledger + rows
    requires var back := InFlight(s.transfers[id]);
             |rows| == |back| && forall i | 0 <= i < |rows| ::
               rows[i].kind == TRANSFER && rows[i].key == back[i].key && rows[i].quantity == back[i].amount
    ensures Moves(s, id, s'.transfers[id], rows, InFlight(s.transfers[id]), false, s')
    ensures forall k :: OnHandGap(s'.levels, s'.ledger, k) == OnHandGap(s.levels, s.ledger, k)
  {
    forall k
      ensures OnHandGap(s'.levels, s'.ledger, k) == OnHandGap(s.levels, s.ledger, k)
    {
      StoredPostingGap(s.levels, s'.levels, s.ledger, rows, InFlight(s.transfers[id]), false, k);
    }
  }

  lemma ReturnKeeps(s: State, id: nat, rows: seq<Txn>, s': State)
    requires Inv(s) && Cancels(s, id, s') && s'.ledger == s.ledger + rows
    requires var back := InFlight(s.transfers[id]);
             |rows| == |back| && forall i | 0 <= i < |rows| ::
               rows[i].kind == TRANSFER && rows[i].key == back[i].key && rows[i].quantity == back[i].amount
    ensures Inv(s')
    ensures forall k :: OnHandGap(s'.levels, s'.ledger, k) == OnHandGap(s.levels, s.ledger, k)
  {
    var t', back := s'.transfers[id], InFlight(s.transfers[id]);
    assert LinesOk(s.transfers[id]);
    InwardNonNegative(s.levels, s'.levels, back);
    ReturnMoves(s, id, rows, s');
    MoveKeeps(s, id, t', rows, back, false, s');
  }

  lemma CancelKeeps(s: State, id: nat, s': State)
    requires Inv(s) && Cancels(s, id, s')
    ensures Inv(s')
    ensures forall k :: OnHandGap(s'.levels, s'.ledger, k) == OnHandGap(s.levels, s.ledger, k)
  {
    if s.transfers[id].status == T_IN_TRANSIT {
      ReturnKeeps(s, id, ReturnRows(id, s.transfers[id].lines), s');
    } else {
      ReturnKeeps(s, id, [], s');
    }
  }

  // ---- the loops over a transfer's lines, on the session's copy of the level rows ----

  /** The bins of one line. */
  method EnterLine(autoflush: bool, yard: Yard, source: nat, destination: nat, drafts: seq<Draft>, i: nat, tiny: bool)
    returns (r: Option<Error>, from: Bin, into: Bin)
    requires i < |drafts| && tiny == TinyTo(drafts, i)
    ensures r == DraftRefusal(autoflush, yard, source, destination, drafts, i)
    ensures r.None? ==> Resolved(yard, source, drafts[i].source, from) && Resolved(yard, destination, drafts[i].destination, into)
  {
    from, into := Bin(source, 0), Bin(destination, 0);
    if autoflush && tiny { return Some(CheckViolation), from, into; }
    r, from := ResolveBin(yard, source, drafts[i].source);
    if r.Some? { return; }
    r, into := ResolveBin(yard, destination, drafts[i].destination);
  }

  method EnterLines(s: State, yard: Yard, source: nat, destination: nat, drafts: seq<Draft>)
    returns (r: Option<Error>, lines: seq<TransferLine>)
    requires source != destination
    ensures r == CreateRefusal(s, yard, source, destination, drafts)
    ensures r.None? ==> EnteredTo(yard, source, destination, drafts, |drafts|, lines)
  {
    ghost var verdicts := DraftVerdicts(s.autoflush, yard, source, destination, drafts);
    var tiny := false;
    r, lines := None, [];
    for i := 0 to |drafts|
      invariant r == FirstTo(verdicts, i) == None && tiny == TinyTo(drafts, i)
      invariant !tiny ==> EnteredTo(yard, source, destination, drafts, i, lines)
    {
      var from, into;
      r, from, into := EnterLine(s.autoflush, yard, source, destination, drafts, i, tiny);
      if r.Some? {
        FirstStays(verdicts, i + 1, |drafts|);
        return;
      }
      var quantity := Nearest(drafts[i].quantity);
      if quantity == 0 {
        tiny := true;
      } else {
        lines := lines + [TransferLine(drafts[i].product, from, into, quantity, 0)];
      }
    }
    if tiny {
      r := Some(CheckViolation);
    }
  }

  /** `session` is `levels` after `n` lines put `into` on hand and took `out` from transit. */
  ghost predicate Worked(levels: Table, session: Table, into: seq<Entry>, out: seq<Entry>, leaving: bool, n: nat)
    requires n <= |into| && n <= |out|
  {
    forall k :: Get(session, k) == Get(levels, k).(
                  onHand := Get(levels, k).onHand + Signed(leaving, SumTo(into, n, One(k))),
                  inTransit := Get(levels, k).inTransit - Signed(leaving, SumTo(out, n, One(k))))
  }

  lemma WorkOne(levels: Table, session: Table, session': Table, into: seq<Entry>, out: seq<Entry>, leaving: bool, n: nat)
    requires n < |into| && n < |out| && Worked(levels, session, into, out, leaving, n)
    requires forall k :: Get(session', k) == Get(session, k).(
                           onHand := Get(session, k).onHand + Signed(leaving, At(into[n], One(k))),
                           inTransit := Get(session, k).inTransit - Signed(leaving, At(out[n], One(k))))
    ensures Worked(levels, session', into, out, leaving, n + 1)
  {
  }

  lemma FitsNext(levels: Table, session: Table, out: seq<Entry>, n: nat)
    requires n < |out| && Worked(levels, session, out, out, true, n)
    ensures out[n].amount <= Available(session, out[n].key) <==> Fits(levels, Whole(out), n)
  {
    AskIsSum(out, n + 1, out[n].key);
  }

  lemma Snoc<T>(all: seq<T>, n: nat)
    requires n < |all|
    ensures all[..n] + [all[n]] == all[..n + 1]
  {
  }

  /** One line leaves the available stock of its source level for the level's swing account. */
  method ShipLine(ghost levels: Table, ghost out: seq<Entry>, ghost i: nat, l: TransferLine, session: Table)
    returns (ok: bool, session': Table)
    requires i < |out| && out[i] == Entry(Key(l.product, l.source), l.quantity)
    requires Worked(levels, session, out, out, true, i)
    ensures ok <==> Fits(levels, Whole(out), i)
    ensures ok ==> Worked(levels, session', out, out, true, i + 1)
  {
    var k := Key(l.product, l.source);
    var level := Get(session, k);
    FitsNext(levels, session, out, i);
    ok := Available(session, k) >= l.quantity;
    session' := session[k := level.(onHand := level.onHand - l.quantity, inTransit := level.inTransit + l.quantity)];
    WorkOne(levels, session, session', out, out, true, i);
  }

  method ShipLines(levels: Table, id: nat, lines: seq<TransferLine>)
    returns (r: Option<Error>, session: Table, rows: seq<Txn>)
    ensures r == if AllFit(levels, Whole(Outgoing(lines)), |lines|) then None else Some(Insufficient)
    ensures r.None? ==> rows == DispatchRows(id, lines)
    ensures r.None? ==> Worked(levels, session, Outgoing(lines), Outgoing(lines), true, |lines|)
  {
    ghost var out := Outgoing(lines);
    r, session, rows := None, levels, [];
    for i := 0 to |lines|
      invariant AllFit(levels, Whole(out), i)
      invariant rows == DispatchRows(id, lines)[..i]
      invariant Worked(levels, session, out, out, true, i)
    {
      var ok;
      ok, session := ShipLine(levels, out, i, lines[i], session);
      if !ok { return Some(Insufficient), levels, []; }
      Snoc(DispatchRows(id, lines), i);
      rows := rows + [DispatchRow(id, lines[i])];
    }
  }

  /** The destination level first, then the swing account of the source level. */
  function Land(levels: Table, session: Session, into: Key, arrived: real, from: Key, quantity: int): (session': Session)
    ensures forall k :: Peek(levels, session', k) == Peek(levels, session, k).(
                          onHand := Peek(levels, session, k).onHand + if k == into then arrived else 0.0,
                          inTransit := Peek(levels, session, k).inTransit - if k == from then quantity as real else 0.0)
  {
    var l := Peek(levels, session, into);
    var session1 := session[into := l.(onHand := l.onHand + arrived)];
    var m := Peek(levels, session1, from);
    session1[from := m.(inTransit := m.inTransit - quantity as real)]
  }

  /** The loaded rows after `n` lines brought `xs` on hand and took `out` from transit, and the level rows
      that exist. */
  ghost predicate Landed(levels: Table, session: Session, known: set<Key>, xs: seq<Ask>, cuts: seq<Reload>, out: seq<Entry>,
                         n: nat)
    requires n <= |xs| == |cuts| && n <= |out|
  {
    && RowsBy(levels, known, xs, n)
    && forall k :: Peek(levels, session, k) == Peek(levels, map[], k).(
                     onHand := ColumnTo(Get(levels, k).onHand, xs, cuts, n, k),
                     inTransit := Get(levels, k).inTransit as real - SumTo(out, n, One(k)) as real)
  }

  lemma LandNothing(levels: Table, xs: seq<Ask>, cuts: seq<Reload>, out: seq<Entry>)
    requires |xs| == |cuts|
    ensures Landed(levels, map[], levels.Keys, xs, cuts, out, 0)
  {
  }

  lemma LandedArrived(levels: Table, session: Session, known: set<Key>, xs: seq<Ask>, cuts: seq<Reload>, out: seq<Entry>)
    requires |xs| == |cuts| == |out| && Landed(levels, session, known, xs, cuts, out, |xs|)
    ensures Arrived(levels, Flush(levels, session), xs, cuts, out)
  {
    forall k
      ensures Get(Flush(levels, session), k) == Get(levels, k).(
                onHand := Column(Get(levels, k).onHand, xs, cuts, k),
                inTransit := Get(levels, k).inTransit - Sum(out, One(k)))
    {
      FlushGet(levels, session, k);
      NearestWhole(Get(levels, k).reserved);
      NearestWhole(Get(levels, k).damaged);
      NearestWhole(Get(levels, k).inTransit - Sum(out, One(k)));
    }
  }

  /** The loaded rows when the session turns to line `n`. */
  lemma {:induction false} LandReopened(levels: Table, session: Session, known: set<Key>, xs: seq<Ask>, cuts: seq<Reload>, out: seq<Entry>,
                     n: nat, k: Key)
    requires n < |xs| == |cuts| && n < |out| && Landed(levels, session, known, xs, cuts, out, n)
    ensures Peek(levels, Reopened(session, cuts[n], xs[n].key), k) == Peek(levels, map[], k).(
              onHand := Reread(cuts[n], xs[n].key == k, ColumnTo(Get(levels, k).onHand, xs, cuts, n, k)),
              inTransit := Get(levels, k).inTransit as real - SumTo(out, n, One(k)) as real)
  {
    ReopenedPeek(levels, session, cuts[n], xs[n].key, k);
    NearestWhole(Get(levels, k).reserved);
    NearestWhole(Get(levels, k).damaged);
    NearestWhole(Get(levels, k).inTransit - SumTo(out, n, One(k)));
  }

  lemma LandNext(levels: Table, session: Session, known: set<Key>, xs: seq<Ask>, cuts: seq<Reload>, out: seq<Entry>, n: nat)
    requires n < |xs| == |cuts| && n < |out| && Landed(levels, session, known, xs, cuts, out, n)
    ensures var session1 := Reopened(session, cuts[n], xs[n].key);
            Landed(levels, Land(levels, session1, xs[n].key, xs[n].amount, out[n].key, out[n].amount),
                   known + {xs[n].key}, xs, cuts, out, n + 1)
  {
    RowsNext(levels, known, xs, n);
    var session1 := Reopened(session, cuts[n], xs[n].key);
    var session2 := Land(levels, session1, xs[n].key, xs[n].amount, out[n].key, out[n].amount);
    forall k
      ensures Peek(levels, session2, k) == Peek(levels, map[], k).(
                onHand := ColumnTo(Get(levels, k).onHand, xs, cuts, n + 1, k),
                inTransit := Get(levels, k).inTransit as real - SumTo(out, n + 1, One(k)) as real)
    {
      LandReopened(levels, session, known, xs, cuts, out, n, k);
    }
  }

  /** What the loop holds after the first `n` lines arrived. */
  ghost predicate Receiving(levels: Table, id: nat, received: map<nat, real>, lines: seq<TransferLine>, cuts: seq<Reload>,
                            n: nat, session: Session, known: set<Key>, rows: seq<Txn>, done: seq<TransferLine>)
    requires n <= |lines| == |cuts|
  {
    && PlausibleTo(received, lines, n)
    && done == Received(received, lines)[..n] && rows == ReceiptRows(id, Received(received, lines))[..n]
    && Landed(levels, session, known, Arrivals(received, lines), cuts, Outgoing(lines), n)
  }

  lemma ReceivingNext(levels: Table, id: nat, received: map<nat, real>, lines: seq<TransferLine>, cuts: seq<Reload>,
                      n: nat, session: Session, known: set<Key>, rows: seq<Txn>, done: seq<TransferLine>)
    requires n < |lines| == |cuts| && Receiving(levels, id, received, lines, cuts, n, session, known, rows, done)
    requires 0.0 <= Arrival(received, lines[n]) <= lines[n].quantity as real
    ensures var l := lines[n];
            var into := Key(l.product, l.destination);
            var l' := ReceivedLine(received, l);
            Receiving(levels, id, received, lines, cuts, n + 1,
                      Land(levels, Reopened(session, cuts[n], into), into, Arrival(received, l), Key(l.product, l.source), l.quantity),
                      known + {into}, rows + [ReceiptRow(id, l')], done + [l'])
  {
    var all := Received(received, lines);
    Snoc(all, n);
    Snoc(ReceiptRows(id, all), n);
    LandNext(levels, session, known, Arrivals(received, lines), cuts, Outgoing(lines), n);
  }

  lemma ArrivesNew(autoflush: bool, levels: Table, received: map<nat, real>, lines: seq<TransferLine>, known: set<Key>, n: nat)
    requires n < |lines| && RowsBy(levels, known, Arrivals(received, lines), n)
    ensures ArrivalReloads(autoflush, levels, received, lines)[n]
         == if autoflush || Key(lines[n].product, lines[n].destination) !in known then Others else Never
  {
    RowsNext(levels, known, Arrivals(received, lines), n);
  }

  /** One line arrives, in full unless the map says otherwise. */
  method ReceiveLine(autoflush: bool, levels: Table, id: nat, received: map<nat, real>, ghost lines: seq<TransferLine>,
                     ghost cuts: seq<Reload>, ghost i: nat, l: TransferLine, session: Session, known: set<Key>,
                     rows: seq<Txn>, done: seq<TransferLine>)
    returns (ok: bool, session': Session, known': set<Key>, rows': seq<Txn>, done': seq<TransferLine>)
    requires i < |lines| && l == lines[i] && cuts == ArrivalReloads(autoflush, levels, received, lines)
    requires Receiving(levels, id, received, lines, cuts, i, session, known, rows, done)
    ensures ok <==> 0.0 <= Arrival(received, l) <= l.quantity as real
    ensures ok ==> Receiving(levels, id, received, lines, cuts, i + 1, session', known', rows', done')
  {
    session', known', rows', done' := session, known, rows, done;
    var arrived := if l.product in received then received[l.product] else l.quantity as real;
    ok := 0.0 <= arrived <= l.quantity as real;
    if !ok { return; }
    ReceivingNext(levels, id, received, lines, cuts, i, session, known, rows, done);
    ArrivesNew(autoflush, levels, received, lines, known, i);
    var into := Key(l.product, l.destination);
    session' := Reopened(session, if autoflush || into !in known then Others else Never, into);
    known' := known + {into};
    session' := Land(levels, session', into, arrived, Key(l.product, l.source), l.quantity);
    var l' := l.(received := Nearest(arrived));
    rows', done' := rows + [ReceiptRow(id, l')], done + [l'];
  }

  /** The loop over the lines, and the flush after it. */
  method ReceiveLines(autoflush: bool, levels: Table, id: nat, received: map<nat, real>, lines: seq<TransferLine>)
    returns (r: Option<Error>, levels': Table, rows: seq<Txn>, done: seq<TransferLine>)
    ensures r == if Plausible(received, lines) then None else Some(BadReceived)
    ensures r.None? ==> done == Received(received, lines) && rows == ReceiptRows(id, done)
    ensures r.None? ==> Arrived(levels, levels', Arrivals(received, lines),
                                ArrivalReloads(autoflush, levels, received, lines), Outgoing(lines))
  {
    ghost var cuts := ArrivalReloads(autoflush, levels, received, lines);
    var session: Session, known := map[], levels.Keys;
    levels', rows, done := levels, [], [];
    LandNothing(levels, Arrivals(received, lines), cuts, Outgoing(lines));
    for i := 0 to |lines|
      invariant Receiving(levels, id, received, lines, cuts, i, session, known, rows, done)
    {
      var ok;
      PlausibleNext(received, lines, i);
      ok, session, known, rows, done := ReceiveLine(autoflush, levels, id, received, lines, cuts, i, lines[i],
                                                    session, known, rows, done);
      if !ok { return Some(BadReceived), levels', rows, done; }
    }
    levels' := Flush(levels, session);
    LandedArrived(levels, session, known, Arrivals(received, lines), cuts, Outgoing(lines));
    r := None;
  }

  lemma PlausibleNext(received: map<nat, real>, lines: seq<TransferLine>, n: nat)
    requires n < |lines| && PlausibleTo(received, lines, n)
    ensures if 0.0 <= Arrival(received, lines[n]) <= lines[n].quantity as real then PlausibleTo(received, lines, n + 1)
            else !Plausible(received, lines)
  {
  }

  method ReturnLines(levels: Table, id: nat, lines: seq<TransferLine>) returns (session: Table, rows: seq<Txn>)
    ensures rows == ReturnRows(id, lines)
    ensures Worked(levels, session, Outgoing(lines), Outgoing(lines), false, |lines|)
  {
    ghost var back := Outgoing(lines);
    session, rows := levels, [];
    for i := 0 to |lines|
      invariant rows == ReturnRows(id, lines)[..i]
      invariant Worked(levels, session, back, back, false, i)
    {
      var l := lines[i];
      var k := Key(l.product, l.source);
      var level := Get(session, k);
      ghost var before := session;
      session := session[k := level.(onHand := level.onHand + l.quantity,
                                     inTransit := level.inTransit - l.quantity)];
      rows := rows + [ReturnRow(id, l)];
      WorkOne(levels, before, session, back, back, false, i);
    }
  }

  // ---- what the loops did is what the step asks for ----

  lemma ShippedIsDispatched(s: State, id: nat, session: Table, s': State)
    requires DispatchRefusal(s, id) == None
    requires var t := s.transfers[id];
             Worked(s.levels, session, Outgoing(t.lines), Outgoing(t.lines), true, |t.lines|)
             && s' == s.(levels := session, ledger := s.ledger + DispatchRows(id, t.lines),
                         transfers := s.transfers[id := t.(status := T_IN_TRANSIT)])
    ensures Dispatches(s, id, s')
  {
  }

  lemma ReturnedIsCancelled(s: State, id: nat, session: Table, s': State)
    requires CancelRefusal(s, id) == None && s.transfers[id].status == T_IN_TRANSIT
    requires var t := s.transfers[id];
             Worked(s.levels, session, Outgoing(t.lines), Outgoing(t.lines), false, |t.lines|)
             && s' == s.(levels := session, ledger := s.ledger + ReturnRows(id, t.lines),
                         transfers := s.transfers[id := t.(status := T_CANCELLED)])
    ensures Cancels(s, id, s')
  {
  }
}
