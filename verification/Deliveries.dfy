/** Delivery notes against LPO lines: confirmation issues stock, cancellation puts it back. */
module Deliveries {
  import opened Levels
  import opened Tables
  import opened StockInvariant
  import opened Rounding
  import opened Reservations
  import opened Consumption

  function IssueRow(id: nat, l: NoteLine): Txn {
    Txn(ISSUE, IssuedLine(l).key, false, -IssuedLine(l).amount, NoteOut(id))
  }

  function BackRow(id: nat, l: NoteLine): Txn {
    Txn(ISSUE, IssuedLine(l).key, true, IssuedLine(l).amount, NoteBack(id))
  }

  /** Rows for the catalogue lines of a note; ad-hoc lines write none. */
  function RowsTo(id: nat, lines: seq<NoteLine>, back: bool, n: nat): seq<Txn>
    requires n <= |lines|
  {
    if n == 0 then []
    else if lines[n - 1].target.None? then RowsTo(id, lines, back, n - 1)
    else RowsTo(id, lines, back, n - 1) + [if back then BackRow(id, lines[n - 1]) else IssueRow(id, lines[n - 1])]
  }

  function DrawLine(b: Book, order: nat, l: NoteLine): Book {
    if l.target.None? then b else Drawn(b, order, l.line, l.target.value.product, l.quantity)
  }

  /** The reservation tables after the first `n` lines of a note drew on them. */
  function DrawnTo(b: Book, order: nat, lines: seq<NoteLine>, n: nat): Book
    requires n <= |lines|
  {
    if n == 0 then b else DrawLine(DrawnTo(b, order, lines, n - 1), order, lines[n - 1])
  }

  /** Undelivered quantity of an LPO line by its confirmed notes. */
  function Leftover(s: State, o: nat, l: nat): int
    requires o < |s.orders| && l < |s.orders[o].lines|
  {
    Max(0, s.orders[o].lines[l].quantity - Confirmed(s.notes, o, l))
  }

  /** Why line `i` of a note is refused: no parent line, or more than is left of it. */
  function LineRefusal(s: State, n: Note, i: nat): Option<Error>
    requires n.order < |s.orders| && i < |n.lines|
  {
    if n.lines[i].line >= |s.orders[n.order].lines| then Some(NotFound)
    else if n.lines[i].quantity > Leftover(s, n.order, n.lines[i].line) - ShippedTo(n.lines, i, n.lines[i].line)
    then Some(OverDelivery)
    else None
  }

  function LineVerdicts(s: State, n: Note): (verdicts: seq<Option<Error>>)
    requires n.order < |s.orders|
    ensures |verdicts| == |n.lines|
  {
    seq(|n.lines|, i requires 0 <= i < |n.lines| => LineRefusal(s, n, i))
  }

  /** What the first `m` lines come to. */
  function UndeliverableTo(s: State, n: Note, m: nat): Option<Error>
    requires n.order < |s.orders| && m <= |n.lines|
  {
    FirstTo(LineVerdicts(s, n), m)
  }

  /** The reservation tables after the first `i` lines of the note. */
  function DrawnBy(s: State, n: Note, i: nat): Book
    requires i <= |n.lines|
  {
    DrawnTo(Book(s.heads, s.items), n.order, n.lines, i)
  }

  /** `reserved` after the first `i` lines let go of what they drew, down to the floor at zero. */
  function StillReserved(s: State, n: Note, i: nat, k: Key): int
    requires i <= |n.lines|
  {
    Max(0, Get(s.levels, k).reserved - Sum(Claims(s.items), One(k)) + Sum(Claims(DrawnBy(s, n, i).items), One(k)))
  }

  /** Line `i` finds stock once it and the lines before it have drawn on the reservations. */
  ghost predicate Stocked(s: State, n: Note, i: nat)
    requires i < |n.lines|
  {
    n.lines[i].target.Some? ==>
      var k := n.lines[i].target.value;
      var level := Get(s.levels, k);
      n.lines[i].quantity
        <= level.onHand - SumTo(Issued(n.lines), i, One(k)) - StillReserved(s, n, i + 1, k) - level.damaged
  }

  ghost predicate StockedTo(s: State, n: Note, m: nat)
    requires m <= |n.lines|
  {
    forall i | 0 <= i < m :: Stocked(s, n, i)
  }

  /** None also for a note that is already confirmed: confirming again changes nothing. */
  ghost function ConfirmRefusal(s: State, id: nat): Option<Error> {
    if id >= |s.notes| then Some(NotFound)
    else
      var n := s.notes[id];
      if n.status == N_CONFIRMED then None
      else if n.status != N_DRAFT then Some(InvalidState)
      else if n.lines == [] then Some(NoLines)
      else if n.order >= |s.orders| then Some(NotFound)
      else if !s.orders[n.order].shippable then Some(InvalidState)
      else if UndeliverableTo(s, n, |n.lines|).Some? then UndeliverableTo(s, n, |n.lines|)
      else if StockedTo(s, n, |n.lines|) then None
      else Some(Insufficient)
  }

  ghost function CancelRefusal(s: State, id: nat): Option<Error> {
    if id >= |s.notes| then Some(NotFound)
    else
      var n := s.notes[id];
      if n.status != N_CONFIRMED then Some(InvalidState)
      else if n.order >= |s.orders| then Some(NotFound)
      else if !s.orders[n.order].shippable then Some(InvalidState)
      else None
  }

  function WithDelivered(lines: seq<OrderLine>, seen: seq<Note>, o: nat): (r: seq<OrderLine>)
    ensures |r| == |lines|
  {
    seq(|lines|, l requires 0 <= l < |lines| => lines[l].(delivered := Confirmed(seen, o, l)))
  }

  /** `recalc_delivered`: every line of the LPO gets the sum the query returns.  Without autoflush
      the query still sees the note's old status. */
  function Recalculated(s: State, notes': seq<Note>, o: nat): (r: seq<Order>)
    requires o < |s.orders|
    ensures |r| == |s.orders|
  {
    var seen := if s.autoflush then notes' else s.notes;
    s.orders[o := s.orders[o].(lines := WithDelivered(s.orders[o].lines, seen, o))]
  }

  // ---- drafting: which lines a note gets ----

  /** A requested line; without a bin of its own it takes that of the note. */
  datatype Slice = Slice(line: nat, bin: Option<Bin>, quantity: Amount)

  /** What the first `n` requested lines ask of one LPO line. */
  function SlicedTo(slices: seq<Slice>, n: nat, line: nat): real
    requires n <= |slices|
  {
    if n == 0 then 0.0 else SlicedTo(slices, n - 1, line) + if slices[n - 1].line == line then slices[n - 1].quantity else 0.0
  }

  function SliceRefusal(s: State, order: nat, slices: seq<Slice>, i: nat): Option<Error>
    requires order < |s.orders| && i < |slices|
  {
    var x := slices[i];
    if x.line >= |s.orders[order].lines| then Some(NotFound)
    else if x.quantity > Leftover(s, order, x.line) as real - SlicedTo(slices, i, x.line) then Some(OverDelivery)
    else None
  }

  function SliceVerdicts(s: State, order: nat, slices: seq<Slice>): (verdicts: seq<Option<Error>>)
    requires order < |s.orders|
    ensures |verdicts| == |slices|
  {
    seq(|slices|, i requires 0 <= i < |slices| => SliceRefusal(s, order, slices, i))
  }

  /** What the first `n` requested lines come to. */
  function UnsliceableTo(s: State, order: nat, slices: seq<Slice>, n: nat): Option<Error>
    requires order < |s.orders| && n <= |slices|
  {
    FirstTo(SliceVerdicts(s, order, slices), n)
  }

  /** No line would be stored as zero. */
  predicate Storable(slices: seq<Slice>) {
    forall i | 0 <= i < |slices| :: 0 < Nearest(slices[i].quantity)
  }

  function LineFor(o: Order, header: Bin, line: nat, bin: Option<Bin>, quantity: Positive): NoteLine
    requires line < |o.lines|
  {
    NoteLine(line, if o.lines[line].product.None? then None
                   else Some(Key(o.lines[line].product.value, if bin.Some? then bin.value else header)), quantity)
  }

  /** A note without requested lines takes what is left of the first `n` LPO lines. */
  function LeftoversTo(s: State, order: nat, header: Bin, n: nat): seq<NoteLine>
    requires order < |s.orders| && n <= |s.orders[order].lines|
  {
    if n == 0 then []
    else if Leftover(s, order, n - 1) == 0 then LeftoversTo(s, order, header, n - 1)
    else LeftoversTo(s, order, header, n - 1) + [LineFor(s.orders[order], header, n - 1, None, Leftover(s, order, n - 1))]
  }

  function Sliced(o: Order, header: Bin, slices: seq<Slice>): (lines: seq<NoteLine>)
    requires Storable(slices) && forall i | 0 <= i < |slices| :: slices[i].line < |o.lines|
    ensures |lines| == |slices|
  {
    seq(|slices|, i requires 0 <= i < |slices| =>
      LineFor(o, header, slices[i].line, slices[i].bin, Nearest(slices[i].quantity)))
  }

  function PlanRefusal(s: State, order: nat, header: Bin, slices: seq<Slice>): Option<Error> {
    if order >= |s.orders| then Some(NotFound)
    else if !s.orders[order].shippable then Some(InvalidState)
    else if slices == [] then
      if LeftoversTo(s, order, header, |s.orders[order].lines|) == [] then Some(NoLines) else None
    else if UnsliceableTo(s, order, slices, |slices|).Some? then UnsliceableTo(s, order, slices, |slices|)
    else if !Storable(slices) then Some(CheckViolation)
    else None
  }

  lemma {:induction false} SlicesExist(s: State, order: nat, slices: seq<Slice>, n: nat)
    requires order < |s.orders| && n <= |slices| && UnsliceableTo(s, order, slices, n) == None
    ensures forall i | 0 <= i < n :: slices[i].line < |s.orders[order].lines|
  {
    if n != 0 {
      SlicesExist(s, order, slices, n - 1);
    }
  }

  function Planned(s: State, order: nat, header: Bin, slices: seq<Slice>): seq<NoteLine>
    requires PlanRefusal(s, order, header, slices) == None
  {
    if slices == [] then LeftoversTo(s, order, header, |s.orders[order].lines|)
    else
      SlicesExist(s, order, slices, |slices|);
      Sliced(s.orders[order], header, slices)
  }

  lemma {:induction false} LeftoversExist(s: State, order: nat, header: Bin, n: nat)
    requires order < |s.orders| && n <= |s.orders[order].lines|
    ensures forall l <- LeftoversTo(s, order, header, n) :: l.line < |s.orders[order].lines|
  {
    if n != 0 {
      LeftoversExist(s, order, header, n - 1);
    }
  }

  lemma PlannedOk(s: State, order: nat, header: Bin, slices: seq<Slice>)
    requires PlanRefusal(s, order, header, slices) == None
    ensures var lines := Planned(s, order, header, slices);
            lines != [] && forall l <- lines :: l.line < |s.orders[order].lines|
  {
    LeftoversExist(s, order, header, |s.orders[order].lines|);
    if slices != [] {
      SlicesExist(s, order, slices, |slices|);
    }
  }

  ghost predicate Drafts(s: State, order: nat, header: Bin, slices: seq<Slice>, s': State) {
    && PlanRefusal(s, order, header, slices) == None
    && s' == s.(notes := s.notes + [Note(order, N_DRAFT, Planned(s, order, header, slices))])
  }

  function RedraftRefusal(s: State, id: nat, header: Bin, slices: seq<Slice>): Option<Error> {
    if id >= |s.notes| then Some(NotFound)
    else if s.notes[id].status != N_DRAFT then Some(InvalidState)
    else PlanRefusal(s, s.notes[id].order, header, slices)
  }

  ghost predicate Redrafts(s: State, id: nat, header: Bin, slices: seq<Slice>, s': State) {
    && RedraftRefusal(s, id, header, slices) == None
    && s' == s.(notes := s.notes[id := s.notes[id].(lines := Planned(s, s.notes[id].order, header, slices))])
  }

  // ---- confirming and cancelling ----

  ghost predicate Confirms(s: State, id: nat, s': State) {
    && ConfirmRefusal(s, id) == None
    && var n := s.notes[id];
    && if n.status == N_CONFIRMED then s' == s else
    && var notes' := s.notes[id := n.(status := N_CONFIRMED)];
    && var drawn := DrawnBy(s, n, |n.lines|);
    && s' == s.(levels := s'.levels,
                ledger := s.ledger + RowsTo(id, n.lines, false, |n.lines|),
                heads := drawn.heads, items := drawn.items,
                orders := Recalculated(s, notes', n.order),
                notes := notes')
    && forall k :: Get(s'.levels, k) == Get(s.levels, k).(
                     onHand := Get(s.levels, k).onHand - Sum(Issued(n.lines), One(k)),
                     reserved := StillReserved(s, n, |n.lines|, k))
  }

  ghost predicate Cancels(s: State, id: nat, s': State) {
    && CancelRefusal(s, id) == None
    && var n := s.notes[id];
    && var notes' := s.notes[id := n.(status := N_CANCELLED)];
    && s' == s.(levels := s'.levels,
                ledger := s.ledger + RowsTo(id, n.lines, true, |n.lines|),
                orders := Recalculated(s, notes', n.order),
                notes := notes')
    && forall k :: Get(s'.levels, k) == Get(s.levels, k).(
                     onHand := Get(s.levels, k).onHand + Sum(Issued(n.lines), One(k)))
  }

  // ---- what the steps come to ----

  lemma {:induction false} RowsReplay(id: nat, lines: seq<NoteLine>, back: bool, n: nat, k: Key)
    requires n <= |lines|
    ensures forall t <- RowsTo(id, lines, back, n) :: t.kind == ISSUE
    ensures Replay(RowsTo(id, lines, back, n), One(k))
         == if back then SumTo(Issued(lines), n, One(k)) else -SumTo(Issued(lines), n, One(k))
  {
    if n != 0 {
      RowsReplay(id, lines, back, n - 1, k);
      if lines[n - 1].target.Some? {
        var before, rows := RowsTo(id, lines, back, n - 1), RowsTo(id, lines, back, n);
        ReplaySame(rows, before, |before|, One(k));
      }
    }
  }

  lemma DrawLineOk(b: Book, order: nat, l: NoteLine, k: Key)
    requires ItemsOk(b.heads, b.items)
    ensures var d := DrawLine(b, order, l);
            ItemsOk(d.heads, d.items) && 0 <= Sum(Claims(d.items), One(k)) <= Sum(Claims(b.items), One(k))
  {
    if l.target.Some? {
      DrawnKeeps(b, order, l.line, l.target.value.product, l.quantity);
      DrawnBounds(b, order, l.line, l.target.value.product, l.quantity, k);
    } else {
      assert forall i | 0 <= i < |b.items| :: ItemOk(b.heads, b.items[i]);
      SumBound(Claims(b.items), 0, |b.items|, One(k));
    }
  }

  /** Drawing keeps the reservation rows well formed and only ever lowers the open claims. */
  lemma {:induction false} DrawnOk(b: Book, order: nat, lines: seq<NoteLine>, n: nat, k: Key)
    requires n <= |lines| && ItemsOk(b.heads, b.items)
    ensures var d := DrawnTo(b, order, lines, n);
            && ItemsOk(d.heads, d.items)
            && 0 <= Sum(Claims(d.items), One(k)) <= Sum(Claims(b.items), One(k))
  {
    if n != 0 {
      DrawnOk(b, order, lines, n - 1, k);
      DrawLineOk(DrawnTo(b, order, lines, n - 1), order, lines[n - 1], k);
    } else {
      assert forall i | 0 <= i < |b.items| :: ItemOk(b.heads, b.items[i]);
      SumBound(Claims(b.items), 0, |b.items|, One(k));
    }
  }

  /** A note whose lines all find stock leaves stock on hand at every level. */
  lemma {:induction false} StockedCovers(s: State, n: Note, i: nat, k: Key)
    requires NonNegativeLevels(s.levels)
    requires i <= |n.lines| && StockedTo(s, n, |n.lines|)
    ensures SumTo(Issued(n.lines), i, One(k)) <= Get(s.levels, k).onHand
  {
    assert NonNegativeLevel(Get(s.levels, k));
    if i != 0 {
      StockedCovers(s, n, i - 1, k);
      if n.lines[i - 1].target == Some(k) {
        assert Stocked(s, n, i - 1);
      }
    }
  }

  lemma UndeliverableStays(s: State, n: Note, i: nat, m: nat)
    requires n.order < |s.orders| && i <= m <= |n.lines|
    ensures UndeliverableTo(s, n, i).Some? ==> UndeliverableTo(s, n, m) == UndeliverableTo(s, n, i)
    ensures UndeliverableTo(s, n, m).None? && i < m ==> LineRefusal(s, n, i) == None
  {
    FirstStays(LineVerdicts(s, n), i, m);
  }

  /** The line-by-line check bounds the whole shipment of each LPO line. */
  lemma {:induction false} RemainsCovers(s: State, n: Note, i: nat, l: nat)
    requires i <= |n.lines| && n.order < |s.orders| && l < |s.orders[n.order].lines|
    requires UndeliverableTo(s, n, |n.lines|) == None
    ensures ShippedTo(n.lines, i, l) <= Leftover(s, n.order, l)
  {
    if i != 0 {
      RemainsCovers(s, n, i - 1, l);
      UndeliverableStays(s, n, i - 1, |n.lines|);
    }
  }

  lemma {:induction false} ShippedGrows(lines: seq<NoteLine>, i: nat, n: nat, line: nat)
    requires i <= n <= |lines|
    ensures ShippedTo(lines, i, line) <= ShippedTo(lines, n, line)
  {
    if i != n {
      ShippedGrows(lines, i, n - 1, line);
    }
  }

  /** Every line of the note belongs to a line of the LPO that still has room for all of them. */
  ghost predicate Deliverable(s: State, n: Note)
    requires n.order < |s.orders|
  {
    && (forall i | 0 <= i < |n.lines| :: n.lines[i].line < |s.orders[n.order].lines|)
    && forall l | 0 <= l < |s.orders[n.order].lines| :: Shipped(n.lines, l) <= Leftover(s, n.order, l)
  }

  lemma {:induction false} DeliverableLines(s: State, n: Note, m: nat)
    requires n.order < |s.orders| && m <= |n.lines| && Deliverable(s, n)
    ensures UndeliverableTo(s, n, m) == None
  {
    if m != 0 {
      DeliverableLines(s, n, m - 1);
      ShippedGrows(n.lines, m, |n.lines|, n.lines[m - 1].line);
    }
  }

  /** The line-by-line check refuses nothing exactly when, for every LPO line, all note lines for it
      together fit what is left of it. */
  lemma RemainingNeedsWholeDemand(s: State, n: Note)
    requires n.order < |s.orders|
    ensures UndeliverableTo(s, n, |n.lines|) == None <==> Deliverable(s, n)
  {
    if UndeliverableTo(s, n, |n.lines|) == None {
      forall i | 0 <= i < |n.lines|
        ensures n.lines[i].line < |s.orders[n.order].lines|
      {
        UndeliverableStays(s, n, i, |n.lines|);
      }
      forall l | 0 <= l < |s.orders[n.order].lines|
        ensures Shipped(n.lines, l) <= Leftover(s, n.order, l)
      {
        RemainsCovers(s, n, |n.lines|, l);
      }
    } else if Deliverable(s, n) {
      DeliverableLines(s, n, |n.lines|);
    }
  }

  /** Setting the status of one note shifts the confirmed sums of its own LPO lines only. */
  lemma StatusShifts(s: State, id: nat, status: NoteStatus, o: nat, l: nat)
    requires id < |s.notes|
    ensures Confirmed(s.notes[id := s.notes[id].(status := status)], o, l)
         == Confirmed(s.notes, o, l) - Delivered(s.notes[id], o, l) + Delivered(s.notes[id].(status := status), o, l)
  {
    ConfirmedUpdate(s.notes, id, s.notes[id].(status := status), |s.notes|, o, l);
  }

  lemma RecalculatedOk(s: State, id: nat, status: NoteStatus, o: nat, l: nat)
    requires Inv(s) && id < |s.notes| && s.notes[id].order < |s.orders|
    requires o < |s.orders| && l < |s.orders[o].lines|
    requires Confirmed(s.notes[id := s.notes[id].(status := status)], o, l) <= s.orders[o].lines[l].quantity
    ensures var notes' := s.notes[id := s.notes[id].(status := status)];
            var orders' := Recalculated(s, notes', s.notes[id].order);
            |orders'[o].lines| == |s.orders[o].lines| && LineOk(orders', notes', o, l)
  {
    var notes' := s.notes[id := s.notes[id].(status := status)];
    assert LineOk(s.orders, s.notes, o, l);
    ConfirmedNonNegative(s.notes, |s.notes|, o, l);
    ConfirmedNonNegative(notes', |notes'|, o, l);
  }

  /** Confirming leaves the gap between snapshot and ledger as it is, and that between `reserved` and its
      claims too, unless the floor bites. */
  lemma ConfirmGap(s: State, id: nat, s': State, k: Key)
    requires Confirms(s, id, s') && s.notes[id].status == N_DRAFT
    ensures OnHandGap(s'.levels, s'.ledger, k) == OnHandGap(s.levels, s.ledger, k)
    ensures HeldGap(s'.levels, s'.items, k) == Max(HeldGap(s.levels, s.items, k), -Sum(Claims(s'.items), One(k)))
  {
    var lines := s.notes[id].lines;
    ReplayConcat(s.ledger, RowsTo(id, lines, false, |lines|), One(k));
    RowsReplay(id, lines, false, |lines|, k);
  }

  lemma ConfirmNonNegative(s: State, id: nat, s': State, k: Key)
    requires Inv(s) && Confirms(s, id, s') && s.notes[id].status == N_DRAFT
    ensures NonNegativeLevel(Get(s'.levels, k))
  {
    assert NonNegativeLevel(Get(s.levels, k));
    StockedCovers(s, s.notes[id], |s.notes[id].lines|, k);
  }

  lemma ConfirmDeliveries(s: State, id: nat, s': State)
    requires Inv(s) && Confirms(s, id, s') && s.notes[id].status == N_DRAFT
    ensures DeliveriesOk(s'.orders, s'.notes)
  {
    var n := s.notes[id];
    forall o, l | 0 <= o < |s.orders| && 0 <= l < |s.orders[o].lines|
      ensures |s'.orders[o].lines| == |s.orders[o].lines| && LineOk(s'.orders, s'.notes, o, l)
    {
      assert LineOk(s.orders, s.notes, o, l);
      StatusShifts(s, id, N_CONFIRMED, o, l);
      if o == n.order {
        RemainsCovers(s, n, |n.lines|, l);
      }
      RecalculatedOk(s, id, N_CONFIRMED, o, l);
    }
    NotesStay(s, id, s');
  }

  lemma ConfirmKeeps(s: State, id: nat, s': State)
    requires Inv(s) && Confirms(s, id, s')
    ensures Inv(s')
  {
    var n := s.notes[id];
    if n.status != N_CONFIRMED {
      forall k
        ensures NonNegativeLevel(Get(s'.levels, k))
      {
        ConfirmNonNegative(s, id, s', k);
      }
      RowsReplay(id, n.lines, false, |n.lines|, Key(0, Bin(0, 0)));
      StockStays(s, RowsTo(id, n.lines, false, |n.lines|));
      DrawnOk(Book(s.heads, s.items), n.order, n.lines, |n.lines|, Key(0, Bin(0, 0)));
      ConfirmDeliveries(s, id, s');
    }
  }

  lemma StockStays(s: State, rows: seq<Txn>)
    requires Inv(s)
    requires forall t <- rows :: t.kind != TRANSFER
    ensures Balanced(s.ledger + rows, s.transfers) && CountsOk(s.counts, s.ledger + rows)
  {
    BalancedOutside(s.ledger, rows, s.transfers);
    CountsKeep(s.counts, s.ledger, rows);
  }

  lemma NotesStay(s: State, id: nat, s': State)
    requires Inv(s) && id < |s.notes|
    requires |s'.notes| == |s.notes| && |s'.orders| == |s.orders|
    requires forall i | 0 <= i < |s.notes| :: s'.notes[i].order == s.notes[i].order && s'.notes[i].lines == s.notes[i].lines
    requires forall o | 0 <= o < |s.orders| :: |s'.orders[o].lines| == |s.orders[o].lines|
    ensures forall n <- s'.notes :: NoteOk(s'.orders, n)
  {
    forall i | 0 <= i < |s'.notes|
      ensures NoteOk(s'.orders, s'.notes[i])
    {
      assert s.notes[i] in s.notes;
    }
  }

  lemma CancelDeliveries(s: State, id: nat, s': State)
    requires Inv(s) && Cancels(s, id, s')
    ensures DeliveriesOk(s'.orders, s'.notes)
  {
    var n := s.notes[id];
    forall o, l | 0 <= o < |s.orders| && 0 <= l < |s.orders[o].lines|
      ensures |s'.orders[o].lines| == |s.orders[o].lines| && LineOk(s'.orders, s'.notes, o, l)
    {
      assert LineOk(s.orders, s.notes, o, l);
      StatusShifts(s, id, N_CANCELLED, o, l);
      ShippedNonNegative(n.lines, |n.lines|, l);
      RecalculatedOk(s, id, N_CANCELLED, o, l);
    }
    NotesStay(s, id, s');
  }

  lemma CancelGap(s: State, id: nat, s': State, k: Key)
    requires Cancels(s, id, s')
    ensures OnHandGap(s'.levels, s'.ledger, k) == OnHandGap(s.levels, s.ledger, k)
  {
    var lines := s.notes[id].lines;
    ReplayConcat(s.ledger, RowsTo(id, lines, true, |lines|), One(k));
    RowsReplay(id, lines, true, |lines|, k);
  }

  lemma CancelKeeps(s: State, id: nat, s': State)
    requires Inv(s) && Cancels(s, id, s')
    ensures Inv(s')
  {
    var n := s.notes[id];
    forall k
      ensures NonNegativeLevel(Get(s'.levels, k))
    {
      assert NonNegativeLevel(Get(s.levels, k));
      SumBound(Issued(n.lines), 0, |n.lines|, One(k));
    }
    RowsReplay(id, n.lines, true, |n.lines|, Key(0, Bin(0, 0)));
    StockStays(s, RowsTo(id, n.lines, true, |n.lines|));
    CancelDeliveries(s, id, s');
  }

  lemma DraftKeeps(s: State, order: nat, header: Bin, slices: seq<Slice>, s': State)
    requires Inv(s) && Drafts(s, order, header, slices, s')
    ensures Inv(s')
  {
    PlannedOk(s, order, header, slices);
    forall o, l | 0 <= o < |s.orders| && 0 <= l < |s.orders[o].lines|
      ensures LineOk(s'.orders, s'.notes, o, l)
    {
      assert LineOk(s.orders, s.notes, o, l);
      ConfirmedSame(s'.notes, s.notes, |s.notes|, o, l);
    }
  }

  lemma RedraftKeeps(s: State, id: nat, header: Bin, slices: seq<Slice>, s': State)
    requires Inv(s) && Redrafts(s, id, header, slices, s')
    ensures Inv(s')
  {
    PlannedOk(s, s.notes[id].order, header, slices);
    forall o, l | 0 <= o < |s.orders| && 0 <= l < |s.orders[o].lines|
      ensures LineOk(s'.orders, s'.notes, o, l)
    {
      assert LineOk(s.orders, s.notes, o, l);
      ConfirmedUpdate(s.notes, id, s'.notes[id], |s.notes|, o, l);
    }
    forall n <- s'.notes
      ensures NoteOk(s'.orders, n)
    {
      if n != s'.notes[id] {
        assert n in s.notes;
      } else {
        assert s.notes[id] in s.notes;
      }
    }
  }

  ghost predicate DeliveredExact(s: State, o: nat)
    requires o < |s.orders|
  {
    forall l | 0 <= l < |s.orders[o].lines| :: s.orders[o].lines[l].delivered == Confirmed(s.notes, o, l)
  }

  lemma {:induction false} ShipsSomething(lines: seq<NoteLine>, n: nat, i: nat)
    requires i < n <= |lines|
    ensures 0 < ShippedTo(lines, n, lines[i].line)
  {
    ShippedNonNegative(lines, n - 1, lines[i].line);
    if i != n - 1 {
      ShipsSomething(lines, n - 1, i);
    }
  }

  /** The delivered figures of the LPO are right after confirming or cancelling a note exactly when
      the session flushes before it queries; the stale figure is never out of range, only late. */
  lemma DeliveredNeedsAutoflush(s: State, id: nat, s': State)
    requires Inv(s) && id < |s.notes|
    requires (Confirms(s, id, s') && s.notes[id].status == N_DRAFT) || Cancels(s, id, s')
    ensures s.notes[id].order < |s'.orders|
    ensures DeliveredExact(s', s.notes[id].order) <==> s.autoflush
  {
    var n := s.notes[id];
    assert NoteOk(s.orders, n);
    var o, l := n.order, n.lines[0].line;
    assert n.lines[0] in n.lines;
    ShipsSomething(n.lines, |n.lines|, 0);
    StatusShifts(s, id, s'.notes[id].status, o, l);
    assert s'.orders[o].lines[l].delivered == Confirmed(if s.autoflush then s'.notes else s.notes, o, l);
  }

  // ---- the loops over a note's lines ----

  /** What the lines so far take from each LPO line. */
  ghost predicate Used(lines: seq<NoteLine>, n: nat, used: map<nat, int>)
    requires n <= |lines|
  {
    forall l :: ShippedTo(lines, n, l) == if l in used then used[l] else 0
  }

  lemma UseOne(lines: seq<NoteLine>, n: nat, used: map<nat, int>)
    requires n < |lines| && Used(lines, n, used)
    ensures var l := lines[n].line;
            Used(lines, n + 1, used[l := (if l in used then used[l] else 0) + lines[n].quantity])
  {
  }

  method CheckRemaining(s: State, n: Note) returns (r: Option<Error>)
    requires n.order < |s.orders|
    ensures r == UndeliverableTo(s, n, |n.lines|)
  {
    var used: map<nat, int> := map[];
    for i := 0 to |n.lines|
      invariant UndeliverableTo(s, n, i) == None
      invariant Used(n.lines, i, used)
    {
      var l := n.lines[i];
      if l.line >= |s.orders[n.order].lines| {
        UndeliverableStays(s, n, i + 1, |n.lines|);
        return Some(NotFound);
      }
      var taken := if l.line in used then used[l.line] else 0;
      if l.quantity > Leftover(s, n.order, l.line) - taken {
        UndeliverableStays(s, n, i + 1, |n.lines|);
        return Some(OverDelivery);
      }
      UseOne(n.lines, i, used);
      used := used[l.line := taken + l.quantity];
    }
    return None;
  }

  method RemainingLines(s: State, order: nat, header: Bin) returns (lines: seq<NoteLine>)
    requires order < |s.orders|
    ensures lines == LeftoversTo(s, order, header, |s.orders[order].lines|)
  {
    lines := [];
    for l := 0 to |s.orders[order].lines|
      invariant lines == LeftoversTo(s, order, header, l)
    {
      var leftover := Leftover(s, order, l);
      if leftover > 0 {
        lines := lines + [LineFor(s.orders[order], header, l, None, leftover)];
      }
    }
  }

  /** The running `leftover` map, kept as what the requested lines so far took. */
  ghost predicate SlicedOff(slices: seq<Slice>, n: nat, used: map<nat, real>)
    requires n <= |slices|
  {
    forall l :: SlicedTo(slices, n, l) == if l in used then used[l] else 0.0
  }

  lemma SliceOne(slices: seq<Slice>, n: nat, used: map<nat, real>)
    requires n < |slices| && SlicedOff(slices, n, used)
    ensures var l := slices[n].line;
            SlicedOff(slices, n + 1, used[l := (if l in used then used[l] else 0.0) + slices[n].quantity])
  {
  }

  lemma UnsliceableStays(s: State, order: nat, slices: seq<Slice>, i: nat, n: nat)
    requires order < |s.orders| && i <= n <= |slices| && UnsliceableTo(s, order, slices, i).Some?
    ensures UnsliceableTo(s, order, slices, n) == UnsliceableTo(s, order, slices, i)
  {
    FirstStays(SliceVerdicts(s, order, slices), i, n);
  }

  /** `lines` are what the first `n` requested lines become, if none of them is stored as zero. */
  ghost predicate Built(o: Order, header: Bin, slices: seq<Slice>, n: nat, lines: seq<NoteLine>)
    requires n <= |slices|
  {
    && |lines| == n
    && forall i | 0 <= i < n ::
         && slices[i].line < |o.lines| && 0 < Nearest(slices[i].quantity)
         && lines[i] == LineFor(o, header, slices[i].line, slices[i].bin, Nearest(slices[i].quantity))
  }

  method ResolveSlices(s: State, order: nat, header: Bin, slices: seq<Slice>) returns (r: Option<Error>, lines: seq<NoteLine>)
    requires order < |s.orders|
    ensures r.Some? && r != Some(CheckViolation) ==> r == UnsliceableTo(s, order, slices, |slices|)
    ensures r == Some(CheckViolation) ==> UnsliceableTo(s, order, slices, |slices|) == None && !Storable(slices)
    ensures r.None? ==> UnsliceableTo(s, order, slices, |slices|) == None && Built(s.orders[order], header, slices, |slices|, lines)
  {
    var used: map<nat, real> := map[];
    var tiny := false;
    r, lines := None, [];
    for i := 0 to |slices|
      invariant UnsliceableTo(s, order, slices, i) == None && SlicedOff(slices, i, used)
      invariant if tiny then !Storable(slices) else Built(s.orders[order], header, slices, i, lines)
    {
      var x := slices[i];
      var taken := if x.line in used then used[x.line] else 0.0;
      if x.line >= |s.orders[order].lines| || x.quantity > Leftover(s, order, x.line) as real - taken {
        r := Some(if x.line >= |s.orders[order].lines| then NotFound else OverDelivery);
        UnsliceableStays(s, order, slices, i + 1, |slices|);
        return;
      }
      SliceOne(slices, i, used);
      used := used[x.line := taken + x.quantity];
      var quantity := Nearest(x.quantity);
      if quantity == 0 {
        tiny := true;
      } else {
        lines := lines + [LineFor(s.orders[order], header, x.line, x.bin, quantity)];
      }
    }
    if tiny {
      r := Some(CheckViolation);
    }
  }

  /** The lines of a new or rewritten note. */
  method PlanLines(s: State, order: nat, header: Bin, slices: seq<Slice>) returns (r: Option<Error>, lines: seq<NoteLine>)
    ensures r == PlanRefusal(s, order, header, slices)
    ensures r.None? ==> lines == Planned(s, order, header, slices)
  {
    lines := [];
    if order >= |s.orders| { return Some(NotFound), lines; }
    if !s.orders[order].shippable { return Some(InvalidState), lines; }
    if slices == [] {
      lines := RemainingLines(s, order, header);
      return if lines == [] then Some(NoLines) else None, lines;
    }
    r, lines := ResolveSlices(s, order, header, slices);
    UnsliceableKinds(s, order, slices, |slices|);
    if r.None? {
      SlicesExist(s, order, slices, |slices|);
      assert lines == Sliced(s.orders[order], header, slices);
    }
  }

  lemma {:induction false} UnsliceableKinds(s: State, order: nat, slices: seq<Slice>, n: nat)
    requires order < |s.orders| && n <= |slices|
    ensures UnsliceableTo(s, order, slices, n) != Some(CheckViolation)
  {
    if n != 0 {
      UnsliceableKinds(s, order, slices, n - 1);
    }
  }

  /** The session's level rows after the first `i` lines of the note. */
  ghost predicate IssuedSoFar(s: State, n: Note, i: nat, session: Table)
    requires i <= |n.lines|
  {
    forall k :: Get(session, k) == Get(s.levels, k).(
                  onHand := Get(s.levels, k).onHand - SumTo(Issued(n.lines), i, One(k)),
                  reserved := StillReserved(s, n, i, k))
  }

  lemma {:induction false} DrawnItems(b: Book, order: nat, lines: seq<NoteLine>, n: nat)
    requires n <= |lines| && ItemsOk(b.heads, b.items)
    ensures ItemsOk(DrawnTo(b, order, lines, n).heads, DrawnTo(b, order, lines, n).items)
  {
    DrawnOk(b, order, lines, n, Key(0, Bin(0, 0)));
  }

  lemma StillReservedNext(s: State, n: Note, i: nat, k: Key)
    requires i < |n.lines| && ItemsOk(s.heads, s.items)
    ensures StillReserved(s, n, i + 1, k)
         == Max(0, StillReserved(s, n, i, k) - Sum(Claims(DrawnBy(s, n, i).items), One(k))
                   + Sum(Claims(DrawnBy(s, n, i + 1).items), One(k)))
  {
    DrawnItems(Book(s.heads, s.items), n.order, n.lines, i);
    DrawLineOk(DrawnBy(s, n, i), n.order, n.lines[i], k);
  }

  /** The session's level rows once line `i` consumed its reservations. */
  ghost predicate DrawnSoFar(s: State, n: Note, i: nat, drawn: Table)
    requires i < |n.lines|
  {
    forall k :: Get(drawn, k) == Get(s.levels, k).(
                  onHand := Get(s.levels, k).onHand - SumTo(Issued(n.lines), i, One(k)),
                  reserved := StillReserved(s, n, i + 1, k))
  }

  lemma DrawNext(s: State, n: Note, i: nat, session: Table, drawn: Table)
    requires i < |n.lines| && ItemsOk(s.heads, s.items) && IssuedSoFar(s, n, i, session)
    requires LetGo(session, drawn, DrawnBy(s, n, i).items, DrawnBy(s, n, i + 1).items)
    ensures DrawnSoFar(s, n, i, drawn)
  {
    forall k
      ensures Get(drawn, k) == Get(session, k).(reserved := StillReserved(s, n, i + 1, k))
    {
      StillReservedNext(s, n, i, k);
    }
  }

  lemma IssueNext(s: State, n: Note, i: nat, drawn: Table)
    requires i < |n.lines| && n.lines[i].target.Some? && DrawnSoFar(s, n, i, drawn)
    ensures var k := n.lines[i].target.value;
            && (Available(drawn, k) >= n.lines[i].quantity <==> Stocked(s, n, i))
            && IssuedSoFar(s, n, i + 1, drawn[k := Get(drawn, k).(onHand := Get(drawn, k).onHand - n.lines[i].quantity)])
  {
  }

  lemma IssueNothing(s: State, n: Note, i: nat, session: Table)
    requires i < |n.lines| && n.lines[i].target.None? && IssuedSoFar(s, n, i, session)
    ensures IssuedSoFar(s, n, i + 1, session)
  {
  }

  /** One catalogue line: consume reservations, then take the stock if enough is available. */
  method IssueLine(s: State, n: Note, i: nat, session: Table, b: Book) returns (ok: bool, session': Table, b': Book)
    requires i < |n.lines| && ItemsOk(s.heads, s.items)
    requires b == DrawnBy(s, n, i) && IssuedSoFar(s, n, i, session)
    ensures ok <==> Stocked(s, n, i)
    ensures ok ==> b' == DrawnBy(s, n, i + 1) && IssuedSoFar(s, n, i + 1, session')
  {
    var l := n.lines[i];
    if l.target.None? {
      IssueNothing(s, n, i, session);
      return true, session, b;
    }
    var k := l.target.value;
    DrawnItems(Book(s.heads, s.items), n.order, n.lines, i);
    var drawn, consumed;
    drawn, b', consumed := ReleaseForDispatch(session, b, n.order, l.line, k.product, l.quantity);
    DrawNext(s, n, i, session, drawn);
    IssueNext(s, n, i, drawn);
    var level := Get(drawn, k);
    ok := Available(drawn, k) >= l.quantity;
    session' := drawn[k := level.(onHand := level.onHand - l.quantity)];
  }

  lemma IssueStart(s: State, n: Note)
    requires NonNegativeLevels(s.levels)
    ensures IssuedSoFar(s, n, 0, s.levels)
  {
    HeldIsOk(s.levels);
  }

  lemma StockedNext(s: State, n: Note, i: nat)
    requires i < |n.lines| && StockedTo(s, n, i)
    ensures if Stocked(s, n, i) then StockedTo(s, n, i + 1) else !StockedTo(s, n, |n.lines|)
  {
  }

  /** A catalogue line writes a ledger row. */
  method WriteRow(id: nat, lines: seq<NoteLine>, i: nat, rows: seq<Txn>) returns (rows': seq<Txn>)
    requires i < |lines| && rows == RowsTo(id, lines, false, i)
    ensures rows' == RowsTo(id, lines, false, i + 1)
  {
    rows' := rows;
    if lines[i].target.Some? {
      rows' := rows + [IssueRow(id, lines[i])];
    }
  }

  method IssueLines(s: State, id: nat, n: Note)
    returns (r: Option<Error>, session: Table, rows: seq<Txn>, b: Book)
    requires ItemsOk(s.heads, s.items) && NonNegativeLevels(s.levels)
    ensures r == if StockedTo(s, n, |n.lines|) then None else Some(Insufficient)
    ensures r.None? ==> rows == RowsTo(id, n.lines, false, |n.lines|) && b == DrawnBy(s, n, |n.lines|)
    ensures r.None? ==> IssuedSoFar(s, n, |n.lines|, session)
  {
    r, session, rows, b := None, s.levels, [], Book(s.heads, s.items);
    IssueStart(s, n);
    for i := 0 to |n.lines|
      invariant StockedTo(s, n, i)
      invariant rows == RowsTo(id, n.lines, false, i) && b == DrawnBy(s, n, i)
      invariant IssuedSoFar(s, n, i, session)
    {
      var ok;
      ok, session, b := IssueLine(s, n, i, session, b);
      StockedNext(s, n, i);
      if !ok { return Some(Insufficient), s.levels, [], b; }
      rows := WriteRow(id, n.lines, i, rows);
    }
  }

  lemma {:induction false} IssuedIsConfirmed(s: State, id: nat, session: Table, s': State)
    requires ConfirmRefusal(s, id) == None && s.notes[id].status == N_DRAFT
    requires var n, m := s.notes[id], |s.notes[id].lines|;
             var notes' := s.notes[id := n.(status := N_CONFIRMED)];
             IssuedSoFar(s, n, m, session)
             && s' == State(s.autoflush, session, s.ledger + RowsTo(id, n.lines, false, m),
                            DrawnBy(s, n, m).heads, DrawnBy(s, n, m).items, s.transfers, s.counts,
                            Recalculated(s, notes', n.order), notes')
    ensures Confirms(s, id, s')
  {
  }

  method ReturnLines(levels: Table, id: nat, lines: seq<NoteLine>) returns (session: Table, rows: seq<Txn>)
    ensures rows == RowsTo(id, lines, true, |lines|)
    ensures OnHandMoved(levels, session, Issued(lines), false, |lines|)
  {
    session, rows := levels, [];
    for i := 0 to |lines|
      invariant rows == RowsTo(id, lines, true, i)
      invariant OnHandMoved(levels, session, Issued(lines), false, i)
    {
      if lines[i].target.Some? {
        var k := lines[i].target.value;
        var level := Get(session, k);
        session := session[k := level.(onHand := level.onHand + lines[i].quantity)];
        rows := rows + [BackRow(id, lines[i])];
      }
    }
  }

  method RecalcDelivered(s: State, notes': seq<Note>, o: nat) returns (orders': seq<Order>)
    requires o < |s.orders|
    ensures orders' == Recalculated(s, notes', o)
  {
    var seen := if s.autoflush then notes' else s.notes;
    var lines := [];
    for l := 0 to |s.orders[o].lines|
      invariant lines == WithDelivered(s.orders[o].lines, seen, o)[..l]
    {
      lines := lines + [s.orders[o].lines[l].(delivered := Confirmed(seen, o, l))];
    }
    assert lines == WithDelivered(s.orders[o].lines, seen, o);
    orders' := s.orders[o := s.orders[o].(lines := lines)];
  }
}
