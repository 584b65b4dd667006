/** Stock reservations against LPO lines: reserving, cancelling and expiring. */
module Reservations {
  import opened Levels
  import opened Tables
  import opened StockInvariant
  import opened Rounding
  import opened Demands

  /** RESERVATION_TTL_DAYS, in seconds. */
  const TTL := 7 * 24 * 3600

  datatype Row = Row(line: nat, bin: Bin, quantity: Amount)

  // ---- reserving ----

  function ProductOf(o: Order, line: nat): nat {
    if line < |o.lines| && o.lines[line].product.Some? then o.lines[line].product.value else 0
  }

  function KeyOf(s: State, order: nat, r: Row): Key
    requires order < |s.orders|
  {
    Key(ProductOf(s.orders[order], r.line), r.bin)
  }

  function NewItem(s: State, order: nat, r: Row): ResItem
    requires order < |s.orders|
  {
    ResItem(|s.heads|, order, r.line, KeyOf(s, order, r), Nearest(r.quantity), 0, ACTIVE)
  }

  function NewItems(s: State, order: nat, rows: seq<Row>): (items: seq<ResItem>)
    requires order < |s.orders|
    ensures |items| == |rows|
  {
    seq(|rows|, i requires 0 <= i < |rows| => NewItem(s, order, rows[i]))
  }

  /** What the rows ask of their levels. */
  function RowAsks(s: State, order: nat, rows: seq<Row>): (xs: seq<Ask>)
    requires order < |s.orders|
    ensures |xs| == |rows|
  {
    seq(|rows|, i requires 0 <= i < |rows| => Ask(KeyOf(s, order, rows[i]), rows[i].quantity))
  }

  /** Between two rows the loop still refers to the level row of the first. */
  function RowReloads(s: State, order: nat, rows: seq<Row>): (cuts: seq<Reload>)
    requires order < |s.orders|
    ensures |cuts| == |rows|
  {
    Reloads(s.autoflush, s.levels, RowAsks(s, order, rows), Others)
  }

  /** What row `i` finds available after the rows before it. */
  function FreeFor(s: State, order: nat, rows: seq<Row>, i: nat): real
    requires order < |s.orders| && i < |rows|
  {
    var k := KeyOf(s, order, rows[i]);
    (Get(s.levels, k).onHand - Get(s.levels, k).damaged) as real
    - ColumnTo(Get(s.levels, k).reserved, RowAsks(s, order, rows), RowReloads(s, order, rows), i, k)
  }

  /** Quantity of one LPO line that ACTIVE reservation lines still hold. */
  function HeldTo(items: seq<ResItem>, n: nat, order: nat, line: nat): int
    requires n <= |items|
  {
    if n == 0 then 0
    else HeldTo(items, n - 1, order, line)
         + if items[n - 1].order == order && items[n - 1].line == line then Claim(items[n - 1]).amount else 0
  }

  /** What the first `n` rows ask of one LPO line. */
  function WantedTo(rows: seq<Row>, n: nat, line: nat): real
    requires n <= |rows|
  {
    if n == 0 then 0.0 else WantedTo(rows, n - 1, line) + if rows[n - 1].line == line then rows[n - 1].quantity else 0.0
  }

  /** Undelivered quantity of an LPO line that no reservation holds yet. */
  function Unheld(s: State, order: nat, l: nat): int
    requires order < |s.orders| && l < |s.orders[order].lines|
  {
    var line := s.orders[order].lines[l];
    line.quantity - line.delivered - HeldTo(s.items, |s.items|, order, l)
  }

  /** One of the first `n` rows would be stored as zero, which the database does not take. */
  predicate TinyTo(rows: seq<Row>, n: nat)
    requires n <= |rows|
  {
    exists i | 0 <= i < n :: Nearest(rows[i].quantity) == 0
  }

  /** Why row `i` is refused, once the rows before it are in.  The rows before it are written before the
      level is read when the session flushes by itself or the level row has to be created. */
  function RowRefusal(s: State, order: nat, rows: seq<Row>, i: nat): Option<Error>
    requires order < |s.orders| && i < |rows|
  {
    var lines, r := s.orders[order].lines, rows[i];
    var k := KeyOf(s, order, r);
    if r.line >= |lines| then Some(NotFound)
    else if lines[r.line].product.None? then Some(AdHocLine)
    else if r.quantity + WantedTo(rows, i, r.line) > Unheld(s, order, r.line) as real then Some(ExceedsUndelivered)
    else if (s.autoflush || k !in s.levels) && TinyTo(rows, i) then Some(CheckViolation)
    else if r.quantity > FreeFor(s, order, rows, i) then Some(Insufficient)
    else None
  }

  function RowVerdicts(s: State, order: nat, rows: seq<Row>): (verdicts: seq<Option<Error>>)
    requires order < |s.orders|
    ensures |verdicts| == |rows|
  {
    seq(|rows|, i requires 0 <= i < |rows| => RowRefusal(s, order, rows, i))
  }

  /** What the first `n` rows come to. */
  function RefusedTo(s: State, order: nat, rows: seq<Row>, n: nat): Option<Error>
    requires order < |s.orders| && n <= |rows|
  {
    FirstTo(RowVerdicts(s, order, rows), n)
  }

  function ReserveRefusal(s: State, order: nat, rows: seq<Row>): Option<Error> {
    if order >= |s.orders| then Some(NotFound)
    else if !s.orders[order].shippable then Some(InvalidState)
    else if RefusedTo(s, order, rows, |rows|).Some? then RefusedTo(s, order, rows, |rows|)
    else if TinyTo(rows, |rows|) then Some(CheckViolation)
    else None
  }

  /** `reserved` of every level takes the rows. */
  ghost predicate Holds(levels: Table, levels': Table, xs: seq<Ask>, cuts: seq<Reload>)
    requires |xs| == |cuts|
  {
    forall k :: Get(levels', k) == Get(levels, k).(reserved := Column(Get(levels, k).reserved, xs, cuts, k))
  }

  ghost predicate Reserves(s: State, order: nat, rows: seq<Row>, now: int, s': State) {
    && ReserveRefusal(s, order, rows) == None
    && s' == s.(levels := s'.levels,
                heads := s.heads + [Head(order, ACTIVE, now + TTL)],
                items := s.items + NewItems(s, order, rows))
    && Holds(s.levels, s'.levels, RowAsks(s, order, rows), RowReloads(s, order, rows))
  }

  lemma RefusalStays(s: State, order: nat, rows: seq<Row>, i: nat, n: nat)
    requires order < |s.orders| && i <= n <= |rows|
    ensures RefusedTo(s, order, rows, i).Some? ==> RefusedTo(s, order, rows, n) == RefusedTo(s, order, rows, i)
    ensures RefusedTo(s, order, rows, n).None? && i < n ==> RowRefusal(s, order, rows, i) == None
  {
    FirstStays(RowVerdicts(s, order, rows), i, n);
  }

  lemma RowCapped(s: State, order: nat, rows: seq<Row>, i: nat)
    requires ReserveRefusal(s, order, rows) == None && i < |rows|
    ensures var l := Get(s.levels, KeyOf(s, order, rows[i]));
            Capped(l.reserved, RowAsks(s, order, rows), RowReloads(s, order, rows), i, l.onHand - l.damaged)
  {
    RefusalStays(s, order, rows, i, |rows|);
  }

  /** Rows that go through keep within what a level has on hand and undamaged, however their sum is
      rounded on the way. */
  lemma {:induction false} RowsCovered(s: State, order: nat, rows: seq<Row>, k: Key)
    requires ReserveRefusal(s, order, rows) == None && 0 <= Get(s.levels, k).reserved
    ensures var xs, l := RowAsks(s, order, rows), Get(s.levels, k);
            0.0 < Asked(xs, k) ==>
              0.0 <= ColumnTo(l.reserved, xs, RowReloads(s, order, rows), |xs|, k) <= (l.onHand - l.damaged) as real
  {
    var xs, cuts, l := RowAsks(s, order, rows), RowReloads(s, order, rows), Get(s.levels, k);
    forall i | 0 <= i < |xs| && xs[i].key == k
      ensures Capped(l.reserved, xs, cuts, i, l.onHand - l.damaged)
    {
      RowCapped(s, order, rows, i);
    }
    ColumnCapped(l.reserved, xs, cuts, |xs|, k, l.onHand - l.damaged);
    ColumnRises(l.reserved, xs, cuts, |xs|, k);
  }

  /** A reservation that goes through never takes a level below zero available stock, even when several
      of its rows are for the same level, and however their sum rounds. */
  lemma ReservedIsCovered(s: State, order: nat, rows: seq<Row>, now: int, s': State, k: Key)
    requires NonNegativeLevels(s.levels) && Reserves(s, order, rows, now, s')
    ensures 0.0 < Asked(RowAsks(s, order, rows), k) ==> 0 <= Available(s'.levels, k)
  {
    assert NonNegativeLevel(Get(s.levels, k));
    RowsCovered(s, order, rows, k);
    if 0.0 < Asked(RowAsks(s, order, rows), k) {
      CentsFit(ColumnTo(Get(s.levels, k).reserved, RowAsks(s, order, rows), RowReloads(s, order, rows), |rows|, k),
               Get(s.levels, k).onHand - Get(s.levels, k).damaged);
    }
  }

  ghost predicate Named(s: State, order: nat, rows: seq<Row>, i: nat)
    requires order < |s.orders| && i < |rows|
  {
    rows[i].line < |s.orders[order].lines| && s.orders[order].lines[rows[i].line].product.Some?
  }

  /** The first `n` rows together ask LPO line `l` for no more than is undelivered and unheld. */
  ghost predicate HoldableAt(s: State, order: nat, rows: seq<Row>, n: nat, l: nat)
    requires order < |s.orders| && n <= |rows|
  {
    l < |s.orders[order].lines| && 0.0 < WantedTo(rows, n, l) ==> WantedTo(rows, n, l) <= Unheld(s, order, l) as real
  }

  /** What all rows together ask for, of each LPO line and of each level; and none is stored as zero. */
  ghost predicate Reservable(s: State, order: nat, rows: seq<Row>)
    requires order < |s.orders|
  {
    && (forall i | 0 <= i < |rows| :: Named(s, order, rows, i))
    && (forall l: nat :: HoldableAt(s, order, rows, |rows|, l))
    && Covered(s.levels, RowAsks(s, order, rows), |rows|)
    && !TinyTo(rows, |rows|)
  }

  lemma {:induction false} WantedGrows(rows: seq<Row>, i: nat, n: nat, l: nat)
    requires i <= n <= |rows|
    ensures 0.0 <= WantedTo(rows, i, l) <= WantedTo(rows, n, l)
  {
    if i != n {
      WantedGrows(rows, i, n - 1, l);
    } else if i != 0 {
      WantedGrows(rows, i - 1, i - 1, l);
    }
  }

  lemma {:induction false} HoldableTo(s: State, order: nat, rows: seq<Row>, n: nat, l: nat)
    requires ReserveRefusal(s, order, rows) == None && n <= |rows|
    ensures HoldableAt(s, order, rows, n, l)
  {
    if n != 0 {
      RefusalStays(s, order, rows, n - 1, |rows|);
      HoldableTo(s, order, rows, n - 1, l);
    }
  }

  /** The session adds the rows up exactly: it writes them once, or they have two decimals. */
  predicate AddsExactly(s: State, rows: seq<Row>) {
    !s.autoflush || forall r <- rows :: IsWhole(r.quantity)
  }

  /** The level of every one of the first `n` rows has a row. */
  predicate Stored(s: State, order: nat, rows: seq<Row>, n: nat)
    requires order < |s.orders| && n <= |rows|
  {
    forall i | 0 <= i < n :: KeyOf(s, order, rows[i]) in s.levels
  }

  lemma {:induction false} ExactFree(s: State, order: nat, rows: seq<Row>, i: nat)
    requires order < |s.orders| && i < |rows| && AddsExactly(s, rows) && Stored(s, order, rows, i)
    ensures var xs := RowAsks(s, order, rows);
            FreeFor(s, order, rows, i) == Available(s.levels, xs[i].key) as real - AskTo(xs, i, xs[i].key)
  {
    var xs, cuts := RowAsks(s, order, rows), RowReloads(s, order, rows);
    if s.autoflush {
      assert forall j | 0 <= j < |rows| :: rows[j] in rows;
      ColumnWhole(Get(s.levels, xs[i].key).reserved, xs, cuts, i, xs[i].key);
    } else {
      ColumnStraight(Get(s.levels, xs[i].key).reserved, xs, cuts, i, xs[i].key);
    }
  }

  /** A row that goes through finds its level stored: a new one has nothing available. */
  lemma RowStored(s: State, order: nat, rows: seq<Row>, i: nat)
    requires order < |s.orders| && i < |rows| && RowRefusal(s, order, rows, i) == None
    ensures KeyOf(s, order, rows[i]) in s.levels
  {
    ColumnRises(0, RowAsks(s, order, rows), RowReloads(s, order, rows), i, KeyOf(s, order, rows[i]));
  }

  lemma AllRowsStored(s: State, order: nat, rows: seq<Row>)
    requires ReserveRefusal(s, order, rows) == None
    ensures Stored(s, order, rows, |rows|)
  {
    forall i | 0 <= i < |rows|
      ensures KeyOf(s, order, rows[i]) in s.levels
    {
      RefusalStays(s, order, rows, i, |rows|);
      RowStored(s, order, rows, i);
    }
  }

  lemma RowFits(s: State, order: nat, rows: seq<Row>, i: nat)
    requires ReserveRefusal(s, order, rows) == None && i < |rows| && AddsExactly(s, rows)
    ensures Fits(s.levels, RowAsks(s, order, rows), i)
  {
    AllRowsStored(s, order, rows);
    ExactFree(s, order, rows, i);
    RefusalStays(s, order, rows, i, |rows|);
  }

  lemma AllRowsFit(s: State, order: nat, rows: seq<Row>)
    requires ReserveRefusal(s, order, rows) == None && AddsExactly(s, rows)
    ensures Covered(s.levels, RowAsks(s, order, rows), |rows|)
  {
    var xs := RowAsks(s, order, rows);
    forall i | 0 <= i < |rows|
      ensures Fits(s.levels, xs, i)
    {
      RowFits(s, order, rows, i);
    }
    forall k
      ensures CoveredAt(s.levels, xs, |rows|, k)
    {
      LastLineOf(s.levels, xs, |rows|, k);
    }
  }

  lemma ReservableStored(s: State, order: nat, rows: seq<Row>, i: nat)
    requires order < |s.orders| && i < |rows| && Reservable(s, order, rows)
    ensures Fits(s.levels, RowAsks(s, order, rows), i) && KeyOf(s, order, rows[i]) in s.levels
  {
    var xs := RowAsks(s, order, rows);
    CoveredLine(s.levels, xs, |rows|, i);
    AskGrows(xs, 0, i, xs[i].key);
  }

  lemma ReservableRow(s: State, order: nat, rows: seq<Row>, i: nat)
    requires order < |s.orders| && i < |rows| && Reservable(s, order, rows) && AddsExactly(s, rows)
    ensures RowRefusal(s, order, rows, i) == None
  {
    assert Named(s, order, rows, i) && HoldableAt(s, order, rows, |rows|, rows[i].line);
    WantedGrows(rows, i, i, rows[i].line);
    WantedGrows(rows, i + 1, |rows|, rows[i].line);
    forall j | 0 <= j <= i
      ensures KeyOf(s, order, rows[j]) in s.levels
    {
      ReservableStored(s, order, rows, j);
    }
    ReservableStored(s, order, rows, i);
    ExactFree(s, order, rows, i);
  }

  lemma {:induction false} ReservableRows(s: State, order: nat, rows: seq<Row>, n: nat)
    requires order < |s.orders| && n <= |rows| && Reservable(s, order, rows) && AddsExactly(s, rows)
    ensures RefusedTo(s, order, rows, n) == None
  {
    if n != 0 {
      ReservableRow(s, order, rows, n - 1);
      ReservableRows(s, order, rows, n - 1);
    }
  }

  /** Reserving against an LPO that may ship goes through exactly when every row names a catalogue
      line, all rows for an LPO line together fit what is undelivered and unheld of it, all rows for
      a level together fit its available stock, and no row rounds to zero. */
  lemma ReserveNeedsWholeDemand(s: State, order: nat, rows: seq<Row>)
    requires order < |s.orders| && s.orders[order].shippable && AddsExactly(s, rows)
    ensures ReserveRefusal(s, order, rows) == None <==> Reservable(s, order, rows)
  {
    if ReserveRefusal(s, order, rows) == None {
      forall i | 0 <= i < |rows|
        ensures Named(s, order, rows, i)
      {
        RefusalStays(s, order, rows, i, |rows|);
      }
      forall l: nat
        ensures HoldableAt(s, order, rows, |rows|, l)
      {
        HoldableTo(s, order, rows, |rows|, l);
      }
      AllRowsFit(s, order, rows);
    } else if Reservable(s, order, rows) {
      ReservableRows(s, order, rows, |rows|);
    }
  }

  /** A session that flushes by itself does not add decimals up exactly: two rows of 0.005 around a row on
      another level fit 0.01 of available stock together, but the first is rounded up before the last. */
  lemma AutoflushRefuses(s: State, order: nat, line: nat, a: Bin, b: Bin)
    requires order < |s.orders| && s.orders[order].shippable && s.autoflush && a != b
    requires line < |s.orders[order].lines| && s.orders[order].lines[line].product.Some? && 2 <= Unheld(s, order, line)
    requires var p := ProductOf(s.orders[order], line);
             && 0 <= Get(s.levels, Key(p, a)).reserved
             && Available(s.levels, Key(p, a)) == 1 && 1 <= Available(s.levels, Key(p, b))
    ensures var rows := [Row(line, a, 0.5), Row(line, b, 1.0), Row(line, a, 0.5)];
            && Reservable(s, order, rows)
            && FreeFor(s, order, rows, 2) == 0.0 && ReserveRefusal(s, order, rows) == Some(Insufficient)
  {
    var rows := [Row(line, a, 0.5), Row(line, b, 1.0), Row(line, a, 0.5)];
    FloorIs(1.0, 1);
    FloorIs(1.5, 1);
    assert WantedTo(rows, 1, line) == 0.5;
    assert WantedTo(rows, 2, line) == 1.5;
    HalfRows(s, order, rows, line, a, b);
    HalfRowsFree(s, order, rows, line, a, b);
    var verdicts := RowVerdicts(s, order, rows);
    assert verdicts[0] == verdicts[1] == None && verdicts[2] == Some(Insufficient);
    assert FirstTo(verdicts, 1) == None;
    assert FirstTo(verdicts, 2) == None;
  }

  lemma HalfRows(s: State, order: nat, rows: seq<Row>, line: nat, a: Bin, b: Bin)
    requires order < |s.orders| && rows == [Row(line, a, 0.5), Row(line, b, 1.0), Row(line, a, 0.5)] && a != b
    requires line < |s.orders[order].lines| && s.orders[order].lines[line].product.Some? && 2 <= Unheld(s, order, line)
    requires var p := ProductOf(s.orders[order], line);
             1 <= Available(s.levels, Key(p, a)) && 1 <= Available(s.levels, Key(p, b))
    ensures Reservable(s, order, rows)
  {
    var xs := RowAsks(s, order, rows);
    FloorIs(1.0, 1);
    FloorIs(1.5, 1);
    forall k
      ensures CoveredAt(s.levels, xs, 3, k)
    {
      assert AskTo(xs, 1, k) == if k == xs[0].key then 0.5 else 0.0;
      assert AskTo(xs, 2, k) == if k == xs[0].key then 0.5 else if k == xs[1].key then 1.0 else 0.0;
    }
    forall l: nat
      ensures HoldableAt(s, order, rows, 3, l)
    {
      assert WantedTo(rows, 1, l) == if l == line then 0.5 else 0.0;
      assert WantedTo(rows, 2, l) == if l == line then 1.5 else 0.0;
    }
  }

  lemma HalfRowsFree(s: State, order: nat, rows: seq<Row>, line: nat, a: Bin, b: Bin)
    requires order < |s.orders| && rows == [Row(line, a, 0.5), Row(line, b, 1.0), Row(line, a, 0.5)] && a != b
    requires s.autoflush && 0 <= Get(s.levels, Key(ProductOf(s.orders[order], line), a)).reserved
    ensures var p := ProductOf(s.orders[order], line);
            && FreeFor(s, order, rows, 0) == Available(s.levels, Key(p, a)) as real
            && FreeFor(s, order, rows, 1) == Available(s.levels, Key(p, b)) as real
            && FreeFor(s, order, rows, 2) == Available(s.levels, Key(p, a)) as real - 1.0
  {
    var xs, cuts := RowAsks(s, order, rows), RowReloads(s, order, rows);
    var h, g := Get(s.levels, xs[0].key).reserved, Get(s.levels, xs[1].key).reserved;
    NearestWhole(g);
    CentsAbove(h, 0.5);
    FloorIs(1.0, 1);
    assert ColumnTo(h, xs, cuts, 1, xs[0].key) == h as real + 0.5;
    assert ColumnTo(h, xs, cuts, 2, xs[0].key) == (h + 1) as real;
    assert ColumnTo(g, xs, cuts, 1, xs[1].key) == g as real;
  }

  lemma ClaimsConcat(items: seq<ResItem>, made: seq<ResItem>, k: Key)
    ensures Sum(Claims(items + made), One(k)) == Sum(Claims(items), One(k)) + Sum(Claims(made), One(k))
  {
    assert Claims(items + made) == Claims(items) + Claims(made);
    SumConcat(Claims(items), Claims(made), One(k));
  }

  lemma ItemsConcat(heads: seq<Head>, h: Head, items: seq<ResItem>, made: seq<ResItem>)
    requires ItemsOk(heads, items) && ItemsOk(heads + [h], made)
    ensures ItemsOk(heads + [h], items + made)
  {
    forall i | 0 <= i < |items + made|
      ensures ItemOk(heads + [h], (items + made)[i])
    {
      if i < |items| {
        assert ItemOk(heads, items[i]);
      } else {
        assert ItemOk(heads + [h], made[i - |items|]);
      }
    }
  }

  lemma NewItemsOk(s: State, order: nat, rows: seq<Row>, now: int)
    requires ReserveRefusal(s, order, rows) == None
    ensures ItemsOk(s.heads + [Head(order, ACTIVE, now + TTL)], NewItems(s, order, rows))
  {
    forall i | 0 <= i < |rows|
      ensures 0 < Nearest(rows[i].quantity)
    {
      assert Nearest(rows[i].quantity) != 0;
    }
  }

  lemma ReserveKeeps(s: State, order: nat, rows: seq<Row>, now: int, s': State)
    requires Inv(s) && Reserves(s, order, rows, now, s')
    ensures Inv(s')
  {
    forall k
      ensures NonNegativeLevel(Get(s'.levels, k))
    {
      assert NonNegativeLevel(Get(s.levels, k));
      ColumnRises(Get(s.levels, k).reserved, RowAsks(s, order, rows), RowReloads(s, order, rows), |rows|, k);
    }
    NewItemsOk(s, order, rows, now);
    ItemsConcat(s.heads, Head(order, ACTIVE, now + TTL), s.items, NewItems(s, order, rows));
  }

  lemma ReserveGap(s: State, order: nat, rows: seq<Row>, now: int, s': State, k: Key)
    requires Reserves(s, order, rows, now, s')
    ensures HeldGap(s'.levels, s'.items, k) == HeldGap(s.levels, s.items, k)
              + Slip(Get(s.levels, k).reserved, RowAsks(s, order, rows), RowReloads(s, order, rows), k)
  {
    ClaimsConcat(s.items, NewItems(s, order, rows), k);
    assert Claims(NewItems(s, order, rows)) == Written(RowAsks(s, order, rows));
  }

  /** A reservation moves `reserved` of a level away from its open claims by the difference between what
      its rows would leave on a level where nothing is reserved and the sum of the rounded rows, so it
      keeps them together exactly when the two agree; the former is the rounded sum of the rows unless the
      session flushes by itself. */
  lemma ReserveSlips(s: State, order: nat, rows: seq<Row>, now: int, s': State, k: Key)
    requires Inv(s) && Reserves(s, order, rows, now, s')
    ensures var xs, cuts := RowAsks(s, order, rows), RowReloads(s, order, rows);
            && HeldGap(s'.levels, s'.items, k)
               == HeldGap(s.levels, s.items, k) + Column(0, xs, cuts, k) - Sum(Written(xs), One(k))
            && (HeldGap(s'.levels, s'.items, k) == HeldGap(s.levels, s.items, k)
                <==> Column(0, xs, cuts, k) == Sum(Written(xs), One(k)))
            && (!s.autoflush ==> Column(0, xs, cuts, k) == Nearest(Asked(xs, k)))
  {
    assert NonNegativeLevel(Get(s.levels, k));
    ReserveGap(s, order, rows, now, s', k);
    SlipRising(Get(s.levels, k).reserved, RowAsks(s, order, rows), RowReloads(s, order, rows), k);
    AllRowsStored(s, order, rows);
  }

  /** Two rows of 0.006 on one level: `reserved` takes 0.012 as 0.01, the lines hold 0.01 each; cancelling
      them then stops at the floor of zero. */
  lemma TwoSmallRowsSlip(s: State, order: nat, line: nat, bin: Bin, h: nat)
    requires order < |s.orders| && !s.autoflush
    requires Key(ProductOf(s.orders[order], line), bin) in s.levels
    ensures var rows := [Row(line, bin, 0.6), Row(line, bin, 0.6)];
            var k := KeyOf(s, order, rows[0]);
            && Slip(h, RowAsks(s, order, rows), RowReloads(s, order, rows), k) == -1
            && Sum(Claims(NewItems(s, order, rows)), One(k)) == 2
            && Max(0, 1 - Sum(Claims(NewItems(s, order, rows)), One(k))) == 0
  {
    var rows := [Row(line, bin, 0.6), Row(line, bin, 0.6)];
    var k := KeyOf(s, order, rows[0]);
    assert RowAsks(s, order, rows) == [Ask(k, 0.6), Ask(k, 0.6)];
    assert RowReloads(s, order, rows) == [Never, Never];
    SixAndSix(h, k);
    FloorIs(1.1, 1);
    var claims := Claims(NewItems(s, order, rows));
    assert SumTo(claims, 1, One(k)) == 1;
  }

  // ---- releasing: cancellation and expiry ----

  function ReleaseItem(it: ResItem, due: set<nat>, status: ResStatus): ResItem {
    if it.head in due && it.status == ACTIVE then it.(status := status) else it
  }

  function ReleaseItems(items: seq<ResItem>, due: set<nat>, status: ResStatus): (r: seq<ResItem>)
    ensures |r| == |items|
  {
    seq(|items|, i requires 0 <= i < |items| => ReleaseItem(items[i], due, status))
  }

  function ReleaseHeads(heads: seq<Head>, due: set<nat>, status: ResStatus): (r: seq<Head>)
    ensures |r| == |heads|
  {
    seq(|heads|, h requires 0 <= h < |heads| => if h in due then heads[h].(status := status) else heads[h])
  }

  /** What the released lines give back. */
  function Freed(items: seq<ResItem>, due: set<nat>): (es: seq<Entry>)
    ensures |es| == |items|
  {
    seq(|items|, i requires 0 <= i < |items| =>
      if items[i].head in due then Claim(items[i]) else Entry(items[i].key, 0))
  }

  ghost function CancelRefusal(s: State, h: nat): Option<Error> {
    if h >= |s.heads| then Some(NotFound)
    else if s.heads[h].status != ACTIVE then Some(InvalidState)
    else None
  }

  function DueTo(heads: seq<Head>, cutoff: int, n: nat): set<nat>
    requires n <= |heads|
  {
    set h: nat | h < n && heads[h].status == ACTIVE && heads[h].expiresAt <= cutoff
  }

  /** Reservations that expire at `cutoff`. */
  function Due(heads: seq<Head>, cutoff: int): set<nat> {
    DueTo(heads, cutoff, |heads|)
  }

  /** `reserved` never goes below zero, whatever the lines think they hold. */
  ghost predicate Releases(s: State, due: set<nat>, status: ResStatus, s': State) {
    && s' == s.(levels := s'.levels,
                heads := ReleaseHeads(s.heads, due, status),
                items := ReleaseItems(s.items, due, status))
    && Lowered(s.levels, s'.levels, Freed(s.items, due), |s.items|)
  }

  /** The level rows after the first `n` entries gave back what they hold, each down to zero at most. */
  ghost predicate Lowered(levels: Table, levels': Table, es: seq<Entry>, n: nat)
    requires n <= |es|
  {
    forall k :: Get(levels', k) == Get(levels, k).(reserved := Max(0, Get(levels, k).reserved - SumTo(es, n, One(k))))
  }

  ghost predicate Cancels(s: State, h: nat, s': State) {
    CancelRefusal(s, h) == None && Releases(s, {h}, CANCELLED, s')
  }

  ghost function ExpireRefusal(manager: bool): Option<Error> {
    if manager then None else Some(Forbidden)
  }

  ghost predicate Expires(s: State, manager: bool, cutoff: int, s': State) {
    ExpireRefusal(manager) == None && Releases(s, Due(s.heads, cutoff), EXPIRED, s')
  }

  lemma ReleasedClaims(heads: seq<Head>, items: seq<ResItem>, due: set<nat>, status: ResStatus, k: Key)
    requires ItemsOk(heads, items) && status in {CANCELLED, EXPIRED}
    ensures 0 <= Sum(Claims(ReleaseItems(items, due, status)), One(k))
              == Sum(Claims(items), One(k)) - Sum(Freed(items, due), One(k))
  {
    var left := Claims(ReleaseItems(items, due, status));
    assert forall i | 0 <= i < |items| :: ItemOk(heads, items[i]);
    SumSplit(Claims(items), left, Freed(items, due), |items|, One(k));
    SumBound(left, 0, |items|, One(k));
  }

  lemma ReleaseKeeps(s: State, due: set<nat>, status: ResStatus, s': State)
    requires Inv(s) && Releases(s, due, status, s')
    requires status in {CANCELLED, EXPIRED}
    ensures Inv(s')
  {
    forall k
      ensures NonNegativeLevel(Get(s'.levels, k))
    {
      assert NonNegativeLevel(Get(s.levels, k));
    }
    forall i | 0 <= i < |s'.items|
      ensures ItemOk(s'.heads, s'.items[i])
    {
      assert ItemOk(s.heads, s.items[i]);
    }
  }

  /** Releasing leaves the gap of a level as it was, unless the floor bites: exactly when `reserved` lacks
      more than the lines that stay open claim, and then it lacks all they claim. */
  lemma ReleaseGap(s: State, due: set<nat>, status: ResStatus, s': State, k: Key)
    requires Inv(s) && Releases(s, due, status, s')
    requires status in {CANCELLED, EXPIRED}
    ensures HeldGap(s'.levels, s'.items, k) == Max(HeldGap(s.levels, s.items, k), -Sum(Claims(s'.items), One(k)))
    ensures Get(s'.levels, k).reserved != Get(s.levels, k).reserved - Sum(Freed(s.items, due), One(k))
       <==> HeldGap(s.levels, s.items, k) < -Sum(Claims(s'.items), One(k))
  {
    ReleasedClaims(s.heads, s.items, due, status, k);
  }

  // ---- the loops over reservation rows and lines ----

  /** The running `reserved_map`: what the rows so far add to each LPO line. */
  ghost predicate Added(rows: seq<Row>, n: nat, added: map<nat, real>)
    requires n <= |rows|
  {
    forall l :: WantedTo(rows, n, l) == if l in added then added[l] else 0.0
  }

  lemma AddOne(rows: seq<Row>, i: nat, added: map<nat, real>)
    requires i < |rows| && Added(rows, i, added)
    ensures var l := rows[i].line;
            Added(rows, i + 1, added[l := (if l in added then added[l] else 0.0) + rows[i].quantity])
  {
  }

  /** The loaded rows after the first `n` lines were added to `reserved`, and the level rows that exist. */
  ghost predicate Claimed(levels: Table, session: Session, known: set<Key>, xs: seq<Ask>, cuts: seq<Reload>, n: nat)
    requires n <= |xs| == |cuts|
  {
    && RowsBy(levels, known, xs, n)
    && forall k :: Peek(levels, session, k) == Peek(levels, map[], k).(
                     reserved := ColumnTo(Get(levels, k).reserved, xs, cuts, n, k))
  }

  lemma {:induction false} ClaimReopened(levels: Table, session: Session, known: set<Key>, xs: seq<Ask>, cuts: seq<Reload>, n: nat, k: Key)
    requires n < |xs| == |cuts| && Claimed(levels, session, known, xs, cuts, n)
    ensures Peek(levels, Reopened(session, cuts[n], xs[n].key), k) == Peek(levels, map[], k).(
              reserved := Reread(cuts[n], xs[n].key == k, ColumnTo(Get(levels, k).reserved, xs, cuts, n, k)))
  {
    ReopenedPeek(levels, session, cuts[n], xs[n].key, k);
    NearestWhole(Get(levels, k).onHand);
    NearestWhole(Get(levels, k).damaged);
    NearestWhole(Get(levels, k).inTransit);
  }

  lemma {:induction false} ClaimNext(levels: Table, session: Session, known: set<Key>, xs: seq<Ask>, cuts: seq<Reload>, n: nat)
    requires n < |xs| == |cuts| && Claimed(levels, session, known, xs, cuts, n) && cuts[n] != Everything
    ensures var k := xs[n].key;
            var session1 := Reopened(session, cuts[n], k);
            var l := Peek(levels, session1, k);
            && Free(levels, session1, k)
               == (Get(levels, k).onHand - Get(levels, k).damaged) as real - ColumnTo(Get(levels, k).reserved, xs, cuts, n, k)
            && Claimed(levels, session1[k := l.(reserved := l.reserved + xs[n].amount)], known + {k}, xs, cuts, n + 1)
  {
    RowsNext(levels, known, xs, n);
    forall k
      ensures Peek(levels, Reopened(session, cuts[n], xs[n].key), k) == Peek(levels, map[], k).(
                reserved := Reread(cuts[n], xs[n].key == k, ColumnTo(Get(levels, k).reserved, xs, cuts, n, k)))
    {
      ClaimReopened(levels, session, known, xs, cuts, n, k);
    }
  }

  /** The checks on one row, in the service's order, `free` being what is available on its level. */
  method CheckRow(s: State, order: nat, rows: seq<Row>, i: nat, added: map<nat, real>, tiny: bool, free: real)
    returns (r: Option<Error>)
    requires order < |s.orders| && i < |rows| && free == FreeFor(s, order, rows, i)
    requires Added(rows, i, added) && tiny == TinyTo(rows, i)
    ensures r == RowRefusal(s, order, rows, i)
  {
    var row, lines := rows[i], s.orders[order].lines;
    if row.line >= |lines| { return Some(NotFound); }
    if lines[row.line].product.None? { return Some(AdHocLine); }
    var undelivered := lines[row.line].quantity - lines[row.line].delivered;
    var before := if row.line in added then added[row.line] else 0.0;
    var already := HeldTo(s.items, |s.items|, order, row.line) as real + before;
    if row.quantity + already > undelivered as real { return Some(ExceedsUndelivered); }
    if (s.autoflush || Key(lines[row.line].product.value, row.bin) !in s.levels) && tiny { return Some(CheckViolation); }
    if free < row.quantity { return Some(Insufficient); }
    return None;
  }

  lemma MadeOne(s: State, order: nat, rows: seq<Row>, i: nat)
    requires order < |s.orders| && i < |rows|
    ensures NewItems(s, order, rows)[..i] + [NewItem(s, order, rows[i])] == NewItems(s, order, rows)[..i + 1]
  {
  }

  /** What the loop holds after the first `i` rows passed. */
  ghost predicate Reserving(s: State, order: nat, rows: seq<Row>, i: nat, made: seq<ResItem>, session: Session,
                            known: set<Key>, added: map<nat, real>, tiny: bool)
    requires order < |s.orders| && i <= |rows|
  {
    && made == NewItems(s, order, rows)[..i]
    && Added(rows, i, added) && tiny == TinyTo(rows, i)
    && Claimed(s.levels, session, known, RowAsks(s, order, rows), RowReloads(s, order, rows), i)
  }

  lemma RowReopens(s: State, order: nat, rows: seq<Row>, i: nat, known: set<Key>)
    requires order < |s.orders| && i < |rows| && RowsBy(s.levels, known, RowAsks(s, order, rows), i)
    ensures RowReloads(s, order, rows)[i] == if s.autoflush || KeyOf(s, order, rows[i]) !in known then Others else Never
  {
    RowsNext(s.levels, known, RowAsks(s, order, rows), i);
  }

  lemma TinyNext(rows: seq<Row>, i: nat)
    requires i < |rows|
    ensures TinyTo(rows, i + 1) == (TinyTo(rows, i) || Nearest(rows[i].quantity) == 0)
  {
  }

  lemma ReservingNext(s: State, order: nat, rows: seq<Row>, i: nat, made: seq<ResItem>, session: Session,
                      known: set<Key>, added: map<nat, real>, tiny: bool)
    requires order < |s.orders| && i < |rows| && Reserving(s, order, rows, i, made, session, known, added, tiny)
    ensures var r, k := rows[i], KeyOf(s, order, rows[i]);
            var session1 := Reopened(session, RowReloads(s, order, rows)[i], k);
            var l := Peek(s.levels, session1, k);
            && Free(s.levels, session1, k) == FreeFor(s, order, rows, i)
            && Reserving(s, order, rows, i + 1, made + [NewItem(s, order, r)],
                         session1[k := l.(reserved := l.reserved + r.quantity)], known + {k},
                         added[r.line := (if r.line in added then added[r.line] else 0.0) + r.quantity],
                         tiny || Nearest(r.quantity) == 0)
  {
    ClaimNext(s.levels, session, known, RowAsks(s, order, rows), RowReloads(s, order, rows), i);
    AddOne(rows, i, added);
    MadeOne(s, order, rows, i);
    TinyNext(rows, i);
  }

  /** Loads the level of one row, adds the row to it, and says what was free there before. */
  method LetIn(s: State, order: nat, rows: seq<Row>, i: nat, made: seq<ResItem>, session: Session, known: set<Key>,
               added: map<nat, real>, tiny: bool)
    returns (free: real, made': seq<ResItem>, session': Session, known': set<Key>, added': map<nat, real>, tiny': bool)
    requires order < |s.orders| && i < |rows| && Reserving(s, order, rows, i, made, session, known, added, tiny)
    ensures free == FreeFor(s, order, rows, i)
    ensures Reserving(s, order, rows, i + 1, made', session', known', added', tiny')
  {
    var row, item := rows[i], NewItem(s, order, rows[i]);
    ReservingNext(s, order, rows, i, made, session, known, added, tiny);
    RowReopens(s, order, rows, i, known);
    session' := Reopened(session, if s.autoflush || item.key !in known then Others else Never, item.key);
    free := Free(s.levels, session', item.key);
    var level := Peek(s.levels, session', item.key);
    session' := session'[item.key := level.(reserved := level.reserved + row.quantity)];
    made', known', tiny' := made + [item], known + {item.key}, tiny || item.quantity == 0;
    added' := added[row.line := (if row.line in added then added[row.line] else 0.0) + row.quantity];
  }

  /** Checks one row and lets it in. */
  method ReserveRow(s: State, order: nat, rows: seq<Row>, i: nat, made: seq<ResItem>, session: Session, known: set<Key>,
                    added: map<nat, real>, tiny: bool)
    returns (r: Option<Error>, made': seq<ResItem>, session': Session, known': set<Key>, added': map<nat, real>, tiny': bool)
    requires order < |s.orders| && i < |rows| && Reserving(s, order, rows, i, made, session, known, added, tiny)
    ensures r == RowRefusal(s, order, rows, i)
    ensures Reserving(s, order, rows, i + 1, made', session', known', added', tiny')
  {
    var free;
    free, made', session', known', added', tiny' := LetIn(s, order, rows, i, made, session, known, added, tiny);
    r := CheckRow(s, order, rows, i, added, tiny, free);
  }

  lemma ClaimedHolds(levels: Table, session: Session, known: set<Key>, xs: seq<Ask>, cuts: seq<Reload>)
    requires |xs| == |cuts| && Claimed(levels, session, known, xs, cuts, |xs|)
    ensures Holds(levels, Flush(levels, session), xs, cuts)
  {
    forall k
      ensures Get(Flush(levels, session), k)
           == Get(levels, k).(reserved := Column(Get(levels, k).reserved, xs, cuts, k))
    {
      FlushGet(levels, session, k);
      NearestWhole(Get(levels, k).onHand);
      NearestWhole(Get(levels, k).damaged);
      NearestWhole(Get(levels, k).inTransit);
    }
  }

  lemma ReserveNothing(s: State, order: nat, rows: seq<Row>)
    requires order < |s.orders|
    ensures Reserving(s, order, rows, 0, [], map[], s.levels.Keys, map[], false)
  {
  }

  /** The loop over the rows, and the flush after it. */
  method ReserveRows(s: State, order: nat, rows: seq<Row>)
    returns (r: Option<Error>, levels': Table, made: seq<ResItem>)
    requires order < |s.orders| && s.orders[order].shippable
    ensures r == ReserveRefusal(s, order, rows)
    ensures r.None? ==> made == NewItems(s, order, rows)
    ensures r.None? ==> Holds(s.levels, levels', RowAsks(s, order, rows), RowReloads(s, order, rows))
  {
    var session: Session, known, added: map<nat, real>, tiny := map[], s.levels.Keys, map[], false;
    r, levels', made := None, s.levels, [];
    ReserveNothing(s, order, rows);
    for i := 0 to |rows|
      invariant r == RefusedTo(s, order, rows, i) == None
      invariant Reserving(s, order, rows, i, made, session, known, added, tiny)
    {
      r, made, session, known, added, tiny := ReserveRow(s, order, rows, i, made, session, known, added, tiny);
      if r.Some? {
        RefusalStays(s, order, rows, i + 1, |rows|);
        return;
      }
    }
    if tiny { return Some(CheckViolation), levels', made; }
    levels' := Flush(s.levels, session);
    ClaimedHolds(s.levels, session, known, RowAsks(s, order, rows), RowReloads(s, order, rows));
  }

  lemma LowerOne(levels: Table, session: Table, es: seq<Entry>, n: nat)
    requires n < |es| && Lowered(levels, session, es, n) && 0 <= es[n].amount
    ensures var k := es[n].key;
            var reserved := Max(0, Get(session, k).reserved - es[n].amount);
            Lowered(levels, session[k := Get(session, k).(reserved := reserved)], es, n + 1)
  {
  }

  lemma LowerNone(levels: Table, session: Table, es: seq<Entry>, n: nat)
    requires n < |es| && Lowered(levels, session, es, n) && es[n].amount == 0
    ensures Lowered(levels, session, es, n + 1)
  {
  }

  ghost predicate HeldOk(levels: Table) {
    forall k :: 0 <= Get(levels, k).reserved
  }

  lemma HeldIsOk(levels: Table)
    requires NonNegativeLevels(levels)
    ensures HeldOk(levels)
  {
    forall k
      ensures 0 <= Get(levels, k).reserved
    {
      assert NonNegativeLevel(Get(levels, k));
    }
  }

  lemma LowerStart(levels: Table, es: seq<Entry>)
    requires HeldOk(levels)
    ensures Lowered(levels, levels, es, 0)
  {
  }

  lemma LoweredOk(levels: Table, session: Table, es: seq<Entry>, n: nat)
    requires n <= |es| && Lowered(levels, session, es, n)
    ensures HeldOk(session)
  {
  }

  /** What the loop holds after the first `i` lines. */
  ghost predicate Releasing(levels: Table, items: seq<ResItem>, h: nat, status: ResStatus, i: nat, session: Table,
                            done: seq<ResItem>)
    requires i <= |items|
  {
    done == ReleaseItems(items, {h}, status)[..i] && Lowered(levels, session, Freed(items, {h}), i)
  }

  lemma ReleasedOne(items: seq<ResItem>, due: set<nat>, status: ResStatus, i: nat)
    requires i < |items|
    ensures var after := ReleaseItems(items, due, status);
            after[..i] + [ReleaseItem(items[i], due, status)] == after[..i + 1]
  {
  }

  /** One line gives back what it still holds, down to the floor at zero. */
  method ReleaseLine(ghost levels: Table, ghost heads: seq<Head>, ghost items: seq<ResItem>, ghost i: nat,
                     it: ResItem, h: nat, status: ResStatus, session: Table, done: seq<ResItem>)
    returns (session': Table, done': seq<ResItem>)
    requires ItemsOk(heads, items) && i < |items| && it == items[i]
    requires Releasing(levels, items, h, status, i, session, done)
    ensures Releasing(levels, items, h, status, i + 1, session', done')
  {
    assert ItemOk(heads, it);
    session' := session;
    var it' := it;
    if it.head == h && it.status == ACTIVE {
      LowerOne(levels, session, Freed(items, {h}), i);
      var remaining := Remaining(it);
      if remaining > 0 {
        var level := Get(session, it.key);
        session' := session[it.key := level.(reserved := Max(0, level.reserved - remaining))];
      }
      it' := it.(status := status);
    } else {
      LowerNone(levels, session, Freed(items, {h}), i);
    }
    ReleasedOne(items, {h}, status, i);
    done' := done + [it'];
  }

  /** Releases the open lines of reservation `h`. */
  method ReleaseLines(levels: Table, ghost heads: seq<Head>, items: seq<ResItem>, h: nat, status: ResStatus)
    returns (session: Table, items': seq<ResItem>)
    requires ItemsOk(heads, items) && HeldOk(levels)
    ensures items' == ReleaseItems(items, {h}, status)
    ensures Lowered(levels, session, Freed(items, {h}), |items|)
  {
    session, items' := levels, [];
    LowerStart(levels, Freed(items, {h}));
    for i := 0 to |items|
      invariant Releasing(levels, items, h, status, i, session, items')
    {
      session, items' := ReleaseLine(levels, heads, items, i, items[i], h, status, session, items');
    }
  }

  lemma ReleaseMore(heads: seq<Head>, items: seq<ResItem>, due: set<nat>, h: nat, status: ResStatus, k: Key)
    requires ItemsOk(heads, items) && status != ACTIVE && h !in due
    ensures ReleaseItems(ReleaseItems(items, due, status), {h}, status) == ReleaseItems(items, due + {h}, status)
    ensures var more := Freed(ReleaseItems(items, due, status), {h});
            Sum(Freed(items, due + {h}), One(k)) == Sum(Freed(items, due), One(k)) + Sum(more, One(k)) && 0 <= Sum(more, One(k))
  {
    var more := Freed(ReleaseItems(items, due, status), {h});
    SumSplit(Freed(items, due + {h}), Freed(items, due), more, |items|, One(k));
    forall i | 0 <= i < |more|
      ensures 0 <= more[i].amount
    {
      assert ItemOk(heads, items[i]);
    }
    SumBound(more, 0, |more|, One(k));
  }

  /** The expiry loop before reservation `n`: those due so far are released. */
  ghost predicate ExpiredTo(levels: Table, heads: seq<Head>, items: seq<ResItem>, due: set<nat>,
                            session: Table, heads': seq<Head>, items': seq<ResItem>) {
    && heads' == ReleaseHeads(heads, due, EXPIRED)
    && items' == ReleaseItems(items, due, EXPIRED)
    && Lowered(levels, session, Freed(items, due), |items|)
  }

  lemma ExpireOne(levels: Table, heads: seq<Head>, items: seq<ResItem>, due: set<nat>, h: nat,
                  session: Table, session': Table)
    requires ItemsOk(heads, items) && h < |heads| && h !in due
    requires Lowered(levels, session, Freed(items, due), |items|)
    requires Lowered(session, session', Freed(ReleaseItems(items, due, EXPIRED), {h}), |items|)
    ensures ExpiredTo(levels, heads, items, due + {h}, session',
                      ReleaseHeads(heads, due, EXPIRED)[h := heads[h].(status := EXPIRED)],
                      ReleaseItems(ReleaseItems(items, due, EXPIRED), {h}, EXPIRED))
  {
    forall k
      ensures Get(session', k) == Get(levels, k).(
                reserved := Max(0, Get(levels, k).reserved - Sum(Freed(items, due + {h}), One(k))))
    {
      ReleaseMore(heads, items, due, h, EXPIRED, k);
    }
    ReleaseMore(heads, items, due, h, EXPIRED, Key(0, Bin(0, 0)));
  }

  lemma ExpireNone(levels: Table, heads: seq<Head>, items: seq<ResItem>)
    requires HeldOk(levels)
    ensures ExpiredTo(levels, heads, items, {}, levels, heads, items)
  {
    LowerStart(levels, Freed(items, {}));
    FreedNothing(items, |items|);
  }

  /** Releases one more due reservation. */
  method ExpireHead(ghost levels: Table, ghost heads: seq<Head>, ghost items: seq<ResItem>, ghost due: set<nat>,
                    h: nat, session: Table, heads': seq<Head>, items': seq<ResItem>)
    returns (session1: Table, heads1: seq<Head>, items1: seq<ResItem>)
    requires ItemsOk(heads, items) && HeldOk(levels) && h < |heads| && h !in due
    requires ExpiredTo(levels, heads, items, due, session, heads', items')
    ensures ExpiredTo(levels, heads, items, due + {h}, session1, heads1, items1)
  {
    LoweredOk(levels, session, Freed(items, due), |items|);
    assert forall i | 0 <= i < |items| :: ItemOk(heads, items[i]);
    session1, items1 := ReleaseLines(session, heads, items', h, EXPIRED);
    heads1 := heads'[h := heads'[h].(status := EXPIRED)];
    ExpireOne(levels, heads, items, due, h, session, session1);
  }

  lemma DueNext(heads: seq<Head>, cutoff: int, h: nat)
    requires h < |heads|
    ensures h !in DueTo(heads, cutoff, h)
    ensures DueTo(heads, cutoff, h + 1) == DueTo(heads, cutoff, h)
              + if heads[h].status == ACTIVE && heads[h].expiresAt <= cutoff then {h} else {}
  {
  }

  method ExpireHeads(levels: Table, heads: seq<Head>, items: seq<ResItem>, cutoff: int)
    returns (session: Table, heads': seq<Head>, items': seq<ResItem>, expired: nat)
    requires ItemsOk(heads, items) && HeldOk(levels)
    ensures ExpiredTo(levels, heads, items, Due(heads, cutoff), session, heads', items')
    ensures expired == |Due(heads, cutoff)|
  {
    session, heads', items', expired := levels, heads, items, 0;
    ExpireNone(levels, heads, items);
    ghost var due: set<nat> := {};
    for h := 0 to |heads|
      invariant due == DueTo(heads, cutoff, h) && expired == |due|
      invariant ExpiredTo(levels, heads, items, due, session, heads', items')
    {
      DueNext(heads, cutoff, h);
      if heads[h].status == ACTIVE && heads[h].expiresAt <= cutoff {
        session, heads', items' := ExpireHead(levels, heads, items, due, h, session, heads', items');
        expired, due := expired + 1, due + {h};
      }
    }
  }

  lemma {:induction false} FreedNothing(items: seq<ResItem>, n: nat)
    requires n <= |items|
    ensures forall k :: SumTo(Freed(items, {}), n, One(k)) == 0
  {
    if n != 0 {
      FreedNothing(items, n - 1);
    }
  }
}
