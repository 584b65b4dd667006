/** What reservations hold, line by line of an LPO: how much a request adds, who is drawn on when a note
    ships, and what stays for others.  Quantities are summed here over the columns themselves. */
module HoldLaws {
  import opened Levels
  import opened Tables
  import opened StockInvariant
  import opened Rounding
  import opened Demands
  import opened Reservations
  import opened Consumption
  import opened Deliveries

  /** Open quantity of the ACTIVE reservation lines of LPO line `l`. */
  function HeldOnTo(items: seq<ResItem>, n: nat, o: nat, l: nat): int
    requires n <= |items|
  {
    if n == 0 then 0
    else
      var it := items[n - 1];
      HeldOnTo(items, n - 1, o, l)
      + if it.status == ACTIVE && it.order == o && it.line == l then it.quantity - it.consumed else 0
  }

  function HeldOn(items: seq<ResItem>, o: nat, l: nat): int {
    HeldOnTo(items, |items|, o, l)
  }

  /** The same for one product only. */
  function HeldForTo(items: seq<ResItem>, n: nat, o: nat, l: nat, p: nat): int
    requires n <= |items|
  {
    if n == 0 then 0
    else
      var it := items[n - 1];
      HeldForTo(items, n - 1, o, l, p)
      + if it.status == ACTIVE && it.order == o && it.line == l && it.key.product == p then it.quantity - it.consumed else 0
  }

  function HeldFor(items: seq<ResItem>, o: nat, l: nat, p: nat): int {
    HeldForTo(items, |items|, o, l, p)
  }

  /** What some reservations hold of an LPO line. */
  function HeldByTo(items: seq<ResItem>, n: nat, heads: set<nat>, o: nat, l: nat): int
    requires n <= |items|
  {
    if n == 0 then 0
    else
      var it := items[n - 1];
      HeldByTo(items, n - 1, heads, o, l)
      + if it.status == ACTIVE && it.head in heads && it.order == o && it.line == l then it.quantity - it.consumed else 0
  }

  function HeldBy(items: seq<ResItem>, heads: set<nat>, o: nat, l: nat): int {
    HeldByTo(items, |items|, heads, o, l)
  }

  // ---- reserving ----

  /** The rows for an LPO line as they are stored, and how many they are. */
  function RoundedTo(rows: seq<Row>, n: nat, l: nat): int
    requires n <= |rows|
  {
    if n == 0 then 0 else RoundedTo(rows, n - 1, l) + if rows[n - 1].line == l then Nearest(rows[n - 1].quantity) else 0
  }

  function RowsOn(rows: seq<Row>, n: nat, l: nat): nat
    requires n <= |rows|
  {
    if n == 0 then 0 else RowsOn(rows, n - 1, l) + if rows[n - 1].line == l then 1 else 0
  }

  lemma {:induction false} HeldIsHeldOn(items: seq<ResItem>, n: nat, o: nat, l: nat)
    requires n <= |items|
    ensures HeldTo(items, n, o, l) == HeldOnTo(items, n, o, l)
  {
    if n != 0 {
      HeldIsHeldOn(items, n - 1, o, l);
    }
  }

  lemma {:induction false} HeldSame(a: seq<ResItem>, b: seq<ResItem>, n: nat, o: nat, l: nat)
    requires n <= |a| && n <= |b| && forall i | 0 <= i < n :: a[i] == b[i]
    ensures HeldOnTo(a, n, o, l) == HeldOnTo(b, n, o, l)
  {
    if n != 0 {
      HeldSame(a, b, n - 1, o, l);
    }
  }

  lemma {:induction false} NewHeld(s: State, order: nat, rows: seq<Row>, n: nat, o: nat, l: nat)
    requires order < |s.orders| && n <= |rows|
    ensures var all := s.items + NewItems(s, order, rows);
            HeldOnTo(all, |s.items| + n, o, l) == HeldOn(s.items, o, l) + if o == order then RoundedTo(rows, n, l) else 0
  {
    var all := s.items + NewItems(s, order, rows);
    if n == 0 {
      HeldSame(all, s.items, |s.items|, o, l);
    } else {
      NewHeld(s, order, rows, n - 1, o, l);
      assert all[|s.items| + n - 1] == NewItem(s, order, rows[n - 1]);
    }
  }

  /** A reservation adds to what each line of its LPO has reserved the rounded rows for the line, and to no
      line of another LPO. */
  lemma {:induction false} ReserveHolds(s: State, order: nat, rows: seq<Row>, now: int, s': State, o: nat, l: nat)
    requires Reserves(s, order, rows, now, s')
    ensures HeldOn(s'.items, o, l) == HeldOn(s.items, o, l) + if o == order then RoundedTo(rows, |rows|, l) else 0
  {
    AllHeld(s, order, rows, o, l);
  }

  lemma {:induction false} AllHeld(s: State, order: nat, rows: seq<Row>, o: nat, l: nat)
    requires order < |s.orders|
    ensures HeldOn(s.items + NewItems(s, order, rows), o, l)
         == HeldOn(s.items, o, l) + if o == order then RoundedTo(rows, |rows|, l) else 0
  {
    var all := s.items + NewItems(s, order, rows);
    NewHeld(s, order, rows, |rows|, o, l);
    assert |all| == |s.items| + |rows|;
    assert HeldOn(all, o, l) == HeldOnTo(all, |s.items| + |rows|, o, l);
  }

  /** The rows it writes: one ACTIVE line for each row, at the bin of the row and for the product of the LPO
      line, under a new reservation that lasts 604800 seconds. */
  lemma ReserveWrites(s: State, order: nat, rows: seq<Row>, now: int, s': State, i: nat)
    requires Reserves(s, order, rows, now, s') && i < |rows|
    ensures |s'.items| == |s.items| + |rows| && s.items <= s'.items
    ensures s'.heads == s.heads + [Head(order, ACTIVE, now + 604_800)]
    ensures var it, line := s'.items[|s.items| + i], rows[i].line;
            && line < |s.orders[order].lines| && s.orders[order].lines[line].product.Some?
            && it.head == |s.heads| && it.order == order && it.line == line
            && it.key == Key(s.orders[order].lines[line].product.value, rows[i].bin)
            && it.quantity as real - 0.5 <= rows[i].quantity < it.quantity as real + 0.5
            && it.consumed == 0 && it.status == ACTIVE
  {
    RefusalStays(s, order, rows, i, |rows|);
  }

  lemma NearestNear(x: real)
    requires 0.0 <= x
    ensures Nearest(x) as real - 0.5 <= x < Nearest(x) as real + 0.5
    ensures IsWhole(x) ==> Nearest(x) as real == x
    ensures Nearest(x) == 0 <==> x < 0.5
  {
    CentsOf(x);
  }

  lemma {:induction false} RoundedNear(rows: seq<Row>, n: nat, l: nat)
    requires n <= |rows|
    ensures RoundedTo(rows, n, l) as real <= WantedTo(rows, n, l) + RowsOn(rows, n, l) as real / 2.0
  {
    if n != 0 {
      RoundedNear(rows, n - 1, l);
      NearestNear(rows[n - 1].quantity);
    }
  }

  lemma {:induction false} RoundedWhole(rows: seq<Row>, n: nat, l: nat)
    requires n <= |rows| && forall i | 0 <= i < n && rows[i].line == l :: IsWhole(rows[i].quantity)
    ensures RoundedTo(rows, n, l) as real == WantedTo(rows, n, l)
  {
    if n != 0 {
      RoundedWhole(rows, n - 1, l);
      NearestNear(rows[n - 1].quantity);
    }
  }

  lemma {:induction false} RowsWant(rows: seq<Row>, n: nat, l: nat)
    requires n <= |rows|
    ensures 0.0 <= WantedTo(rows, n, l) && (0 < RowsOn(rows, n, l) <==> 0.0 < WantedTo(rows, n, l))
  {
    if n != 0 {
      RowsWant(rows, n - 1, l);
    }
  }

  /** A reservation that goes through leaves nothing of the LPO line promised twice: what is delivered and
      what is reserved of it stay within its quantity, but for half a hundredth that each of its rows may
      gain when it is stored. */
  lemma {:induction false} HeldFits(s: State, order: nat, rows: seq<Row>, now: int, s': State, l: nat)
    requires Reserves(s, order, rows, now, s') && 0 < RowsOn(rows, |rows|, l)
    ensures l < |s.orders[order].lines|
    ensures var line := s.orders[order].lines[l];
            && 0 <= RowsOn(rows, |rows|, l) + 2 * (line.quantity - line.delivered - HeldOn(s'.items, order, l))
            && ((forall r <- rows | r.line == l :: IsWhole(r.quantity)) ==>
                  0 <= line.quantity - line.delivered - HeldOn(s'.items, order, l))
  {
    LineOfRow(s, order, rows, |rows|, l);
    HoldableTo(s, order, rows, |rows|, l);
    RowsWant(rows, |rows|, l);
    RoundedNear(rows, |rows|, l);
    if forall r <- rows | r.line == l :: IsWhole(r.quantity) {
      assert forall i | 0 <= i < |rows| :: rows[i] in rows;
      RoundedWhole(rows, |rows|, l);
    }
    ReserveHolds(s, order, rows, now, s', order, l);
    HeldIsHeldOn(s.items, |s.items|, order, l);
  }

  lemma {:induction false} LineOfRow(s: State, order: nat, rows: seq<Row>, n: nat, l: nat)
    requires ReserveRefusal(s, order, rows) == None && n <= |rows| && 0 < RowsOn(rows, n, l)
    ensures l < |s.orders[order].lines|
  {
    RefusalStays(s, order, rows, n - 1, |rows|);
    if rows[n - 1].line != l {
      LineOfRow(s, order, rows, n - 1, l);
    }
  }

  /** Every row names a catalogue line of the LPO, and is not stored as zero. */
  ghost predicate RowsName(s: State, order: nat, rows: seq<Row>)
    requires order < |s.orders|
  {
    forall r <- rows ::
      r.line < |s.orders[order].lines| && s.orders[order].lines[r.line].product.Some? && 0.5 <= r.quantity
  }

  /** The rows for an LPO line fit what is neither delivered nor reserved of it. */
  ghost predicate RowsFitLines(s: State, order: nat, rows: seq<Row>)
    requires order < |s.orders|
  {
    forall l | 0 <= l < |s.orders[order].lines| && 0.0 < WantedTo(rows, |rows|, l) ::
      var line := s.orders[order].lines[l];
      WantedTo(rows, |rows|, l) <= (line.quantity - line.delivered - HeldOn(s.items, order, l)) as real
  }

  /** The rows for a level fit what is neither reserved nor damaged there. */
  ghost predicate RowsFitLevels(s: State, order: nat, rows: seq<Row>)
    requires order < |s.orders|
  {
    forall k | 0.0 < Asked(RowAsks(s, order, rows), k) ::
      var level := Get(s.levels, k);
      Asked(RowAsks(s, order, rows), k) <= (level.onHand - level.reserved - level.damaged) as real
  }

  /** Exactly when a reservation goes through, over the columns themselves. */
  lemma ReservesIff(s: State, order: nat, rows: seq<Row>)
    requires AddsExactly(s, rows)
    ensures ReserveRefusal(s, order, rows) == None <==>
              && order < |s.orders| && s.orders[order].shippable
              && RowsName(s, order, rows) && RowsFitLines(s, order, rows) && RowsFitLevels(s, order, rows)
  {
    if order < |s.orders| && s.orders[order].shippable {
      ReserveNeedsWholeDemand(s, order, rows);
      NamesIs(s, order, rows);
      FitsLinesIs(s, order, rows);
      FitsLevelsIs(s, order, rows);
    }
  }

  /** What the answer to one row means, the rows before it being in; the first row that is refused decides, and
      a row stored as zero is refused in the end at the latest. */
  lemma {:induction false} RowAnswers(s: State, order: nat, rows: seq<Row>, i: nat)
    requires order < |s.orders| && i < |rows|
    ensures var r, lines := rows[i], s.orders[order].lines;
            var answer, tiny := RowRefusal(s, order, rows, i), exists j :: 0 <= j < i && rows[j].quantity < 0.5;
            if |lines| <= r.line then answer == Some(NotFound)
            else if lines[r.line].product.None? then answer == Some(AdHocLine)
            else if (lines[r.line].quantity - lines[r.line].delivered - HeldOn(s.items, order, r.line)) as real
                    < r.quantity + WantedTo(rows, i, r.line) then answer == Some(ExceedsUndelivered)
            else if (s.autoflush || Key(lines[r.line].product.value, r.bin) !in s.levels) && tiny then answer == Some(CheckViolation)
            else answer == None || answer == Some(Insufficient)
    ensures ReserveRefusal(s, order, rows)
         == if !s.orders[order].shippable then Some(InvalidState)
            else if RefusedTo(s, order, rows, |rows|).Some? then RefusedTo(s, order, rows, |rows|)
            else if exists j :: 0 <= j < |rows| && rows[j].quantity < 0.5 then Some(CheckViolation) else None
  {
    HeldIsHeldOn(s.items, |s.items|, order, rows[i].line);
    forall j | 0 <= j < |rows|
      ensures Nearest(rows[j].quantity) == 0 <==> rows[j].quantity < 0.5
    {
      NearestNear(rows[j].quantity);
    }
  }

  lemma NamesIs(s: State, order: nat, rows: seq<Row>)
    requires order < |s.orders|
    ensures RowsName(s, order, rows)
       <==> (forall i | 0 <= i < |rows| :: Named(s, order, rows, i)) && !TinyTo(rows, |rows|)
  {
    forall i | 0 <= i < |rows|
      ensures rows[i] in rows && (Nearest(rows[i].quantity) == 0 <==> rows[i].quantity < 0.5)
    {
      NearestNear(rows[i].quantity);
    }
    if (forall i | 0 <= i < |rows| :: Named(s, order, rows, i)) && !TinyTo(rows, |rows|) {
      forall r <- rows
        ensures r.line < |s.orders[order].lines| && s.orders[order].lines[r.line].product.Some? && 0.5 <= r.quantity
      {
        var i :| 0 <= i < |rows| && rows[i] == r;
        assert Named(s, order, rows, i) && Nearest(rows[i].quantity) != 0;
      }
    }
  }

  lemma FitsLinesIs(s: State, order: nat, rows: seq<Row>)
    requires order < |s.orders|
    ensures RowsFitLines(s, order, rows) <==> forall l: nat :: HoldableAt(s, order, rows, |rows|, l)
  {
    forall l: nat
      ensures HoldableAt(s, order, rows, |rows|, l) <==>
                (l < |s.orders[order].lines| && 0.0 < WantedTo(rows, |rows|, l) ==>
                   WantedTo(rows, |rows|, l) <= (s.orders[order].lines[l].quantity - s.orders[order].lines[l].delivered
                                                 - HeldOn(s.items, order, l)) as real)
    {
      HeldIsHeldOn(s.items, |s.items|, order, l);
    }
  }

  lemma FitsLevelsIs(s: State, order: nat, rows: seq<Row>)
    requires order < |s.orders|
    ensures RowsFitLevels(s, order, rows) <==> Covered(s.levels, RowAsks(s, order, rows), |rows|)
  {
    forall k
      ensures CoveredAt(s.levels, RowAsks(s, order, rows), |rows|, k) <==>
                (0.0 < Asked(RowAsks(s, order, rows), k) ==>
                   Asked(RowAsks(s, order, rows), k)
                   <= (Get(s.levels, k).onHand - Get(s.levels, k).reserved - Get(s.levels, k).damaged) as real)
    {
    }
  }

  // ---- cancelling and expiring ----

  lemma {:induction false} ReleasedHeld(items: seq<ResItem>, due: set<nat>, status: ResStatus, n: nat, o: nat, l: nat)
    requires n <= |items| && status != ACTIVE
    ensures HeldOnTo(ReleaseItems(items, due, status), n, o, l) == HeldOnTo(items, n, o, l) - HeldByTo(items, n, due, o, l)
  {
    if n != 0 {
      ReleasedHeld(items, due, status, n - 1, o, l);
    }
  }

  /** Releasing rewrites the ACTIVE lines of the reservations concerned and no other line. */
  lemma ReleasesOnly(s: State, due: set<nat>, status: ResStatus, s': State)
    requires Releases(s, due, status, s')
    ensures |s'.items| == |s.items| && |s'.heads| == |s.heads|
    ensures forall i | 0 <= i < |s.items| ::
              s'.items[i] == if s.items[i].head in due && s.items[i].status == ACTIVE
                             then s.items[i].(status := status) else s.items[i]
    ensures forall h: nat | h < |s.heads| ::
              s'.heads[h] == if h in due then s.heads[h].(status := status) else s.heads[h]
  {
  }

  /** Cancelling a reservation gives back to each LPO line exactly
      what the reservation still held of it, and rewrites its ACTIVE lines only. */
  lemma CancelHolds(s: State, h: nat, s': State, o: nat, l: nat)
    requires Reservations.Cancels(s, h, s')
    ensures h < |s.heads| && s.heads[h].status == ACTIVE && s'.heads == s.heads[h := s.heads[h].(status := CANCELLED)]
    ensures HeldOn(s'.items, o, l) == HeldOn(s.items, o, l) - HeldBy(s.items, {h}, o, l)
    ensures |s'.items| == |s.items| && forall i | 0 <= i < |s.items| ::
              s'.items[i] == if s.items[i].head == h && s.items[i].status == ACTIVE
                             then s.items[i].(status := CANCELLED) else s.items[i]
  {
    ReleasedHeld(s.items, {h}, CANCELLED, |s.items|, o, l);
  }

  lemma CancelsIff(s: State, h: nat)
    ensures Reservations.CancelRefusal(s, h) == None <==> h < |s.heads| && s.heads[h].status == ACTIVE
    ensures Reservations.CancelRefusal(s, h) == Some(NotFound) <==> |s.heads| <= h
    ensures Reservations.CancelRefusal(s, h) == Some(InvalidState) <==> h < |s.heads| && s.heads[h].status != ACTIVE
    ensures forall manager :: ExpireRefusal(manager) == if manager then None else Some(Forbidden)
  {
  }

  /** Expiry releases the ACTIVE reservations whose time has come, to the second, and no other. */
  lemma ExpiryHolds(s: State, manager: bool, cutoff: int, s': State, o: nat, l: nat)
    requires Expires(s, manager, cutoff, s')
    ensures manager
    ensures var due := set h: nat | h < |s.heads| && s.heads[h].status == ACTIVE && s.heads[h].expiresAt <= cutoff;
            && HeldOn(s'.items, o, l) == HeldOn(s.items, o, l) - HeldBy(s.items, due, o, l)
            && |s'.heads| == |s.heads| && |s'.items| == |s.items|
            && (forall h: nat | h < |s.heads| ::
                  s'.heads[h] == if h in due then s.heads[h].(status := EXPIRED) else s.heads[h])
            && forall i | 0 <= i < |s.items| ::
                 s'.items[i] == if s.items[i].head in due && s.items[i].status == ACTIVE
                                then s.items[i].(status := EXPIRED) else s.items[i]
  {
    ReleasedHeld(s.items, Due(s.heads, cutoff), EXPIRED, |s.items|, o, l);
  }

  // ---- shipping ----

  lemma {:induction false} OpenIsHeld(heads: seq<Head>, items: seq<ResItem>, n: nat, o: nat, l: nat, p: nat)
    requires ItemsOk(heads, items) && n <= |items|
    ensures OpenTo(items, n, o, l, p) == HeldForTo(items, n, o, l, p)
  {
    if n != 0 {
      OpenIsHeld(heads, items, n - 1, o, l, p);
      assert ItemOk(heads, items[n - 1]);
    }
  }

  lemma {:induction false} DrawnHeld(heads: seq<Head>, items: seq<ResItem>, n: nat, o: nat, l: nat, p: nat, q: int)
    requires ItemsOk(heads, items) && n <= |items| && 0 <= q
    ensures HeldForTo(Consumed(items, o, l, p, q), n, o, l, p)
         == HeldForTo(items, n, o, l, p) - GivenTo(items, n, o, l, p, q)
  {
    if n != 0 {
      DrawnHeld(heads, items, n - 1, o, l, p, q);
      assert ItemOk(heads, items[n - 1]);
    }
  }

  /** A reservation line that serves another LPO, another of its lines or another product, or that is not
      ACTIVE, is left as it is; and one that serves this line only gives. */
  lemma DrawsOnlyOn(b: Book, o: nat, l: nat, p: nat, q: int, i: nat)
    requires ItemsOk(b.heads, b.items) && i < |b.items|
    ensures var it, it' := b.items[i], Drawn(b, o, l, p, q).items[i];
            && (it.order != o || it.line != l || it.key.product != p || it.status != ACTIVE ==> it' == it)
            && it' == it.(consumed := it'.consumed, status := it'.status) && it.consumed <= it'.consumed <= it.quantity
            && (it' != it ==> it.consumed < it'.consumed
                              && it'.status == if it'.consumed == it.quantity then DISPATCHED else ACTIVE)
  {
    assert ItemOk(b.heads, b.items[i]);
  }

  /** What an LPO line ships consumes the smaller of its quantity and what is reserved for the line and
      product, the earlier line before the later. */
  lemma DrawsInOrder(b: Book, o: nat, l: nat, p: nat, q: int)
    requires ItemsOk(b.heads, b.items) && 0 <= q
    ensures var items' := Drawn(b, o, l, p, q).items;
            && HeldFor(items', o, l, p) == HeldFor(b.items, o, l, p) - Min(q, HeldFor(b.items, o, l, p))
            && forall i, j | 0 <= i < j < |b.items| && items'[j] != b.items[j] && b.items[i].status == ACTIVE
                             && b.items[i].order == o && b.items[i].line == l && b.items[i].key.product == p ::
                 items'[i].consumed == b.items[i].quantity && items'[i].status == DISPATCHED
  {
    ConsumedInOrder(b.items, |b.items|, o, l, p, q);
    OpenIsHeld(b.heads, b.items, |b.items|, o, l, p);
    DrawnHeld(b.heads, b.items, |b.items|, o, l, p, q);
    forall i, j | 0 <= i < j < |b.items| && Drawn(b, o, l, p, q).items[j] != b.items[j] && b.items[i].status == ACTIVE
                  && b.items[i].order == o && b.items[i].line == l && b.items[i].key.product == p
      ensures Take(b.items, i, o, l, p, q) == Remaining(b.items[i]) > 0
    {
      assert ItemOk(b.heads, b.items[i]);
      assert 0 < Take(b.items, j, o, l, p, q) && Matches(b.items[i], o, l, p);
    }
  }

  lemma {:induction false} TouchedIs(items: seq<ResItem>, n: nat, o: nat, l: nat, p: nat, q: int, h: nat)
    requires n <= |items|
    ensures h in TouchedTo(items, n, o, l, p, q)
       <==> exists i | 0 <= i < n :: items[i].head == h && Consumed(items, o, l, p, q)[i] != items[i]
  {
    if n != 0 {
      TouchedIs(items, n - 1, o, l, p, q, h);
      assert Consumed(items, o, l, p, q)[n - 1] != items[n - 1] <==> 0 < Take(items, n - 1, o, l, p, q);
    }
  }

  /** A reservation becomes DISPATCHED when it gave something and all its lines are DISPATCHED by then. */
  lemma SettlesWhenDone(b: Book, o: nat, l: nat, p: nat, q: int, h: nat)
    requires h < |b.heads|
    ensures var d := Drawn(b, o, l, p, q);
            d.heads[h] == if (exists i | 0 <= i < |b.items| :: b.items[i].head == h && d.items[i] != b.items[i])
                             && (forall it <- d.items | it.head == h :: it.status == DISPATCHED)
                          then b.heads[h].(status := DISPATCHED) else b.heads[h]
  {
    TouchedIs(b.items, |b.items|, o, l, p, q, h);
  }

  /** Some of the first `n` lines of a note is for this LPO line and product. */
  predicate NamedBy(lines: seq<NoteLine>, n: nat, l: nat, p: nat)
    requires n <= |lines|
  {
    exists j | 0 <= j < n :: lines[j].line == l && lines[j].target.Some? && lines[j].target.value.product == p
  }

  /** What a note line ships of an LPO line and product. */
  function ShipsBy(x: NoteLine, l: nat, p: nat): int {
    if x.line == l && x.target.Some? && x.target.value.product == p then x.quantity else 0
  }

  /** How much of it they ship. */
  function ShipsTo(lines: seq<NoteLine>, n: nat, l: nat, p: nat): int
    requires n <= |lines|
  {
    if n == 0 then 0 else ShipsTo(lines, n - 1, l, p) + ShipsBy(lines[n - 1], l, p)
  }

  lemma {:induction false} HeldForSame(a: seq<ResItem>, b: seq<ResItem>, n: nat, o: nat, l: nat, p: nat)
    requires n <= |a| && n <= |b|
    requires forall i | 0 <= i < n ::
               a[i] == b[i] || (a[i].(consumed := b[i].consumed, status := b[i].status) == b[i]
                                && (a[i].order != o || a[i].line != l || a[i].key.product != p))
    ensures HeldForTo(a, n, o, l, p) == HeldForTo(b, n, o, l, p)
  {
    if n != 0 {
      HeldForSame(a, b, n - 1, o, l, p);
    }
  }

  lemma DrawLineHeld(b: Book, order: nat, x: NoteLine, o: nat, l: nat, p: nat)
    requires ItemsOk(b.heads, b.items)
    ensures var b' := DrawLine(b, order, x);
            HeldFor(b'.items, o, l, p)
            == if o == order && x.line == l && x.target.Some? && x.target.value.product == p
               then Max(0, HeldFor(b.items, o, l, p) - x.quantity) else HeldFor(b.items, o, l, p)
  {
    if x.target.Some? {
      var p' := x.target.value.product;
      DrawsInOrder(b, order, x.line, p', x.quantity);
      if o != order || x.line != l || p' != p {
        var items' := Drawn(b, order, x.line, p', x.quantity).items;
        forall i | 0 <= i < |b.items|
          ensures items'[i] == b.items[i] || (items'[i].(consumed := b.items[i].consumed, status := b.items[i].status) == b.items[i]
                                              && (items'[i].order != o || items'[i].line != l || items'[i].key.product != p))
        {
          DrawsOnlyOn(b, order, x.line, p', x.quantity, i);
        }
        HeldForSame(items', b.items, |b.items|, o, l, p);
      }
    }
  }

  lemma {:induction false} ShipsNonNegative(lines: seq<NoteLine>, n: nat, l: nat, p: nat)
    requires n <= |lines|
    ensures 0 <= ShipsTo(lines, n, l, p)
  {
    if n != 0 {
      ShipsNonNegative(lines, n - 1, l, p);
    }
  }

  lemma DrawOneMore(b: Book, order: nat, x: NoteLine, o: nat, l: nat, p: nat, held: int, shipped: int)
    requires ItemsOk(b.heads, b.items) && 0 <= held && 0 <= shipped
    requires HeldFor(b.items, o, l, p) == if o == order then Max(0, held - shipped) else held
    ensures HeldFor(DrawLine(b, order, x).items, o, l, p)
         == if o == order then Max(0, held - (shipped + ShipsBy(x, l, p))) else held
  {
    DrawLineHeld(b, order, x, o, l, p);
  }

  lemma {:induction false} DrawnToHeld(b: Book, order: nat, lines: seq<NoteLine>, n: nat, o: nat, l: nat, p: nat)
    requires ItemsOk(b.heads, b.items) && n <= |lines|
    ensures HeldFor(DrawnTo(b, order, lines, n).items, o, l, p)
         == if o == order then Max(0, HeldFor(b.items, o, l, p) - ShipsTo(lines, n, l, p)) else HeldFor(b.items, o, l, p)
  {
    HeldNonNegative(b.heads, b.items, |b.items|, o, l, p);
    if n != 0 {
      DrawnToHeld(b, order, lines, n - 1, o, l, p);
      DrawnOk(b, order, lines, n - 1, Key(0, Bin(0, 0)));
      ShipsNonNegative(lines, n - 1, l, p);
      DrawOneMore(DrawnTo(b, order, lines, n - 1), order, lines[n - 1], o, l, p,
                  HeldFor(b.items, o, l, p), ShipsTo(lines, n - 1, l, p));
    }
  }

  lemma {:induction false} HeldNonNegative(heads: seq<Head>, items: seq<ResItem>, n: nat, o: nat, l: nat, p: nat)
    requires ItemsOk(heads, items) && n <= |items|
    ensures 0 <= HeldForTo(items, n, o, l, p)
  {
    if n != 0 {
      HeldNonNegative(heads, items, n - 1, o, l, p);
      assert ItemOk(heads, items[n - 1]);
    }
  }

  /** Confirming a note takes from what is reserved for each line and product of its LPO what it ships of
      them, as far as that goes, and from no other LPO. */
  lemma {:induction false} ConfirmHolds(s: State, id: nat, s': State, o: nat, l: nat, p: nat)
    requires Inv(s) && Confirms(s, id, s') && s.notes[id].status == N_DRAFT
    ensures var n := s.notes[id];
            HeldFor(s'.items, o, l, p)
            == if o == n.order then Max(0, HeldFor(s.items, o, l, p) - ShipsTo(n.lines, |n.lines|, l, p))
               else HeldFor(s.items, o, l, p)
  {
    var n := s.notes[id];
    DrawnToHeld(Book(s.heads, s.items), n.order, n.lines, |n.lines|, o, l, p);
  }

  lemma {:induction false} DrawnToOnly(b: Book, order: nat, lines: seq<NoteLine>, n: nat, i: nat)
    requires ItemsOk(b.heads, b.items) && n <= |lines| && i < |b.items|
    requires b.items[i].status != ACTIVE || b.items[i].order != order
             || !NamedBy(lines, n, b.items[i].line, b.items[i].key.product)
    ensures i < |DrawnTo(b, order, lines, n).items| && DrawnTo(b, order, lines, n).items[i] == b.items[i]
  {
    if n != 0 {
      DrawnToOnly(b, order, lines, n - 1, i);
      DrawnOk(b, order, lines, n - 1, Key(0, Bin(0, 0)));
      if lines[n - 1].target.Some? {
        DrawsOnlyOn(DrawnTo(b, order, lines, n - 1), order, lines[n - 1].line, lines[n - 1].target.value.product,
                    lines[n - 1].quantity, i);
      }
    }
  }

  /** A reservation line that no line of the note names by LPO, line and product, or that is not ACTIVE, is the
      same row before and after. */
  lemma ConfirmTouchesOnly(s: State, id: nat, s': State, i: nat)
    requires Inv(s) && Confirms(s, id, s') && s.notes[id].status == N_DRAFT && i < |s.items|
    requires var (it, n) := (s.items[i], s.notes[id]);
             it.status != ACTIVE || it.order != n.order
             || forall x <- n.lines :: x.line != it.line || x.target.None? || x.target.value.product != it.key.product
    ensures i < |s'.items| && s'.items[i] == s.items[i]
  {
    var n := s.notes[id];
    assert forall j | 0 <= j < |n.lines| :: n.lines[j] in n.lines;
    DrawnToOnly(Book(s.heads, s.items), n.order, n.lines, |n.lines|, i);
  }
}
