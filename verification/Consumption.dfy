/** Consumption of reservations, first in first out, when an LPO line ships. */
module Consumption {
  import opened Levels
  import opened Tables
  import opened StockInvariant
  import opened Reservations

  datatype Book = Book(heads: seq<Head>, items: seq<ResItem>)

  predicate Matches(it: ResItem, order: nat, line: nat, product: nat) {
    && it.order == order && it.line == line && it.key.product == product
    && it.status == ACTIVE && it.consumed < it.quantity
  }

  /** Open quantity on the lines before `n` that serve this LPO line. */
  function OpenTo(items: seq<ResItem>, n: nat, order: nat, line: nat, product: nat): int
    requires n <= |items|
  {
    if n == 0 then 0
    else OpenTo(items, n - 1, order, line, product)
         + if Matches(items[n - 1], order, line, product) then Remaining(items[n - 1]) else 0
  }

  /** First in, first out: line `i` gives what the lines before it could not. */
  function Take(items: seq<ResItem>, i: nat, order: nat, line: nat, product: nat, quantity: int): int
    requires i < |items|
  {
    if Matches(items[i], order, line, product)
    then Min(Remaining(items[i]), Max(0, quantity - OpenTo(items, i, order, line, product)))
    else 0
  }

  function TakeFrom(it: ResItem, take: int): ResItem {
    if take <= 0 then it
    else it.(consumed := it.consumed + take,
             status := if it.consumed + take >= it.quantity then DISPATCHED else it.status)
  }

  function Consumed(items: seq<ResItem>, order: nat, line: nat, product: nat, quantity: int): (r: seq<ResItem>)
    ensures |r| == |items|
  {
    seq(|items|, i requires 0 <= i < |items| =>
      TakeFrom(items[i], Take(items, i, order, line, product, quantity)))
  }

  function Taken(items: seq<ResItem>, order: nat, line: nat, product: nat, quantity: int): (es: seq<Entry>)
    ensures |es| == |items|
  {
    seq(|items|, i requires 0 <= i < |items| =>
      Entry(items[i].key, Take(items, i, order, line, product, quantity)))
  }

  /** Reservations that the first `n` lines made part of this dispatch. */
  function TouchedTo(items: seq<ResItem>, n: nat, order: nat, line: nat, product: nat, quantity: int): set<nat>
    requires n <= |items|
  {
    if n == 0 then {}
    else TouchedTo(items, n - 1, order, line, product, quantity)
         + if 0 < Take(items, n - 1, order, line, product, quantity) then {items[n - 1].head} else {}
  }

  predicate AllDispatched(items: seq<ResItem>, h: nat) {
    forall it <- items :: it.head == h ==> it.status == DISPATCHED
  }

  /** A reservation touched by the dispatch is DISPATCHED once all its lines are. */
  function Settled(heads: seq<Head>, touched: set<nat>, items': seq<ResItem>): (r: seq<Head>)
    ensures |r| == |heads|
  {
    seq(|heads|, h requires 0 <= h < |heads| =>
      if h in touched && AllDispatched(items', h) then heads[h].(status := DISPATCHED) else heads[h])
  }

  /** The reservation tables after a dispatch of `quantity` against one LPO line. */
  function Drawn(b: Book, order: nat, line: nat, product: nat, quantity: int): Book {
    var items' := Consumed(b.items, order, line, product, quantity);
    Book(Settled(b.heads, TouchedTo(b.items, |b.items|, order, line, product, quantity), items'), items')
  }

  /** Total taken by the first `n` lines. */
  function GivenTo(items: seq<ResItem>, n: nat, order: nat, line: nat, product: nat, quantity: int): int
    requires n <= |items|
  {
    if n == 0 then 0
    else GivenTo(items, n - 1, order, line, product, quantity) + Take(items, n - 1, order, line, product, quantity)
  }

  /** Whatever the lines hold, exactly the smaller of the shipped quantity and the open reservations
      is consumed, and no later line gives anything while an earlier one still could. */
  lemma {:induction false} ConsumedInOrder(items: seq<ResItem>, n: nat, order: nat, line: nat, product: nat, quantity: int)
    requires n <= |items| && 0 <= quantity
    ensures 0 <= OpenTo(items, n, order, line, product)
    ensures GivenTo(items, n, order, line, product, quantity) == Min(quantity, OpenTo(items, n, order, line, product))
    ensures forall i, j | 0 <= i < j < n && Matches(items[i], order, line, product)
                          && 0 < Take(items, j, order, line, product, quantity)
                        :: Take(items, i, order, line, product, quantity) == Remaining(items[i])
  {
    if n != 0 {
      ConsumedInOrder(items, n - 1, order, line, product, quantity);
      var j := n - 1;
      if 0 < Take(items, j, order, line, product, quantity) {
        forall i | 0 <= i < j && Matches(items[i], order, line, product)
          ensures Take(items, i, order, line, product, quantity) == Remaining(items[i])
        {
          OpenGrows(items, i + 1, j, order, line, product);
        }
      }
    }
  }

  lemma {:induction false} OpenGrows(items: seq<ResItem>, i: nat, n: nat, order: nat, line: nat, product: nat)
    requires i <= n <= |items|
    ensures OpenTo(items, i, order, line, product) <= OpenTo(items, n, order, line, product)
  {
    if i != n {
      OpenGrows(items, i, n - 1, order, line, product);
    }
  }

  /** Consumption keeps the rows well formed and lowers the open claims by what was taken. */
  lemma DrawnKeeps(b: Book, order: nat, line: nat, product: nat, quantity: int)
    requires ItemsOk(b.heads, b.items)
    ensures var d := Drawn(b, order, line, product, quantity);
            ItemsOk(d.heads, d.items) && NonNegative(Claims(d.items))
  {
    var d := Drawn(b, order, line, product, quantity);
    forall i | 0 <= i < |d.items|
      ensures ItemOk(d.heads, d.items[i])
    {
      assert ItemOk(b.heads, b.items[i]);
      if d.items[i].status == ACTIVE {
        assert !AllDispatched(d.items, d.items[i].head);
      }
    }
    assert forall i | 0 <= i < |d.items| :: ItemOk(d.heads, d.items[i]);
  }

  lemma {:induction false} DrawnClaims(b: Book, order: nat, line: nat, product: nat, quantity: int, n: nat, k: Key)
    requires ItemsOk(b.heads, b.items) && n <= |b.items|
    ensures var taken := Taken(b.items, order, line, product, quantity);
            && NonNegative(taken)
            && SumTo(Claims(b.items), n, One(k))
            == SumTo(Claims(Drawn(b, order, line, product, quantity).items), n, One(k)) + SumTo(taken, n, One(k))
  {
    assert forall i | 0 <= i < |b.items| :: ItemOk(b.heads, b.items[i]);
    SumSplit(Claims(b.items), Claims(Drawn(b, order, line, product, quantity).items),
             Taken(b.items, order, line, product, quantity), n, One(k));
  }

  lemma DrawnBounds(b: Book, order: nat, line: nat, product: nat, quantity: int, k: Key)
    requires ItemsOk(b.heads, b.items)
    ensures 0 <= Sum(Claims(Drawn(b, order, line, product, quantity).items), One(k)) <= Sum(Claims(b.items), One(k))
  {
    var taken := Taken(b.items, order, line, product, quantity);
    var claims := Claims(Drawn(b, order, line, product, quantity).items);
    DrawnKeeps(b, order, line, product, quantity);
    DrawnClaims(b, order, line, product, quantity, |b.items|, k);
    SumBound(taken, 0, |taken|, One(k));
    SumBound(claims, 0, |claims|, One(k));
  }

  // ---- the loops over reservation lines ----


  /** Once the shipped quantity is covered no later line gives anything. */
  lemma {:induction false} NothingMore(items: seq<ResItem>, i: nat, n: nat, order: nat, line: nat, product: nat, quantity: int)
    requires i <= n <= |items| && quantity <= OpenTo(items, i, order, line, product)
    ensures forall j | i <= j < n :: Take(items, j, order, line, product, quantity) == 0
    ensures TouchedTo(items, n, order, line, product, quantity) == TouchedTo(items, i, order, line, product, quantity)
    ensures forall sc :: SumTo(Taken(items, order, line, product, quantity), n, sc)
                      == SumTo(Taken(items, order, line, product, quantity), i, sc)
  {
    if i != n {
      NothingMore(items, i, n - 1, order, line, product, quantity);
      OpenGrows(items, i, n - 1, order, line, product);
    }
  }

  lemma ConsumedOne(items: seq<ResItem>, i: nat, order: nat, line: nat, product: nat, quantity: int)
    requires i < |items|
    ensures var after := Consumed(items, order, line, product, quantity);
            after[..i] + [after[i]] == after[..i + 1]
  {
  }

  lemma {:induction false} RestUntouched(items: seq<ResItem>, i: nat, order: nat, line: nat, product: nat, quantity: int)
    requires i <= |items| && (i < |items| ==> quantity <= OpenTo(items, i, order, line, product))
    ensures var after := Consumed(items, order, line, product, quantity);
            after == after[..i] + items[i..]
    ensures TouchedTo(items, |items|, order, line, product, quantity) == TouchedTo(items, i, order, line, product, quantity)
    ensures forall sc :: Sum(Taken(items, order, line, product, quantity), sc)
                      == SumTo(Taken(items, order, line, product, quantity), i, sc)
    ensures i < |items| ==> quantity <= OpenTo(items, |items|, order, line, product)
  {
    if i < |items| {
      NothingMore(items, i, |items|, order, line, product, quantity);
      OpenGrows(items, i, |items|, order, line, product);
    }
  }

  lemma {:induction false} OpenIsLeft(items: seq<ResItem>, i: nat, order: nat, line: nat, product: nat, quantity: int)
    requires i < |items| && 0 < quantity - OpenTo(items, i, order, line, product)
    ensures Matches(items[i], order, line, product) ==>
              Take(items, i, order, line, product, quantity)
              == Min(Remaining(items[i]), quantity - OpenTo(items, i, order, line, product)) > 0
    ensures !Matches(items[i], order, line, product) ==> Take(items, i, order, line, product, quantity) == 0
  {
  }

  /** One line gives up to `qty`, and its level lets go of as much, down to the floor at zero. */
  method TakeLine(ghost levels: Table, ghost items: seq<ResItem>, it: ResItem, ghost i: nat, order: nat, line: nat, product: nat,
                  ghost quantity: int, qty: int, session: Table, touched: set<nat>)
    returns (session': Table, it': ResItem, touched': set<nat>, qty': int)
    requires i < |items| && it == items[i]
    requires Lowered(levels, session, Taken(items, order, line, product, quantity), i)
    requires 0 < qty == quantity - OpenTo(items, i, order, line, product)
    ensures it' == Consumed(items, order, line, product, quantity)[i]
    ensures touched' == touched + if 0 < Take(items, i, order, line, product, quantity) then {it.head} else {}
    ensures qty' == Max(0, quantity - OpenTo(items, i + 1, order, line, product))
    ensures Lowered(levels, session', Taken(items, order, line, product, quantity), i + 1)
  {
    OpenIsLeft(items, i, order, line, product, quantity);
    session', it', touched', qty' := session, it, touched, qty;
    if Matches(it, order, line, product) {
      LowerOne(levels, session, Taken(items, order, line, product, quantity), i);
      var take := Min(Remaining(it), qty);
      var level := Get(session, it.key);
      session' := session[it.key := level.(reserved := Max(0, level.reserved - take))];
      it' := TakeFrom(it, take);
      touched', qty' := touched + {it.head}, qty - take;
    } else {
      LowerNone(levels, session, Taken(items, order, line, product, quantity), i);
    }
  }

  /** Goes through the lines until `quantity` is covered; line `i` is the first it did not look at. */
  method TakeUntilCovered(levels: Table, items: seq<ResItem>, order: nat, line: nat, product: nat, quantity: int)
    returns (session: Table, items': seq<ResItem>, touched: set<nat>, qty: int, i: nat)
    requires HeldOk(levels) && 0 <= quantity
    ensures i <= |items| && (i == |items| || qty == 0)
    ensures qty == Max(0, quantity - OpenTo(items, i, order, line, product))
    ensures items' == Consumed(items, order, line, product, quantity)[..i]
    ensures touched == TouchedTo(items, i, order, line, product, quantity)
    ensures Lowered(levels, session, Taken(items, order, line, product, quantity), i)
  {
    i, qty := 0, quantity;
    session, items', touched := levels, [], {};
    LowerStart(levels, Taken(items, order, line, product, quantity));
    while i < |items| && 0 < qty
      invariant i <= |items| && qty == Max(0, quantity - OpenTo(items, i, order, line, product))
      invariant items' == Consumed(items, order, line, product, quantity)[..i]
      invariant touched == TouchedTo(items, i, order, line, product, quantity)
      invariant Lowered(levels, session, Taken(items, order, line, product, quantity), i)
    {
      var it';
      session, it', touched, qty :=
        TakeLine(levels, items, items[i], i, order, line, product, quantity, qty, session, touched);
      ConsumedOne(items, i, order, line, product, quantity);
      items' := items' + [it'];
      i := i + 1;
    }
  }

  /** Consumes open lines in order until `quantity` is covered. */
  method TakeLines(levels: Table, items: seq<ResItem>, order: nat, line: nat, product: nat, quantity: int)
    returns (session: Table, items': seq<ResItem>, touched: set<nat>, consumed: int)
    requires HeldOk(levels) && 0 <= quantity
    ensures items' == Consumed(items, order, line, product, quantity)
    ensures touched == TouchedTo(items, |items|, order, line, product, quantity)
    ensures Lowered(levels, session, Taken(items, order, line, product, quantity), |items|)
    ensures consumed == Min(quantity, OpenTo(items, |items|, order, line, product))
  {
    var qty, i;
    session, items', touched, qty, i := TakeUntilCovered(levels, items, order, line, product, quantity);
    RestUntouched(items, i, order, line, product, quantity);
    consumed, items' := quantity - qty, items' + items[i..];
  }

  method SettleHeads(heads: seq<Head>, touched: set<nat>, items': seq<ResItem>) returns (r: seq<Head>)
    ensures r == Settled(heads, touched, items')
  {
    r := heads;
    for h := 0 to |heads|
      invariant |r| == |heads| && r[..h] == Settled(heads, touched, items')[..h] && r[h..] == heads[h..]
    {
      if h in touched && AllDispatched(items', h) {
        r := r[h := r[h].(status := DISPATCHED)];
      }
    }
  }

  /** `reserved` lets go of what the claims lost, down to the floor at zero. */
  ghost predicate LetGo(levels: Table, session: Table, items: seq<ResItem>, items': seq<ResItem>) {
    forall k :: Get(session, k) == Get(levels, k).(
                  reserved := Max(0, Get(levels, k).reserved - Sum(Claims(items), One(k)) + Sum(Claims(items'), One(k))))
  }

  /** Consumes the reservations of an LPO line for a shipment. */
  method ReleaseForDispatch(levels: Table, b: Book, order: nat, line: nat, product: nat, quantity: int)
    returns (session: Table, b': Book, consumed: int)
    requires ItemsOk(b.heads, b.items) && HeldOk(levels) && 0 <= quantity
    ensures b' == Drawn(b, order, line, product, quantity)
    ensures LetGo(levels, session, b.items, b'.items)
    ensures consumed == Min(quantity, OpenTo(b.items, |b.items|, order, line, product))
  {
    var items', touched;
    session, items', touched, consumed := TakeLines(levels, b.items, order, line, product, quantity);
    var heads' := SettleHeads(b.heads, touched, items');
    b' := Book(heads', items');
    forall k
      ensures Get(session, k) == Get(levels, k).(
                reserved := Max(0, Get(levels, k).reserved - Sum(Claims(b.items), One(k)) + Sum(Claims(items'), One(k))))
    {
      DrawnClaims(b, order, line, product, quantity, |b.items|, k);
    }
  }
}
