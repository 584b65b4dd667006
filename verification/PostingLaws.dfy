/** What adjustments, goods receipts and issues do, told over the columns of the level rows. */
module PostingLaws {
  import opened Levels
  import opened Tables
  import opened StockInvariant
  import opened Rounding
  import opened Demands
  import opened Postings

  // ---- adjustments ----

  /** A manager may adjust by anything but nothing, as long as the level does not end below zero on hand; what
      is reserved or damaged there is not asked, so available stock may end below zero. */
  lemma AdjustsIff(s: State, manager: bool, k: Key, quantity: real)
    ensures AdjustRefusal(s, manager, k, quantity) == None
       <==> manager && quantity != 0.0 && 0.0 <= Get(s.levels, k).onHand as real + quantity
    ensures AdjustRefusal(s, manager, k, quantity) == Some(Forbidden) <==> !manager
    ensures AdjustRefusal(s, manager, k, quantity) == Some(ZeroQuantity) <==> manager && quantity == 0.0
    ensures AdjustRefusal(s, manager, k, quantity) in {None, Some(Forbidden), Some(ZeroQuantity), Some(NegativeOnHand)}
  {
  }

  /** It moves one level by the quantity, to the nearest hundredth, writes one row, and nothing else. */
  lemma AdjustDoes(s: State, manager: bool, k: Key, quantity: real, s': State)
    requires Inv(s) && Adjusts(s, manager, k, quantity, s')
    ensures s' == s.(levels := s'.levels, ledger := s'.ledger) && |s'.ledger| == |s.ledger| + 1 && s.ledger <= s'.ledger
    ensures var t := s'.ledger[|s.ledger|];
            && t.kind == ADJUSTMENT && t.key == k && t.source == Manual && (t.inbound <==> 0.0 < quantity)
            && t.quantity as real - 0.5 <= quantity <= t.quantity as real + 0.5
    ensures forall j | j != k :: Get(s'.levels, j) == Get(s.levels, j)
    ensures var l, l' := Get(s.levels, k), Get(s'.levels, k);
            && l' == l.(onHand := l'.onHand)
            && l'.onHand as real - 0.5 <= l.onHand as real + quantity < l'.onHand as real + 0.5
  {
    var xs := [Ask(k, quantity)];
    assert NonNegativeLevel(Get(s.levels, k));
    forall j
      ensures Get(s'.levels, j) == if j == k then Get(s.levels, k).(onHand := Nearest(Get(s.levels, k).onHand as real + quantity))
                                   else Get(s.levels, j)
    {
      ColumnSingle(Get(s.levels, j).onHand, xs, Reloads(s.autoflush, s.levels, xs, Others), k, j);
      NearestWhole(Get(s.levels, j).damaged);
    }
    CentsOf(Get(s.levels, k).onHand as real + quantity);
    CentsOf(quantity);
    CentsOf(-quantity);
  }

  // ---- goods receipts ----

  /** The one place a product has in a warehouse: its only level row there, or the only bin where it has none. */
  ghost predicate OnlyPlace(levels: Table, warehouse: nat, product: nat, bins: set<Bin>, k: Key) {
    k.product == product
    && if exists j :: j in levels && j.product == product && j.bin.warehouse == warehouse
       then k in levels && k.bin.warehouse == warehouse
            && forall j <- levels | j.product == product && j.bin.warehouse == warehouse :: j == k
       else bins == {k.bin}
  }

  lemma PlacedIs(levels: Table, warehouse: nat, product: nat, bins: set<Bin>, k: Key)
    ensures Placed(levels, warehouse, product, bins, k) <==> OnlyPlace(levels, warehouse, product, bins, k)
  {
    var rows := StockRows(levels, warehouse, product);
    assert forall j :: j in rows <==> j in levels && j.product == product && j.bin.warehouse == warehouse;
    if exists j :: j in rows {
      assert rows != {};
      if OnlyPlace(levels, warehouse, product, bins, k) {
        assert rows == {k};
      }
    } else {
      assert rows == {};
    }
  }

  /** A goods receipt finds its level exactly when there is one such place. */
  lemma DisposesIff(s: State, warehouse: nat, product: nat, bins: set<Bin>)
    ensures DisposeRefusal(s, warehouse, product, bins) == None
       <==> exists k :: OnlyPlace(s.levels, warehouse, product, bins, k)
    ensures DisposeRefusal(s, warehouse, product, bins) == Some(NoBin)
       <==> bins == {} && forall j <- s.levels :: j.product != product || j.bin.warehouse != warehouse
    ensures DisposeRefusal(s, warehouse, product, bins) in {None, Some(NoBin), Some(Ambiguous)}
  {
    var rows := StockRows(s.levels, warehouse, product);
    assert forall j :: j in rows <==> j in s.levels && j.product == product && j.bin.warehouse == warehouse;
    assert rows == {} <==> forall j :: j !in rows;
    if |rows| == 1 {
      var k :| k in rows;
      Single(rows, k);
      PlacedIs(s.levels, warehouse, product, bins, k);
    } else if rows == {} && |bins| == 1 {
      var b :| b in bins;
      Single(bins, b);
      PlacedIs(s.levels, warehouse, product, bins, Key(product, b));
    }
    if k :| OnlyPlace(s.levels, warehouse, product, bins, k) {
      PlacedIs(s.levels, warehouse, product, bins, k);
    }
  }

  /** What a quantity that comes in adds to a whole column. */
  function Added(quantity: real): int {
    if quantity <= 0.0 then 0 else (quantity + 0.5).Floor
  }

  /** `k` takes what was accepted and what was damaged, with one row for the accepted quantity. */
  ghost predicate TakesIn(s: State, k: Key, accepted: real, damaged: real, s': State) {
    && (forall j | j != k :: Get(s'.levels, j) == Get(s.levels, j))
    && Get(s'.levels, k) == Get(s.levels, k).(onHand := Get(s.levels, k).onHand + Added(accepted),
                                               damaged := Get(s.levels, k).damaged + Added(damaged))
    && s' == s.(levels := s'.levels, ledger := s'.ledger)
    && s'.ledger == s.ledger + if 0.0 < accepted then [Txn(RECEIPT, k, true, Added(accepted), Grn)] else []
  }

  /** Accepted goods go on hand with one row, damaged goods into their own column with none. */
  lemma DisposeDoes(s: State, warehouse: nat, product: nat, bins: set<Bin>, accepted: real, damaged: real, s': State)
    requires Inv(s) && Disposes(s, warehouse, product, bins, accepted, damaged, s')
    ensures exists k :: OnlyPlace(s.levels, warehouse, product, bins, k) && TakesIn(s, k, accepted, damaged, s')
  {
    var k :| Placed(s.levels, warehouse, product, bins, k)
             && Posts(s, Gain(k, accepted), Others, ReceiptRows(k, accepted), Gain(k, damaged), s');
    PlacedIs(s.levels, warehouse, product, bins, k);
    GainTakesIn(s, k, accepted, damaged, s');
  }

  lemma GainTakesIn(s: State, k: Key, accepted: real, damaged: real, s': State)
    requires NonNegativeLevels(s.levels)
    requires Posts(s, Gain(k, accepted), Others, ReceiptRows(k, accepted), Gain(k, damaged), s')
    ensures TakesIn(s, k, accepted, damaged, s')
  {
    var cuts := Reloads(s.autoflush, s.levels, Gain(k, accepted), Others);
    forall j
      ensures Get(s'.levels, j) == if j != k then Get(s.levels, j)
                                   else Get(s.levels, k).(onHand := Get(s.levels, k).onHand + Added(accepted),
                                                          damaged := Get(s.levels, k).damaged + Added(damaged))
    {
      assert NonNegativeLevel(Get(s.levels, j));
      GainedColumn(Get(s.levels, j).onHand, k, accepted, cuts, j);
      GainedDamage(Get(s.levels, j).damaged, k, damaged, j);
    }
  }

  lemma GainedColumn(h: nat, k: Key, quantity: real, cuts: seq<Reload>, j: Key)
    requires |cuts| == |Gain(k, quantity)|
    ensures Column(h, Gain(k, quantity), cuts, j) == if j == k then h + Added(quantity) else h
  {
    ColumnSingle(h, Gain(k, quantity), cuts, k, j);
    if 0.0 < quantity {
      CentsAbove(h, quantity);
    }
  }

  lemma GainedDamage(h: nat, k: Key, quantity: real, j: Key)
    ensures Nearest(h as real + Asked(Gain(k, quantity), j)) == if j == k then h + Added(quantity) else h
  {
    AskedOnce(Gain(k, quantity), k, j);
    NearestWhole(h);
    if 0.0 < quantity {
      CentsAbove(h, quantity);
    }
  }

  // ---- issues ----

  /** What the first `n` lines issue from level `k`. */
  function IssuedTo(lines: seq<Ask>, n: nat, k: Key): real
    requires n <= |lines|
  {
    if n == 0 then 0.0
    else IssuedTo(lines, n - 1, k) + if lines[n - 1].key == k && 0.0 < lines[n - 1].amount then lines[n - 1].amount else 0.0
  }

  lemma WholeSum(a: real, b: real)
    requires IsWhole(a) && IsWhole(b)
    ensures IsWhole(a + b)
  {
    FloorIs(a + b, a.Floor + b.Floor);
  }

  lemma {:induction false} IssuedWhole(lines: seq<Ask>, n: nat, k: Key)
    requires n <= |lines| && forall i | 0 <= i < |lines| :: IsWhole(lines[i].amount)
    ensures IsWhole(IssuedTo(lines, n, k)) && 0.0 <= IssuedTo(lines, n, k)
  {
    if n != 0 {
      IssuedWhole(lines, n - 1, k);
      WholeSum(IssuedTo(lines, n - 1, k), lines[n - 1].amount);
    }
  }

  lemma {:induction false} IssuedColumn(h: int, lines: seq<Ask>, cuts: seq<Reload>, n: nat, k: Key)
    requires n <= |lines| == |cuts| && forall i | 0 <= i < |lines| :: IsWhole(lines[i].amount)
    ensures ColumnTo(h, Taken(lines), cuts, n, k) == h as real - IssuedTo(lines, n, k)
    ensures IsWhole(IssuedTo(lines, n, k)) && 0.0 <= IssuedTo(lines, n, k)
  {
    IssuedWhole(lines, n, k);
    if n != 0 {
      IssuedColumn(h, lines, cuts, n - 1, k);
      NearestWhole(h - IssuedTo(lines, n - 1, k).Floor);
    }
  }

  lemma {:induction false} IssuedGrows(lines: seq<Ask>, i: nat, n: nat, k: Key)
    requires i <= n <= |lines|
    ensures IssuedTo(lines, i, k) <= IssuedTo(lines, n, k)
  {
    if i != n {
      IssuedGrows(lines, i, n - 1, k);
    }
  }

  lemma {:induction false} LastIssue(lines: seq<Ask>, n: nat, k: Key) returns (i: nat)
    requires n <= |lines| && 0.0 < IssuedTo(lines, n, k)
    ensures i < n && lines[i].key == k && 0.0 < lines[i].amount && IssuedTo(lines, i + 1, k) == IssuedTo(lines, n, k)
  {
    if lines[n - 1].key == k && 0.0 < lines[n - 1].amount {
      i := n - 1;
    } else {
      i := LastIssue(lines, n - 1, k);
    }
  }

  /** Quantities with two decimals are issued exactly when no level is asked for more than is on hand, neither
      reserved nor damaged; each level then loses what is issued from it. */
  lemma {:induction false} IssuesIff(s: State, lines: seq<Ask>)
    requires forall i | 0 <= i < |lines| :: IsWhole(lines[i].amount)
    ensures IssueRefusal(s, lines) == None <==>
              forall k | 0.0 < IssuedTo(lines, |lines|, k) ::
                IssuedTo(lines, |lines|, k)
                <= (Get(s.levels, k).onHand - Get(s.levels, k).reserved - Get(s.levels, k).damaged) as real
    ensures IssueRefusal(s, lines) == None || IssueRefusal(s, lines) == Some(Insufficient)
  {
    if IssueRefusal(s, lines) == None {
      forall k | 0.0 < IssuedTo(lines, |lines|, k)
        ensures IssuedTo(lines, |lines|, k)
             <= (Get(s.levels, k).onHand - Get(s.levels, k).reserved - Get(s.levels, k).damaged) as real
      {
        var i := LastIssue(lines, |lines|, k);
        ShortIs(s, lines, i);
      }
    }
    if forall k | 0.0 < IssuedTo(lines, |lines|, k) ::
         IssuedTo(lines, |lines|, k) <= (Get(s.levels, k).onHand - Get(s.levels, k).reserved - Get(s.levels, k).damaged) as real {
      forall i | 0 <= i < |lines|
        ensures !Short(s.levels, lines, IssueReloads(s.autoflush, s.levels, lines), i)
      {
        ShortIs(s, lines, i);
        IssuedGrows(lines, i + 1, |lines|, lines[i].key);
        IssuedWhole(lines, i, lines[i].key);
      }
    }
  }

  lemma {:induction false} ShortIs(s: State, lines: seq<Ask>, i: nat)
    requires i < |lines| && forall j | 0 <= j < |lines| :: IsWhole(lines[j].amount)
    ensures var k := lines[i].key;
            Short(s.levels, lines, IssueReloads(s.autoflush, s.levels, lines), i)
            <==> && 0.0 < lines[i].amount
                 && (Get(s.levels, k).onHand - Get(s.levels, k).reserved - Get(s.levels, k).damaged) as real
                    < IssuedTo(lines, i + 1, k)
  {
    var k := lines[i].key;
    IssuedColumn(Get(s.levels, k).onHand, lines, IssueReloads(s.autoflush, s.levels, lines), i, k);
    NearestWhole(Get(s.levels, k).onHand - IssuedTo(lines, i, k).Floor);
  }

  lemma {:induction false} IssueDoes(s: State, lines: seq<Ask>, s': State, k: Key)
    requires Issues(s, lines, s') && forall i | 0 <= i < |lines| :: IsWhole(lines[i].amount)
    ensures Get(s'.levels, k) == Get(s.levels, k).(onHand := Get(s'.levels, k).onHand)
    ensures Get(s'.levels, k).onHand as real == Get(s.levels, k).onHand as real - IssuedTo(lines, |lines|, k)
    ensures s' == s.(levels := s'.levels, ledger := s'.ledger)
  {
    IssuedColumn(Get(s.levels, k).onHand, lines, IssueReloads(s.autoflush, s.levels, lines), |lines|, k);
    NearestWhole(Get(s.levels, k).onHand - IssuedTo(lines, |lines|, k).Floor);
    NearestWhole(Get(s.levels, k).damaged);
  }

  lemma {:induction false} NeverBelow(s: State, lines: seq<Ask>, n: nat, k: Key)
    requires NonNegativeLevels(s.levels) && IssueRefusal(s, lines) == None && n <= |lines|
    ensures var l := Get(s.levels, k);
            var column := ColumnTo(l.onHand, Taken(lines), IssueReloads(s.autoflush, s.levels, lines), n, k);
            (exists i | 0 <= i < n :: lines[i].key == k && 0.0 < lines[i].amount) ==> (l.reserved + l.damaged) as real <= column
  {
    if n != 0 {
      var cuts := IssueReloads(s.autoflush, s.levels, lines);
      NeverBelow(s, lines, n - 1, k);
      assert !Short(s.levels, lines, cuts, n - 1);
      var before := ColumnTo(Get(s.levels, k).onHand, Taken(lines), cuts, n - 1, k);
      if (Get(s.levels, k).reserved + Get(s.levels, k).damaged) as real <= before {
        NearestAtLeast(Get(s.levels, k).reserved + Get(s.levels, k).damaged, before);
      }
    }
  }

  lemma NearestAtLeast(n: int, x: real)
    requires n as real <= x
    ensures n <= Nearest(x)
  {
    CentsOf(x);
    CentsOf(-x);
  }

  /** Whatever decimals an issue carries and however they are rounded, it leaves on every level it draws on what
      is reserved and damaged there. */
  lemma IssueLeavesHeld(s: State, lines: seq<Ask>, s': State, i: nat)
    requires Inv(s) && Issues(s, lines, s') && i < |lines| && 0.0 < lines[i].amount
    ensures var l' := Get(s'.levels, lines[i].key); l'.reserved + l'.damaged <= l'.onHand
  {
    var k := lines[i].key;
    NeverBelow(s, lines, |lines|, k);
    NearestAtLeast(Get(s.levels, k).reserved + Get(s.levels, k).damaged,
                   ColumnTo(Get(s.levels, k).onHand, Taken(lines), IssueReloads(s.autoflush, s.levels, lines), |lines|, k));
    NearestWhole(Get(s.levels, k).damaged);
  }

  /** A session that flushes by itself rounds each line of an issue on its own: twice 0.005 from a level with
      1.00 leaves 1.00, where the application's session leaves 0.99. */
  lemma IssuedEachOrTogether(s: State, k: Key, s': State)
    requires Get(s.levels, k) == Level(100, 0, 0, 0) && k in s.levels && Issues(s, [Ask(k, 0.5), Ask(k, 0.5)], s')
    ensures Get(s'.levels, k).onHand == if s.autoflush then 100 else 99
  {
    var lines := [Ask(k, 0.5), Ask(k, 0.5)];
    var cuts := IssueReloads(s.autoflush, s.levels, lines);
    FloorIs(100.0, 100);
    FloorIs(99.5, 99);
    assert ColumnTo(100, Taken(lines), cuts, 1, k) == 99.5;
    assert Nearest(99.5) == 100;
    if s.autoflush {
      assert cuts == [Everything, Everything];
      assert ColumnTo(100, Taken(lines), cuts, 2, k) == 99.5;
    } else {
      assert cuts == [Never, Never];
      assert ColumnTo(100, Taken(lines), cuts, 2, k) == 99.0;
      NearestWhole(99);
    }
  }
}
