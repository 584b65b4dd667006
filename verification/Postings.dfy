/** Stock that enters or leaves from outside: adjustments, goods receipts and issues. */
module Postings {
  import opened Levels
  import opened Tables
  import opened StockInvariant
  import opened Rounding
  import opened Demands

  ghost function AdjustRefusal(s: State, manager: bool, k: Key, quantity: real): Option<Error> {
    if !manager then Some(Forbidden)
    else if quantity == 0.0 then Some(ZeroQuantity)
    else if Get(s.levels, k).onHand as real + quantity < 0.0 then Some(NegativeOnHand)
    else None
  }

  function StockRows(levels: Table, warehouse: nat, product: nat): set<Key> {
    set k | k in levels && k.product == product && k.bin.warehouse == warehouse
  }

  /** A goods receipt posts to the one level row the product has in the warehouse, or to the one bin of
      a warehouse where it has none; with several rows, or several bins to choose from, it fails. */
  ghost predicate Placed(levels: Table, warehouse: nat, product: nat, bins: set<Bin>, k: Key) {
    var rows := StockRows(levels, warehouse, product);
    rows == {k} || (rows == {} && bins == {k.bin} && k.product == product)
  }

  ghost function DisposeRefusal(s: State, warehouse: nat, product: nat, bins: set<Bin>): Option<Error> {
    var rows := StockRows(s.levels, warehouse, product);
    if |rows| == 1 || (rows == {} && |bins| == 1) then None
    else if rows == {} && bins == {} then Some(NoBin)
    else Some(Ambiguous)
  }

  /** What the lines of an issue take; a line with nothing to issue is skipped. */
  function Taken(lines: seq<Ask>): (xs: seq<Ask>)
    ensures |xs| == |lines|
  {
    seq(|lines|, i requires 0 <= i < |lines| => Ask(lines[i].key, if 0.0 < lines[i].amount then -lines[i].amount else 0.0))
  }

  /** No row is referred to between two lines of an issue. */
  function IssueReloads(autoflush: bool, levels: Table, lines: seq<Ask>): (cuts: seq<Reload>)
    ensures |cuts| == |lines|
  {
    Reloads(autoflush, levels, Taken(lines), Everything)
  }

  /** What line `i` finds available after the lines before it. */
  function FreeFor(levels: Table, lines: seq<Ask>, cuts: seq<Reload>, i: nat): real
    requires i < |lines| == |cuts|
  {
    var k := lines[i].key;
    var level := Get(levels, k);
    Reread(cuts[i], true, ColumnTo(level.onHand, Taken(lines), cuts, i, k)) - (level.reserved + level.damaged) as real
  }

  /** Line `i` wants more than is available by then. */
  predicate Short(levels: Table, lines: seq<Ask>, cuts: seq<Reload>, i: nat)
    requires i < |lines| == |cuts|
  {
    0.0 < lines[i].amount && FreeFor(levels, lines, cuts, i) < lines[i].amount
  }

  /** The first `n` lines all find enough. */
  predicate Served(levels: Table, lines: seq<Ask>, cuts: seq<Reload>, n: nat)
    requires n <= |lines| == |cuts|
  {
    forall i | 0 <= i < n :: !Short(levels, lines, cuts, i)
  }

  function IssueRefusal(s: State, lines: seq<Ask>): Option<Error> {
    if Served(s.levels, lines, IssueReloads(s.autoflush, s.levels, lines), |lines|) then None else Some(Insufficient)
  }

  /** `on_hand` of every level takes the lines `xs`. */
  ghost predicate Takes(levels: Table, levels': Table, xs: seq<Ask>, cuts: seq<Reload>)
    requires |xs| == |cuts|
  {
    forall k :: Get(levels', k) == Get(levels, k).(onHand := Column(Get(levels, k).onHand, xs, cuts, k))
  }

  /** `rows` carry the lines `xs` to the ledger, `on_hand` takes the lines and `damaged` those of
      `spoilt`, rounded whenever they are written. */
  ghost predicate Posts(s: State, xs: seq<Ask>, c: Reload, rows: seq<Txn>, spoilt: seq<Ask>, s': State) {
    && s' == s.(levels := s'.levels, ledger := s.ledger + rows)
    && RowsCarry(rows, xs)
    && (forall t <- rows :: t.kind != TRANSFER)
    && forall k :: Get(s'.levels, k) == Get(s.levels, k).(
                     onHand := Column(Get(s.levels, k).onHand, xs, Reloads(s.autoflush, s.levels, xs, c), k),
                     damaged := Nearest(Get(s.levels, k).damaged as real + Asked(spoilt, k)))
  }

  function AdjustRow(k: Key, quantity: real): Txn {
    Txn(ADJUSTMENT, k, quantity > 0.0, Nearest(quantity), Manual)
  }

  ghost predicate Adjusts(s: State, manager: bool, k: Key, quantity: real, s': State) {
    && AdjustRefusal(s, manager, k, quantity) == None
    && Posts(s, [Ask(k, quantity)], Others, [AdjustRow(k, quantity)], [], s')
  }

  /** A quantity that is not positive is not posted. */
  function Gain(k: Key, quantity: real): seq<Ask> {
    if quantity > 0.0 then [Ask(k, quantity)] else []
  }

  function ReceiptRows(k: Key, quantity: real): seq<Txn> {
    if quantity > 0.0 then [Txn(RECEIPT, k, true, Nearest(quantity), Grn)] else []
  }

  /** A disposed goods-receipt line; only the accepted quantity is worth a ledger row. */
  ghost predicate Disposes(s: State, warehouse: nat, product: nat, bins: set<Bin>, accepted: real, damaged: real, s': State) {
    && DisposeRefusal(s, warehouse, product, bins) == None
    && exists k :: Placed(s.levels, warehouse, product, bins, k)
                   && Posts(s, Gain(k, accepted), Others, ReceiptRows(k, accepted), Gain(k, damaged), s')
  }

  function IssueRow(line: Ask): Txn {
    Txn(ISSUE, line.key, false, Nearest(-line.amount), Return)
  }

  /** The rows of the first `n` lines. */
  function IssueRows(lines: seq<Ask>, n: nat): seq<Txn>
    requires n <= |lines|
  {
    if n == 0 then [] else IssueRows(lines, n - 1) + if 0.0 < lines[n - 1].amount then [IssueRow(lines[n - 1])] else []
  }

  ghost predicate Issues(s: State, lines: seq<Ask>, s': State) {
    && IssueRefusal(s, lines) == None
    && Posts(s, Taken(lines), Everything, IssueRows(lines, |lines|), [], s')
  }

  // ---- every posting keeps the invariant ----

  lemma PostKeeps(s: State, xs: seq<Ask>, c: Reload, rows: seq<Txn>, spoilt: seq<Ask>, s': State)
    requires Inv(s) && Posts(s, xs, c, rows, spoilt, s')
    requires Rising(spoilt) && forall k :: 0 <= Column(Get(s.levels, k).onHand, xs, Reloads(s.autoflush, s.levels, xs, c), k)
    ensures Inv(s')
  {
    forall k
      ensures NonNegativeLevel(Get(s'.levels, k))
    {
      assert NonNegativeLevel(Get(s.levels, k));
      AskGrows(spoilt, 0, |spoilt|, k);
    }
    CountsKeep(s.counts, s.ledger, rows);
    BalancedOutside(s.ledger, rows, s.transfers);
  }

  /** Whatever is posted, each level's snapshot moves away from its ledger by the slip of the lines on
      it, and `reserved` stays where it was. */
  lemma PostGap(s: State, xs: seq<Ask>, c: Reload, rows: seq<Txn>, spoilt: seq<Ask>, s': State, k: Key)
    requires Posts(s, xs, c, rows, spoilt, s')
    ensures OnHandGap(s'.levels, s'.ledger, k)
         == OnHandGap(s.levels, s.ledger, k) + Slip(Get(s.levels, k).onHand, xs, Reloads(s.autoflush, s.levels, xs, c), k)
    ensures HeldGap(s'.levels, s'.items, k) == HeldGap(s.levels, s.items, k)
  {
    PostingGap(s.levels, s'.levels, s.ledger, rows, xs, Reloads(s.autoflush, s.levels, xs, c), k);
  }

  /** One line, or none: the column takes its amount. */
  lemma ColumnSingle(h: int, xs: seq<Ask>, cuts: seq<Reload>, k: Key, j: Key)
    requires |xs| == |cuts| <= 1 && (xs != [] ==> xs[0].key == k)
    ensures Column(h, xs, cuts, j) == if xs != [] && j == k then Nearest(h as real + xs[0].amount) else h
  {
    NearestWhole(h);
    if xs != [] && j == k {
      ColumnOne(h, xs, cuts, 1, 0);
    } else {
      ColumnNone(h, xs, cuts, |xs|, j);
    }
  }

  lemma AdjustKeeps(s: State, manager: bool, k: Key, quantity: real, s': State)
    requires Inv(s) && Adjusts(s, manager, k, quantity, s')
    ensures Inv(s')
  {
    var xs := [Ask(k, quantity)];
    forall j
      ensures 0 <= Column(Get(s.levels, j).onHand, xs, Reloads(s.autoflush, s.levels, xs, Others), j)
    {
      assert NonNegativeLevel(Get(s.levels, j));
      ColumnSingle(Get(s.levels, j).onHand, xs, Reloads(s.autoflush, s.levels, xs, Others), k, j);
    }
    PostKeeps(s, xs, Others, [AdjustRow(k, quantity)], [], s');
  }

  /** An adjustment keeps snapshot and ledger together unless it takes a quantity that ends in half a
      hundredth: then the snapshot comes to lie one hundredth higher above the ledger, and stays there
      until a posting slips the other way. */
  lemma AdjustSlips(s: State, manager: bool, k: Key, quantity: real, s': State)
    requires Inv(s) && Adjusts(s, manager, k, quantity, s')
    ensures OnHandGap(s'.levels, s'.ledger, k)
         == OnHandGap(s.levels, s.ledger, k) + if quantity < 0.0 && EndsInHalf(quantity) then 1 else 0
    ensures forall j | j != k :: OnHandGap(s'.levels, s'.ledger, j) == OnHandGap(s.levels, s.ledger, j)
  {
    var xs := [Ask(k, quantity)];
    var cuts := Reloads(s.autoflush, s.levels, xs, Others);
    assert NonNegativeLevel(Get(s.levels, k));
    SlipOne(Get(s.levels, k).onHand, xs, cuts, 0);
    PostGap(s, xs, Others, [AdjustRow(k, quantity)], [], s', k);
    forall j | j != k
      ensures OnHandGap(s'.levels, s'.ledger, j) == OnHandGap(s.levels, s.ledger, j)
    {
      SlipNone(Get(s.levels, j).onHand, xs, cuts, j);
      PostGap(s, xs, Others, [AdjustRow(k, quantity)], [], s', j);
    }
  }

  /** One unit on hand, adjusted by -0.005: the column rounds 0.995 back to 1.00, the row says -0.01. */
  lemma HalfAdjustmentSlips(s: State, k: Key, s': State)
    requires Inv(s) && Get(s.levels, k).onHand == 100 && Adjusts(s, true, k, -0.5, s')
    ensures Get(s'.levels, k).onHand == 100 && s'.ledger[|s.ledger|].quantity == -1
    ensures OnHandGap(s'.levels, s'.ledger, k) == OnHandGap(s.levels, s.ledger, k) + 1
  {
    FloorIs(-0.5, -1);
    FloorIs(100.0, 100);
    FloorIs(1.0, 1);
    ColumnSingle(100, [Ask(k, -0.5)], Reloads(s.autoflush, s.levels, [Ask(k, -0.5)], Others), k, k);
    AdjustSlips(s, true, k, -0.5, s');
  }

  lemma DisposeKeeps(s: State, warehouse: nat, product: nat, bins: set<Bin>, accepted: real, damaged: real, s': State)
    requires Inv(s) && Disposes(s, warehouse, product, bins, accepted, damaged, s')
    ensures Inv(s')
    ensures forall j :: OnHandGap(s'.levels, s'.ledger, j) == OnHandGap(s.levels, s.ledger, j)
  {
    var k :| Placed(s.levels, warehouse, product, bins, k)
             && Posts(s, Gain(k, accepted), Others, ReceiptRows(k, accepted), Gain(k, damaged), s');
    GainKeeps(s, k, accepted, damaged, s');
  }

  /** Stock that comes in on one line never slips. */
  lemma GainKeeps(s: State, k: Key, accepted: real, damaged: real, s': State)
    requires Inv(s) && Posts(s, Gain(k, accepted), Others, ReceiptRows(k, accepted), Gain(k, damaged), s')
    ensures Inv(s')
    ensures forall j :: OnHandGap(s'.levels, s'.ledger, j) == OnHandGap(s.levels, s.ledger, j)
  {
    var xs := Gain(k, accepted);
    var cuts := Reloads(s.autoflush, s.levels, xs, Others);
    forall j
      ensures 0 <= Column(Get(s.levels, j).onHand, xs, cuts, j)
      ensures OnHandGap(s'.levels, s'.ledger, j) == OnHandGap(s.levels, s.ledger, j)
    {
      assert NonNegativeLevel(Get(s.levels, j));
      ColumnSingle(Get(s.levels, j).onHand, xs, cuts, k, j);
      PostGap(s, xs, Others, ReceiptRows(k, accepted), Gain(k, damaged), s', j);
      if xs != [] && j == k {
        SlipOne(Get(s.levels, j).onHand, xs, cuts, 0);
      } else {
        SlipNone(Get(s.levels, j).onHand, xs, cuts, j);
      }
    }
    PostKeeps(s, xs, Others, ReceiptRows(k, accepted), Gain(k, damaged), s');
  }

  /** Every line of an issue that goes through leaves what is reserved and damaged on its level. */
  lemma {:induction false} IssueCovered(s: State, lines: seq<Ask>, n: nat, k: Key)
    requires NonNegativeLevels(s.levels) && IssueRefusal(s, lines) == None && n <= |lines|
    ensures 0.0 <= ColumnTo(Get(s.levels, k).onHand, Taken(lines), IssueReloads(s.autoflush, s.levels, lines), n, k)
  {
    assert NonNegativeLevel(Get(s.levels, k));
    if n != 0 {
      IssueCovered(s, lines, n - 1, k);
      assert !Short(s.levels, lines, IssueReloads(s.autoflush, s.levels, lines), n - 1);
    }
  }

  lemma IssueKeeps(s: State, lines: seq<Ask>, s': State)
    requires Inv(s) && Issues(s, lines, s')
    ensures Inv(s')
  {
    forall k
      ensures 0 <= Column(Get(s.levels, k).onHand, Taken(lines), IssueReloads(s.autoflush, s.levels, lines), k)
    {
      IssueCovered(s, lines, |lines|, k);
    }
    PostKeeps(s, Taken(lines), Everything, IssueRows(lines, |lines|), [], s');
  }

  /** A line that is alone on its level finds what the tables say. */
  lemma AloneFits(s: State, lines: seq<Ask>, i: nat)
    requires IssueRefusal(s, lines) == None && i < |lines|
    requires forall j | 0 <= j < |lines| && j != i :: lines[j].key != lines[i].key
    ensures 0.0 < lines[i].amount ==> lines[i].amount <= Available(s.levels, lines[i].key) as real
  {
    var cuts, k := IssueReloads(s.autoflush, s.levels, lines), lines[i].key;
    assert !Short(s.levels, lines, cuts, i);
    ColumnNone(Get(s.levels, k).onHand, Taken(lines), cuts, i, k);
    NearestWhole(Get(s.levels, k).onHand);
  }

  lemma AloneSlips(s: State, lines: seq<Ask>, i: nat)
    requires NonNegativeLevels(s.levels) && IssueRefusal(s, lines) == None && i < |lines| && 0.0 < lines[i].amount
    requires forall j | 0 <= j < |lines| && j != i :: lines[j].key != lines[i].key
    ensures var h := Get(s.levels, lines[i].key).onHand;
            Slip(h, Taken(lines), IssueReloads(s.autoflush, s.levels, lines), lines[i].key)
            == if EndsInHalf(lines[i].amount) then 1 else 0
  {
    assert NonNegativeLevel(Get(s.levels, lines[i].key));
    AloneFits(s, lines, i);
    SlipOne(Get(s.levels, lines[i].key).onHand, Taken(lines), IssueReloads(s.autoflush, s.levels, lines), i);
    HalfNegated(lines[i].amount);
  }

  /** A level that one line of the issue draws on slips exactly when the line ends in half a hundredth. */
  lemma IssueSlips(s: State, lines: seq<Ask>, s': State, i: nat)
    requires Inv(s) && Issues(s, lines, s') && i < |lines| && 0.0 < lines[i].amount
    requires forall j | 0 <= j < |lines| && j != i :: lines[j].key != lines[i].key
    ensures OnHandGap(s'.levels, s'.ledger, lines[i].key)
         == OnHandGap(s.levels, s.ledger, lines[i].key) + if EndsInHalf(lines[i].amount) then 1 else 0
  {
    AloneSlips(s, lines, i);
    PostGap(s, Taken(lines), Everything, IssueRows(lines, |lines|), [], s', lines[i].key);
  }

  /** A request that loads one level and posts at most one line to each column of it. */
  lemma SingleIsPosted(s: State, xs: seq<Ask>, rows: seq<Txn>, spoilt: seq<Ask>, k: Key, s': State)
    requires |xs| == |rows| <= 1 && |spoilt| <= 1 && forall x <- xs + spoilt :: x.key == k
    requires forall t <- rows :: t.kind != TRANSFER && t.key == k && t.quantity == Nearest(xs[0].amount)
    requires var l := Get(s.levels, k);
             s' == s.(ledger := s.ledger + rows, levels := s.levels[k := l.(
                      onHand := if xs == [] then l.onHand else Nearest(l.onHand as real + xs[0].amount),
                      damaged := if spoilt == [] then l.damaged else Nearest(l.damaged as real + spoilt[0].amount))])
    ensures Posts(s, xs, Others, rows, spoilt, s')
  {
    LinesCarry(rows, xs);
    forall j
      ensures Get(s'.levels, j).onHand == Column(Get(s.levels, j).onHand, xs, Reloads(s.autoflush, s.levels, xs, Others), j)
      ensures Get(s'.levels, j).damaged == Nearest(Get(s.levels, j).damaged as real + Asked(spoilt, j))
    {
      ColumnSingle(Get(s.levels, j).onHand, xs, Reloads(s.autoflush, s.levels, xs, Others), k, j);
      AskedOnce(spoilt, k, j);
      NearestWhole(Get(s.levels, j).damaged);
    }
  }

  lemma AskedOnce(xs: seq<Ask>, k: Key, j: Key)
    requires |xs| <= 1 && (xs != [] ==> xs[0].key == k)
    ensures Asked(xs, j) == if xs != [] && j == k then xs[0].amount else 0.0
  {
    assert xs != [] ==> AskTo(xs, 0, j) == 0.0;
  }

  method Place(s: State, warehouse: nat, product: nat, bins: set<Bin>) returns (r: Option<Error>, k: Key)
    ensures r == DisposeRefusal(s, warehouse, product, bins)
    ensures r.None? ==> Placed(s.levels, warehouse, product, bins, k)
  {
    var rows := StockRows(s.levels, warehouse, product);
    k := Key(product, Bin(warehouse, 0));
    if |rows| > 1 { return Some(Ambiguous), k; }
    if rows != {} {
      k :| k in rows;
      Single(rows, k);
      return None, k;
    }
    if bins == {} { return Some(NoBin), k; }
    if |bins| > 1 { return Some(Ambiguous), k; }
    var bin :| bin in bins;
    Single(bins, bin);
    return None, Key(product, bin);
  }

  lemma Single<T>(s: set<T>, x: T)
    requires x in s && |s| <= 1
    ensures s == {x} && |s| == 1
  {
    assert |s - {x}| == |s| - 1;
    assert s - {x} == {};
  }

  // ---- the loop over issued lines, on the rows the session has loaded ----

  /** The loaded rows after the first `n` lines took their quantities, and the level rows that exist. */
  ghost predicate Drained(levels: Table, session: Session, rows: set<Key>, lines: seq<Ask>, cuts: seq<Reload>, n: nat)
    requires n <= |lines| == |cuts|
  {
    && RowsBy(levels, rows, Taken(lines), n)
    && forall k :: Peek(levels, session, k) == Peek(levels, map[], k).(
                     onHand := ColumnTo(Get(levels, k).onHand, Taken(lines), cuts, n, k))
  }

  /** The loaded rows when the session turns to line `n`. */
  lemma {:induction false} DrainReopened(levels: Table, session: Session, rows: set<Key>, lines: seq<Ask>, cuts: seq<Reload>, n: nat, k: Key)
    requires n < |lines| == |cuts| && Drained(levels, session, rows, lines, cuts, n) && cuts[n] != Others
    ensures Peek(levels, Reopened(session, cuts[n], lines[n].key), k) == Peek(levels, map[], k).(
              onHand := Reread(cuts[n], true, ColumnTo(Get(levels, k).onHand, Taken(lines), cuts, n, k)))
  {
    ReopenedPeek(levels, session, cuts[n], lines[n].key, k);
    NearestWhole(Get(levels, k).reserved);
    NearestWhole(Get(levels, k).damaged);
    NearestWhole(Get(levels, k).inTransit);
  }

  lemma DrainNext(levels: Table, session: Session, rows: set<Key>, lines: seq<Ask>, cuts: seq<Reload>, n: nat)
    requires n < |lines| == |cuts| && Drained(levels, session, rows, lines, cuts, n) && cuts[n] != Others
    ensures var x := lines[n];
            var session1 := Reopened(session, cuts[n], x.key);
            var l := Peek(levels, session1, x.key);
            && Free(levels, session1, x.key) == FreeFor(levels, lines, cuts, n)
            && Drained(levels, if 0.0 < x.amount then session1[x.key := l.(onHand := l.onHand - x.amount)] else session1,
                       rows + {x.key}, lines, cuts, n + 1)
  {
    RowsNext(levels, rows, Taken(lines), n);
    forall k
      ensures Peek(levels, Reopened(session, cuts[n], lines[n].key), k) == Peek(levels, map[], k).(
                onHand := Reread(cuts[n], true, ColumnTo(Get(levels, k).onHand, Taken(lines), cuts, n, k)))
    {
      DrainReopened(levels, session, rows, lines, cuts, n, k);
    }
  }

  /** One line: nothing to issue, too little available, or the posting. */
  method IssueLine(autoflush: bool, levels: Table, ghost lines: seq<Ask>, ghost cuts: seq<Reload>, ghost i: nat, x: Ask,
                   session: Session, known: set<Key>, rows: seq<Txn>)
    returns (ok: bool, session': Session, known': set<Key>, rows': seq<Txn>)
    requires i < |lines| && x == lines[i] && rows == IssueRows(lines, i)
    requires cuts == IssueReloads(autoflush, levels, lines) && Drained(levels, session, known, lines, cuts, i)
    ensures ok <==> !Short(levels, lines, cuts, i)
    ensures ok ==> rows' == IssueRows(lines, i + 1) && Drained(levels, session', known', lines, cuts, i + 1)
  {
    DrainNext(levels, session, known, lines, cuts, i);
    RowsNext(levels, known, Taken(lines), i);
    ok, rows', known' := true, rows, known + {x.key};
    session' := Reopened(session, if autoflush || x.key !in known then Everything else Never, x.key);
    if x.amount > 0.0 {
      ok := Free(levels, session', x.key) >= x.amount;
      var level := Peek(levels, session', x.key);
      session' := session'[x.key := level.(onHand := level.onHand - x.amount)];
      rows' := rows + [IssueRow(x)];
    }
  }

  lemma ServedNext(levels: Table, lines: seq<Ask>, cuts: seq<Reload>, n: nat)
    requires n < |lines| == |cuts| && Served(levels, lines, cuts, n)
    ensures if Short(levels, lines, cuts, n) then !Served(levels, lines, cuts, |lines|) else Served(levels, lines, cuts, n + 1)
  {
  }

  lemma DrainNothing(levels: Table, lines: seq<Ask>, cuts: seq<Reload>)
    requires |lines| == |cuts|
    ensures Drained(levels, map[], levels.Keys, lines, cuts, 0) && Served(levels, lines, cuts, 0)
  {
  }

  lemma DrainedTakes(levels: Table, session: Session, known: set<Key>, lines: seq<Ask>, cuts: seq<Reload>)
    requires |cuts| == |lines| && Drained(levels, session, known, lines, cuts, |lines|)
    ensures Takes(levels, Flush(levels, session), Taken(lines), cuts)
  {
    forall k
      ensures Get(Flush(levels, session), k)
           == Get(levels, k).(onHand := Column(Get(levels, k).onHand, Taken(lines), cuts, k))
    {
      FlushGet(levels, session, k);
      NearestWhole(Get(levels, k).reserved);
      NearestWhole(Get(levels, k).damaged);
      NearestWhole(Get(levels, k).inTransit);
    }
  }

  /** The loop over the lines, and the flush after it. */
  method IssueLines(autoflush: bool, levels: Table, lines: seq<Ask>)
    returns (ok: bool, levels': Table, rows: seq<Txn>)
    ensures ok <==> Served(levels, lines, IssueReloads(autoflush, levels, lines), |lines|)
    ensures ok ==> rows == IssueRows(lines, |lines|)
    ensures RowsCarry(IssueRows(lines, |lines|), Taken(lines)) && forall t <- IssueRows(lines, |lines|) :: t.kind != TRANSFER
    ensures ok ==> Takes(levels, levels', Taken(lines), IssueReloads(autoflush, levels, lines))
  {
    ghost var cuts := IssueReloads(autoflush, levels, lines);
    var session: Session, known := map[], levels.Keys;
    IssuedRows(lines);
    ok, levels', rows := true, levels, [];
    DrainNothing(levels, lines, cuts);
    for i := 0 to |lines|
      invariant ok && Served(levels, lines, cuts, i)
      invariant rows == IssueRows(lines, i) && Drained(levels, session, known, lines, cuts, i)
    {
      ServedNext(levels, lines, cuts, i);
      ok, session, known, rows := IssueLine(autoflush, levels, lines, cuts, i, lines[i], session, known, rows);
      if !ok { return; }
    }
    levels' := Flush(levels, session);
    DrainedTakes(levels, session, known, lines, cuts);
  }

  lemma {:induction false} IssueRowsCarry(lines: seq<Ask>, n: nat, k: Key)
    requires n <= |lines|
    ensures Replay(IssueRows(lines, n), One(k)) == SumTo(Written(Taken(lines)), n, One(k))
    ensures forall t <- IssueRows(lines, n) :: t.kind == ISSUE
  {
    if n != 0 {
      IssueRowsCarry(lines, n - 1, k);
      if 0.0 < lines[n - 1].amount {
        ReplayConcat(IssueRows(lines, n - 1), [IssueRow(lines[n - 1])], One(k));
        assert ReplayTo([IssueRow(lines[n - 1])], 0, One(k)) == 0;
      } else {
        NearestWhole(0);
        assert IssueRows(lines, n) == IssueRows(lines, n - 1);
      }
    }
  }

  lemma {:induction false} IssuedRows(lines: seq<Ask>)
    ensures RowsCarry(IssueRows(lines, |lines|), Taken(lines))
    ensures forall t <- IssueRows(lines, |lines|) :: t.kind != TRANSFER
  {
    forall k
      ensures Replay(IssueRows(lines, |lines|), One(k)) == Sum(Written(Taken(lines)), One(k))
    {
      IssueRowsCarry(lines, |lines|, k);
    }
    IssueRowsCarry(lines, |lines|, Key(0, Bin(0, 0)));
  }

  lemma TakenIsPosted(s: State, xs: seq<Ask>, c: Reload, rows: seq<Txn>, s': State)
    requires RowsCarry(rows, xs) && forall t <- rows :: t.kind != TRANSFER
    requires Takes(s.levels, s'.levels, xs, Reloads(s.autoflush, s.levels, xs, c))
    requires s' == s.(levels := s'.levels, ledger := s.ledger + rows)
    ensures Posts(s, xs, c, rows, [], s')
  {
    forall k
      ensures Get(s'.levels, k).damaged == Nearest(Get(s.levels, k).damaged as real + Asked([], k))
    {
      NearestWhole(Get(s.levels, k).damaged);
    }
  }
}
