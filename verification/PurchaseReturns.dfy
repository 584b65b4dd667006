/** Goods the supplier sends back on a purchase return: how their postings leave the level rows. */
module PurchaseReturns {
  import opened Levels
  import opened Tables
  import opened StockInvariant
  import opened Rounding
  import opened Demands

  /** Confirming a receipt posts an ISSUE, as a delivery would; cancelling it posts the reverse. */
  function Row(x: Ask, back: bool): Txn {
    Txn(ISSUE, x.key, back, if back then Nearest(x.amount) else Nearest(-x.amount), Return)
  }

  function Rows(lines: seq<Ask>, back: bool): (rows: seq<Txn>)
    ensures |rows| == |lines|
  {
    seq(|lines|, i requires 0 <= i < |lines| => Row(lines[i], back))
  }

  /** What every line makes its level lose: all that is reserved or damaged there. */
  function Withheld(levels: Table, lines: seq<Ask>): (es: seq<Entry>)
    ensures |es| == |lines|
  {
    seq(|lines|, i requires 0 <= i < |lines| =>
      Entry(lines[i].key, Get(levels, lines[i].key).reserved + Get(levels, lines[i].key).damaged))
  }

  /** Line `i` finds its quantity available after the lines before it. */
  ghost predicate Enough(levels: Table, lines: seq<Ask>, i: nat)
    requires i < |lines|
  {
    lines[i].amount
      <= Available(levels, lines[i].key) as real - SumTo(Withheld(levels, lines), i, One(lines[i].key)) as real
  }

  ghost predicate AllEnough(levels: Table, lines: seq<Ask>, n: nat)
    requires n <= |lines|
  {
    forall i | 0 <= i < n :: Enough(levels, lines, i)
  }

  /** The loaded rows after the first `n` lines. */
  ghost predicate Overwritten(levels: Table, session: Session, lines: seq<Ask>, n: nat)
    requires n <= |lines|
  {
    forall k :: Peek(levels, session, k) == Peek(levels, map[], k).(
                  onHand := (Get(levels, k).onHand - SumTo(Withheld(levels, lines), n, One(k))) as real)
  }

  lemma OverwriteNext(levels: Table, session: Session, lines: seq<Ask>, i: nat)
    requires i < |lines| && Overwritten(levels, session, lines, i)
    ensures var k := lines[i].key;
            var l := Peek(levels, session, k);
            && (Free(levels, session, k) >= lines[i].amount <==> Enough(levels, lines, i))
            && Overwritten(levels, session[k := l.(onHand := Free(levels, session, k))], lines, i + 1)
  {
  }

  /** One line: the posting moves `on_hand` and writes the ledger, and then `on_hand` is set from the
      available quantity the other way round. */
  method PostLine(levels: Table, ghost lines: seq<Ask>, ghost i: nat, x: Ask, back: bool, session: Session)
    returns (ok: bool, session': Session, row: Txn)
    requires i < |lines| && x == lines[i]
    requires Overwritten(levels, session, lines, i)
    ensures ok <==> Enough(levels, lines, i)
    ensures ok ==> row == Row(x, back) && Overwritten(levels, session', lines, i + 1)
  {
    OverwriteNext(levels, session, lines, i);
    ok, row := Free(levels, session, x.key) >= x.amount, Row(x, back);
    var moved := if back then x.amount else -x.amount;
    var level := Peek(levels, session, x.key);
    level := level.(onHand := level.onHand + moved);
    session' := session[x.key := level];
    level := level.(onHand := Free(levels, session', x.key) - moved);
    session' := session'[x.key := level];
  }

  lemma RowNext(lines: seq<Ask>, back: bool, i: nat)
    requires i < |lines|
    ensures Rows(lines, back)[..i] + [Row(lines[i], back)] == Rows(lines, back)[..i + 1]
  {
  }

  /** Confirms (`back` false) or cancels (`back` true) a receipt; both refuse a line whose quantity is
      not available. */
  method PostLines(levels: Table, lines: seq<Ask>, back: bool) returns (r: Option<Error>, levels': Table, rows: seq<Txn>)
    ensures r == if AllEnough(levels, lines, |lines|) then None else Some(Insufficient)
    ensures r.None? ==> rows == Rows(lines, back) && Posted(levels, lines, levels')
  {
    var session: Session := map[];
    r, levels', rows := None, levels, [];
    for i := 0 to |lines|
      invariant AllEnough(levels, lines, i)
      invariant rows == Rows(lines, back)[..i]
      invariant Overwritten(levels, session, lines, i)
    {
      var ok, row;
      ok, session, row := PostLine(levels, lines, i, lines[i], back, session);
      if !ok { return Some(Insufficient), levels, []; }
      RowNext(lines, back, i);
      rows := rows + [row];
    }
    levels' := Flush(levels, session);
    OverwrittenIsPosted(levels, lines, session);
  }

  /** The receipt goes through and leaves the snapshot `levels'`. */
  ghost predicate Posted(levels: Table, lines: seq<Ask>, levels': Table) {
    && AllEnough(levels, lines, |lines|)
    && OnHandMoved(levels, levels', Withheld(levels, lines), true, |lines|)
  }

  lemma OverwrittenIsPosted(levels: Table, lines: seq<Ask>, session: Session)
    requires AllEnough(levels, lines, |lines|) && Overwritten(levels, session, lines, |lines|)
    ensures Posted(levels, lines, Flush(levels, session))
  {
    forall k
      ensures Get(Flush(levels, session), k)
           == Get(levels, k).(onHand := Get(levels, k).onHand - Sum(Withheld(levels, lines), One(k)))
    {
      FlushGet(levels, session, k);
      NearestWhole(Get(levels, k).onHand - Sum(Withheld(levels, lines), One(k)));
      NearestWhole(Get(levels, k).reserved);
      NearestWhole(Get(levels, k).damaged);
      NearestWhole(Get(levels, k).inTransit);
    }
  }

  /** Posting moves the snapshot of a level away from its ledger by what the rows say, the other way
      round, and by what is withheld. */
  lemma PostedGap(s: State, lines: seq<Ask>, back: bool, levels': Table, k: Key)
    requires Posted(s.levels, lines, levels')
    ensures OnHandGap(levels', s.ledger + Rows(lines, back), k)
         == OnHandGap(s.levels, s.ledger, k) - Sum(Withheld(s.levels, lines), One(k))
            - if back then Sum(Written(lines), One(k)) else -Sum(Written(lines), One(k))
  {
    ReplayConcat(s.ledger, Rows(lines, back), One(k));
    ReplayEntries(Rows(lines, back), Written(lines), !back, |lines|, One(k));
  }

  /** Confirming keeps snapshot and ledger of a level together exactly when the rows for the level bring
      as much as it has reserved and damaged, counted once for every line. */
  lemma ConfirmAgreesIff(s: State, lines: seq<Ask>, levels': Table, k: Key)
    requires Posted(s.levels, lines, levels')
    ensures OnHandGap(levels', s.ledger + Rows(lines, false), k) == OnHandGap(s.levels, s.ledger, k)
       <==> Sum(Withheld(s.levels, lines), One(k)) == Sum(Written(lines), One(k))
  {
    PostedGap(s, lines, false, levels', k);
  }

  lemma WithheldNonNegative(levels: Table, lines: seq<Ask>)
    requires NonNegativeLevels(levels)
    ensures NonNegative(Withheld(levels, lines))
  {
    forall i | 0 <= i < |lines|
      ensures 0 <= Withheld(levels, lines)[i].amount
    {
      assert NonNegativeLevel(Get(levels, lines[i].key));
    }
  }

  /** Cancelling keeps them together exactly when nothing on the level is withheld and its lines round to
      zero, so never for a quantity of at least half a hundredth. */
  lemma CancelAgreesIff(s: State, lines: seq<Ask>, levels': Table, k: Key)
    requires NonNegativeLevels(s.levels) && Posted(s.levels, lines, levels')
    requires forall x <- lines :: 0.0 < x.amount
    ensures OnHandGap(levels', s.ledger + Rows(lines, true), k) == OnHandGap(s.levels, s.ledger, k)
       <==> Sum(Withheld(s.levels, lines), One(k)) == 0 && forall x <- lines | x.key == k :: Nearest(x.amount) == 0
  {
    var withheld, written := Withheld(s.levels, lines), Written(lines);
    PostedGap(s, lines, true, levels', k);
    WithheldNonNegative(s.levels, lines);
    SumBound(withheld, 0, |lines|, One(k));
    assert forall i | 0 <= i < |lines| :: lines[i] in lines;
    SumBound(written, 0, |lines|, One(k));
    if i :| 0 <= i < |lines| && lines[i].key == k && Nearest(lines[i].amount) != 0 {
      SumBound(written, i, |lines|, One(k));
      SumBound(written, 0, i, One(k));
    } else {
      NoClaim(written, |lines|, k);
    }
  }

  lemma {:induction false} NoClaim(es: seq<Entry>, n: nat, k: Key)
    requires n <= |es| && forall i | 0 <= i < n && es[i].key == k :: es[i].amount == 0
    ensures SumTo(es, n, One(k)) == 0
  {
    if n != 0 {
      NoClaim(es, n - 1, k);
    }
  }

  /** How many of the first `n` lines take from level `k`. */
  function Hits(lines: seq<Ask>, n: nat, k: Key): nat
    requires n <= |lines|
  {
    if n == 0 then 0 else Hits(lines, n - 1, k) + if lines[n - 1].key == k then 1 else 0
  }

  lemma OnceMore(n: nat, held: int)
    ensures (n + 1) * held == n * held + held
  {
  }

  lemma {:induction false} WithheldIs(levels: Table, lines: seq<Ask>, n: nat, k: Key)
    requires n <= |lines|
    ensures SumTo(Withheld(levels, lines), n, One(k))
         == Hits(lines, n, k) * (Get(levels, k).reserved + Get(levels, k).damaged)
  {
    if n != 0 {
      WithheldIs(levels, lines, n - 1, k);
      OnceMore(Hits(lines, n - 1, k), Get(levels, k).reserved + Get(levels, k).damaged);
    }
  }

  /** A receipt goes through, confirmed or cancelled, exactly when every line finds its quantity on hand after
      what is reserved and damaged is taken off once for it and once for every line before it. */
  lemma {:induction false} PostsIff(levels: Table, lines: seq<Ask>)
    ensures AllEnough(levels, lines, |lines|) <==>
              forall i | 0 <= i < |lines| ::
                var k := lines[i].key;
                var held := Get(levels, k).reserved + Get(levels, k).damaged;
                lines[i].amount <= (Get(levels, k).onHand - held - Hits(lines, i, k) * held) as real
  {
    forall i | 0 <= i < |lines|
      ensures var k := lines[i].key;
              var held := Get(levels, k).reserved + Get(levels, k).damaged;
              Enough(levels, lines, i) <==> lines[i].amount <= (Get(levels, k).onHand - held - Hits(lines, i, k) * held) as real
    {
      WithheldIs(levels, lines, i, lines[i].key);
    }
  }

  /** Then a level loses that much for each of its lines, whatever their quantities, and the ledger gets one
      ISSUE row a line. */
  lemma {:induction false} PostDoes(levels: Table, lines: seq<Ask>, back: bool, levels': Table, k: Key, i: nat)
    requires Posted(levels, lines, levels') && i < |lines|
    ensures var l := Get(levels, k);
            Get(levels', k) == l.(onHand := l.onHand - Hits(lines, |lines|, k) * (l.reserved + l.damaged))
    ensures var t := Rows(lines, back)[i];
            && t.kind == ISSUE && t.key == lines[i].key && t.inbound == back && t.source == Return
            && (if back then t.quantity == Nearest(lines[i].amount) else t.quantity == -Nearest(lines[i].amount))
  {
    WithheldIs(levels, lines, |lines|, k);
  }
}
