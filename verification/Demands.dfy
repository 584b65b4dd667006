/** What a request asks of the level rows.  Requests carry decimals of any length: the session adds them
    up exactly until it writes a column, which rounds it. */
module Demands {
  import opened Levels
  import opened Rounding

  /** One line's change to one level, in hundredths. */
  datatype Ask = Ask(key: Key, amount: real)

  /** What the first `n` lines ask of level `k`, however many of them hit it. */
  function AskTo(xs: seq<Ask>, n: nat, k: Key): real
    requires n <= |xs|
  {
    if n == 0 then 0.0 else AskTo(xs, n - 1, k) + if xs[n - 1].key == k then xs[n - 1].amount else 0.0
  }

  function Asked(xs: seq<Ask>, k: Key): real {
    AskTo(xs, |xs|, k)
  }

  /** What the rows written for the lines say. */
  function Written(xs: seq<Ask>): (es: seq<Entry>)
    ensures |es| == |xs|
  {
    seq(|xs|, i requires 0 <= i < |xs| => Entry(xs[i].key, Nearest(xs[i].amount)))
  }

  /** Lines whose quantities come from the tables. */
  function Whole(es: seq<Entry>): (xs: seq<Ask>)
    ensures |xs| == |es|
  {
    seq(|es|, i requires 0 <= i < |es| => Ask(es[i].key, es[i].amount as real))
  }

  lemma {:induction false} AskIsSum(es: seq<Entry>, n: nat, k: Key)
    requires n <= |es|
    ensures AskTo(Whole(es), n, k) == SumTo(es, n, One(k)) as real
  {
    if n != 0 {
      AskIsSum(es, n - 1, k);
    }
  }

  ghost predicate Rising(xs: seq<Ask>) {
    forall i | 0 <= i < |xs| :: 0.0 <= xs[i].amount
  }

  lemma {:induction false} AskGrows(xs: seq<Ask>, i: nat, n: nat, k: Key)
    requires Rising(xs) && i <= n <= |xs|
    ensures 0.0 <= AskTo(xs, i, k) <= AskTo(xs, n, k)
  {
    if i < n {
      AskGrows(xs, i, n - 1, k);
    } else if n != 0 {
      AskGrows(xs, n - 1, n - 1, k);
    }
  }

  // ---- available stock ----

  /** Line `i`, posted after the lines before it, finds enough available stock. */
  ghost predicate Fits(levels: Table, xs: seq<Ask>, i: nat)
    requires i < |xs|
  {
    AskTo(xs, i + 1, xs[i].key) <= Available(levels, xs[i].key) as real
  }

  /** The first `n` lines all pass, each after the lines before it. */
  ghost predicate AllFit(levels: Table, xs: seq<Ask>, n: nat)
    requires n <= |xs|
  {
    forall i | 0 <= i < n :: Fits(levels, xs, i)
  }

  /** The first `n` lines together ask level `k` for no more than it has available. */
  ghost predicate CoveredAt(levels: Table, xs: seq<Ask>, n: nat, k: Key)
    requires n <= |xs|
  {
    0.0 < AskTo(xs, n, k) ==> AskTo(xs, n, k) <= Available(levels, k) as real
  }

  ghost predicate Covered(levels: Table, xs: seq<Ask>, n: nat)
    requires n <= |xs|
  {
    forall k :: CoveredAt(levels, xs, n, k)
  }

  lemma OwnLine(levels: Table, xs: seq<Ask>, n: nat, k: Key)
    requires n < |xs| && xs[n].key == k && Fits(levels, xs, n)
    ensures CoveredAt(levels, xs, n + 1, k)
  {
  }

  lemma OtherLine(levels: Table, xs: seq<Ask>, n: nat, k: Key)
    requires n < |xs| && xs[n].key != k && CoveredAt(levels, xs, n, k)
    ensures CoveredAt(levels, xs, n + 1, k)
  {
  }

  lemma {:induction false} LastLineOf(levels: Table, xs: seq<Ask>, n: nat, k: Key)
    requires n <= |xs|
    requires AllFit(levels, xs, n)
    ensures CoveredAt(levels, xs, n, k)
  {
    if n != 0 {
      if xs[n - 1].key == k {
        OwnLine(levels, xs, n - 1, k);
      } else {
        LastLineOf(levels, xs, n - 1, k);
        OtherLine(levels, xs, n - 1, k);
      }
    }
  }

  lemma CoveredLine(levels: Table, xs: seq<Ask>, n: nat, i: nat)
    requires Rising(xs)
    requires i < n <= |xs| && 0.0 < xs[i].amount
    requires CoveredAt(levels, xs, n, xs[i].key)
    ensures Fits(levels, xs, i)
  {
    AskGrows(xs, i, i, xs[i].key);
    AskGrows(xs, i + 1, n, xs[i].key);
  }

  /** Checking lines one after the other comes to the same as comparing each level's whole demand
      with its available stock once, however the lines are ordered or split. */
  lemma LineByLineIsPerLevel(levels: Table, xs: seq<Ask>, n: nat)
    requires n <= |xs| && forall i | 0 <= i < |xs| :: 0.0 < xs[i].amount
    ensures AllFit(levels, xs, n) <==> Covered(levels, xs, n)
  {
    if AllFit(levels, xs, n) {
      forall k
        ensures CoveredAt(levels, xs, n, k)
      {
        LastLineOf(levels, xs, n, k);
      }
    }
    if Covered(levels, xs, n) {
      forall i | 0 <= i < n
        ensures Fits(levels, xs, i)
      {
        CoveredLine(levels, xs, n, i);
      }
    }
  }

  // ---- a column and its rows ----

  /** Which of the loaded rows the session writes, lets go of, and reads back rounded before it turns to a
      line: none, all but the line's own, or all. */
  datatype Reload = Never | Others | Everything

  function Reread(c: Reload, own: bool, held: real): real {
    if c == Never || (c == Others && own) then held else Nearest(held) as real
  }

  /** What a column of level `k` that held `h` shows after the first `n` lines. */
  function ColumnTo(h: int, xs: seq<Ask>, cuts: seq<Reload>, n: nat, k: Key): real
    requires n <= |xs| == |cuts|
  {
    if n == 0 then h as real
    else
      Reread(cuts[n - 1], xs[n - 1].key == k, ColumnTo(h, xs, cuts, n - 1, k))
      + if xs[n - 1].key == k then xs[n - 1].amount else 0.0
  }

  /** What the column stores in the end. */
  function Column(h: int, xs: seq<Ask>, cuts: seq<Reload>, k: Key): int
    requires |xs| == |cuts|
  {
    Nearest(ColumnTo(h, xs, cuts, |xs|, k))
  }

  /** Line `i` names a level that has no row yet. */
  predicate NewRow(levels: Table, xs: seq<Ask>, i: nat)
    requires i < |xs|
  {
    xs[i].key !in levels && forall j | 0 <= j < i :: xs[j].key != xs[i].key
  }

  /** The session writes its rows before a line when it flushes by itself, and when the row of the line has
      to be created; `c` tells which rows nobody refers to any more by then. */
  function Reloads(autoflush: bool, levels: Table, xs: seq<Ask>, c: Reload): (cuts: seq<Reload>)
    ensures |cuts| == |xs|
  {
    seq(|xs|, i requires 0 <= i < |xs| => if autoflush || NewRow(levels, xs, i) then c else Never)
  }

  /** The level rows that exist after the first `n` lines. */
  ghost predicate RowsBy(levels: Table, rows: set<Key>, xs: seq<Ask>, n: nat)
    requires n <= |xs|
  {
    forall k :: k in rows <==> k in levels || exists j | 0 <= j < n :: xs[j].key == k
  }

  lemma RowsNext(levels: Table, rows: set<Key>, xs: seq<Ask>, n: nat)
    requires n < |xs| && RowsBy(levels, rows, xs, n)
    ensures xs[n].key !in rows <==> NewRow(levels, xs, n)
    ensures RowsBy(levels, rows + {xs[n].key}, xs, n + 1)
  {
  }

  /** How far a column that held `h` moves away from the rows of a document: each row is rounded by
      itself, the column whenever it is written. */
  function Slip(h: int, xs: seq<Ask>, cuts: seq<Reload>, k: Key): int
    requires |xs| == |cuts|
  {
    Column(h, xs, cuts, k) - h - Sum(Written(xs), One(k))
  }

  lemma {:induction false} ColumnNone(h: int, xs: seq<Ask>, cuts: seq<Reload>, n: nat, k: Key)
    requires n <= |xs| == |cuts| && forall i | 0 <= i < n :: xs[i].key != k
    ensures ColumnTo(h, xs, cuts, n, k) == h as real && SumTo(Written(xs), n, One(k)) == 0
  {
    if n != 0 {
      ColumnNone(h, xs, cuts, n - 1, k);
      NearestWhole(h);
    }
  }

  /** A level that no line of the document names never slips. */
  lemma SlipNone(h: int, xs: seq<Ask>, cuts: seq<Reload>, k: Key)
    requires |xs| == |cuts| && forall i | 0 <= i < |xs| :: xs[i].key != k
    ensures Slip(h, xs, cuts, k) == 0
  {
    ColumnNone(h, xs, cuts, |xs|, k);
    NearestWhole(h);
  }

  lemma {:induction false} ColumnOne(h: int, xs: seq<Ask>, cuts: seq<Reload>, n: nat, i: nat)
    requires i < n <= |xs| == |cuts| && forall j | 0 <= j < |xs| && j != i :: xs[j].key != xs[i].key
    ensures Nearest(ColumnTo(h, xs, cuts, n, xs[i].key)) == Nearest(h as real + xs[i].amount)
    ensures SumTo(Written(xs), n, One(xs[i].key)) == Nearest(xs[i].amount)
  {
    if i == n - 1 {
      ColumnNone(h, xs, cuts, i, xs[i].key);
      NearestWhole(h);
    } else {
      ColumnOne(h, xs, cuts, n - 1, i);
      NearestWhole(Nearest(h as real + xs[i].amount));
    }
  }

  /** A level with one line slips, by one hundredth, exactly when the line takes an amount that ends in
      half a hundredth. */
  lemma SlipOne(h: nat, xs: seq<Ask>, cuts: seq<Reload>, i: nat)
    requires i < |xs| == |cuts| && forall j | 0 <= j < |xs| && j != i :: xs[j].key != xs[i].key
    requires 0.0 <= h as real + xs[i].amount
    ensures Slip(h, xs, cuts, xs[i].key) == if xs[i].amount < 0.0 && EndsInHalf(xs[i].amount) then 1 else 0
  {
    ColumnOne(h, xs, cuts, |xs|, i);
    OneChange(h, xs[i].amount);
  }

  lemma {:induction false} ColumnWhole(h: int, xs: seq<Ask>, cuts: seq<Reload>, n: nat, k: Key)
    requires n <= |xs| == |cuts| && forall i | 0 <= i < |xs| :: IsWhole(xs[i].amount)
    ensures ColumnTo(h, xs, cuts, n, k) == (h + SumTo(Written(xs), n, One(k))) as real
    ensures ColumnTo(h, xs, cuts, n, k) == h as real + AskTo(xs, n, k)
  {
    if n != 0 {
      ColumnWhole(h, xs, cuts, n - 1, k);
      NearestWhole(h + SumTo(Written(xs), n - 1, One(k)));
      NearestWhole(xs[n - 1].amount.Floor);
    }
  }

  /** Quantities with two decimals never slip. */
  lemma SlipWhole(h: int, xs: seq<Ask>, cuts: seq<Reload>, k: Key)
    requires |xs| == |cuts| && forall i | 0 <= i < |xs| :: IsWhole(xs[i].amount)
    ensures Slip(h, xs, cuts, k) == 0
  {
    ColumnWhole(h, xs, cuts, |xs|, k);
    NearestWhole(h + Sum(Written(xs), One(k)));
  }

  /** Until the session writes its rows, a column takes the exact sum of the lines. */
  lemma {:induction false} ColumnStraight(h: int, xs: seq<Ask>, cuts: seq<Reload>, n: nat, k: Key)
    requires n <= |xs| == |cuts| && forall i | 0 <= i < n :: cuts[i] == Never
    ensures ColumnTo(h, xs, cuts, n, k) == h as real + AskTo(xs, n, k)
  {
    if n != 0 {
      ColumnStraight(h, xs, cuts, n - 1, k);
    }
  }

  /** What comes in counts the same whatever the level holds. */
  lemma {:induction false} ColumnRises(h: nat, xs: seq<Ask>, cuts: seq<Reload>, n: nat, k: Key)
    requires n <= |xs| == |cuts| && Rising(xs)
    ensures 0.0 <= ColumnTo(0, xs, cuts, n, k)
    ensures ColumnTo(h, xs, cuts, n, k) == h as real + ColumnTo(0, xs, cuts, n, k)
  {
    if n != 0 {
      ColumnRises(h, xs, cuts, n - 1, k);
      CentsAbove(h, ColumnTo(0, xs, cuts, n - 1, k));
    }
  }

  /** Line `i` takes the column of its level to `cap` at most. */
  ghost predicate Capped(h: int, xs: seq<Ask>, cuts: seq<Reload>, i: nat, cap: int)
    requires i < |xs| == |cuts|
  {
    ColumnTo(h, xs, cuts, i, xs[i].key) + xs[i].amount <= cap as real
  }

  /** A column that every line keeps within `cap` stays there when it is rounded on the way. */
  lemma {:induction false} ColumnCapped(h: nat, xs: seq<Ask>, cuts: seq<Reload>, n: nat, k: Key, cap: int)
    requires n <= |xs| == |cuts| && Rising(xs) && forall i | 0 <= i < n :: cuts[i] != Everything
    requires forall i | 0 <= i < n && xs[i].key == k :: Capped(h, xs, cuts, i, cap)
    ensures AskTo(xs, n, k) == 0.0 || ColumnTo(h, xs, cuts, n, k) <= cap as real
  {
    if n != 0 {
      ColumnCapped(h, xs, cuts, n - 1, k, cap);
      ColumnRises(h, xs, cuts, n - 1, k);
      if xs[n - 1].key == k {
        assert Capped(h, xs, cuts, n - 1, cap);
      } else if AskTo(xs, n, k) != 0.0 {
        CentsFit(ColumnTo(h, xs, cuts, n - 1, k), cap);
      }
    }
  }

  /** Where stock comes in, the slip is what the lines leave on an empty level less the rounded lines,
      which is the rounded sum less the sum of the rounded lines if the session writes once. */
  lemma SlipRising(h: nat, xs: seq<Ask>, cuts: seq<Reload>, k: Key)
    requires |xs| == |cuts| && Rising(xs)
    ensures Slip(h, xs, cuts, k) == Column(0, xs, cuts, k) - Sum(Written(xs), One(k))
    ensures 0 <= Column(0, xs, cuts, k)
    ensures (forall i | 0 <= i < |cuts| :: cuts[i] == Never) ==> Column(0, xs, cuts, k) == Nearest(Asked(xs, k))
  {
    ColumnRises(h, xs, cuts, |xs|, k);
    CentsAbove(h, ColumnTo(0, xs, cuts, |xs|, k));
    if forall i | 0 <= i < |cuts| :: cuts[i] == Never {
      ColumnStraight(0, xs, cuts, |xs|, k);
    }
  }

  /** Two lines of 0.006 on one level. */
  lemma SixAndSix(h: nat, k: Key)
    ensures Slip(h, [Ask(k, 0.6), Ask(k, 0.6)], [Never, Never], k) == -1
  {
    var x := Ask(k, 0.6);
    var xs, cuts := [x, x], [Never, Never];
    assert AskTo(xs, 1, k) == 0.6;
    assert AskTo(xs, 2, k) == 1.2;
    assert SumTo(Written(xs), 1, One(k)) == Nearest(0.6);
    SlipRising(h, xs, cuts, k);
    FloorIs(1.1, 1);
    FloorIs(1.7, 1);
  }

  /** With a line on another level between them, whose row has to be created, they do not slip. */
  lemma SixNewSix(h: nat, k: Key, other: Key)
    requires other != k
    ensures Slip(h, [Ask(k, 0.6), Ask(other, 0.6), Ask(k, 0.6)], [Never, Others, Never], k) == 0
  {
    var x, y := Ask(k, 0.6), Ask(other, 0.6);
    var xs, cuts := [x, y, x], [Never, Others, Never];
    FloorIs(1.1, 1);
    FloorIs(2.1, 2);
    assert ColumnTo(0, xs, cuts, 1, k) == 0.6;
    assert Nearest(0.6) == 1 && ColumnTo(0, xs, cuts, 2, k) == Reread(Others, false, 0.6);
    assert ColumnTo(0, xs, cuts, 3, k) == 1.6;
    assert SumTo(Written(xs), 1, One(k)) == Nearest(0.6);
    assert SumTo(Written(xs), 2, One(k)) == Nearest(0.6);
    SlipRising(h, xs, cuts, k);
  }

  // ---- the rows a session has loaded ----

  /** A level row as the session holds it between two flushes. */
  datatype Loaded = Loaded(onHand: real, reserved: real, damaged: real, inTransit: real)

  type Session = map<Key, Loaded>

  function Peek(levels: Table, session: Session, k: Key): Loaded {
    if k in session then session[k]
    else
      var l := Get(levels, k);
      Loaded(l.onHand as real, l.reserved as real, l.damaged as real, l.inTransit as real)
  }

  function Free(levels: Table, session: Session, k: Key): real {
    Peek(levels, session, k).onHand - Peek(levels, session, k).reserved - Peek(levels, session, k).damaged
  }

  function Rounded(l: Loaded): Loaded {
    Loaded(Nearest(l.onHand) as real, Nearest(l.reserved) as real, Nearest(l.damaged) as real, Nearest(l.inTransit) as real)
  }

  /** The loaded rows after the session wrote them before a line on level `own`. */
  function Reopened(session: Session, c: Reload, own: Key): Session {
    if c == Never then session
    else map k | k in session :: if c == Others && k == own then session[k] else Rounded(session[k])
  }

  lemma ReopenedPeek(levels: Table, session: Session, c: Reload, own: Key, k: Key)
    ensures Peek(levels, Reopened(session, c, own), k)
         == if c == Never || (c == Others && k == own) then Peek(levels, session, k) else Rounded(Peek(levels, session, k))
  {
    if k !in session {
      var l := Get(levels, k);
      NearestWhole(l.onHand);
      NearestWhole(l.reserved);
      NearestWhole(l.damaged);
      NearestWhole(l.inTransit);
    }
  }

  /** Writes every loaded row; each column is rounded once. */
  function Flush(levels: Table, session: Session): Table {
    levels + map k | k in session ::
      Level(Nearest(session[k].onHand), Nearest(session[k].reserved), Nearest(session[k].damaged), Nearest(session[k].inTransit))
  }

  lemma FlushGet(levels: Table, session: Session, k: Key)
    ensures var l := Peek(levels, session, k);
            Get(Flush(levels, session), k)
            == Level(Nearest(l.onHand), Nearest(l.reserved), Nearest(l.damaged), Nearest(l.inTransit))
  {
    if k !in session {
      var l := Get(levels, k);
      NearestWhole(l.onHand);
      NearestWhole(l.reserved);
      NearestWhole(l.damaged);
      NearestWhole(l.inTransit);
    }
  }
}
