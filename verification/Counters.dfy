/** Gapless numbering: transactions that lock a counter row, draw numbers from it and then commit
    or abort, interleaved in any order. */
module Counters {
  import DocumentNumbers

  datatype Row = Row(workspace: nat, year: nat)

  datatype Doc = Doc(row: Row, number: nat)

  /** One open transaction: the counter rows it has locked with the value it sees in them, the rows
      its SELECT did not find, and the documents it has inserted so far. */
  datatype Txn = Txn(held: map<Row, nat>, missing: set<Row>, docs: seq<Doc>)

  /** Committed counters and documents, and the open transactions. */
  datatype Db = Db(rows: map<Row, nat>, docs: seq<Doc>, open: map<nat, Txn>)

  datatype Step =
    | Begin(t: nat)
    | Select(t: nat, row: Row)
    | Insert(t: nat, row: Row, savepoint: bool)
    | Draw(t: nat, row: Row)
    | Commit(t: nat)
    | Abort(t: nat)

  const FRESH := Txn(map[], {}, [])

  predicate LockedByOther(db: Db, t: nat, row: Row) {
    exists u <- db.open :: u != t && row in db.open[u].held
  }

  function Last(rows: map<Row, nat>, row: Row): nat {
    if row in rows then rows[row] else 0
  }

  /** A step that has to wait for a lock, or does not apply, leaves the database as it is.  FOR UPDATE
      waits for a committed row that another transaction holds and then reads its latest value; a
      row that only an open transaction has inserted is not seen, and inserting it again waits on
      the unique key.  When that insert finds the row committed after all, it fails: the invoice
      counter then rolls the whole transaction back, the others only their savepoint. */
  function Next(db: Db, s: Step): Db {
    if s.Begin? then (if s.t in db.open then db else db.(open := db.open[s.t := FRESH]))
    else if s.t !in db.open then db
    else
      var x := db.open[s.t];
      match s
      case Begin(_) => db
      case Select(t, row) =>
        if row in x.held then db
        else if row !in db.rows then db.(open := db.open[t := x.(missing := x.missing + {row})])
        else if LockedByOther(db, t, row) then db
        else db.(open := db.open[t := x.(held := x.held[row := db.rows[row]], missing := x.missing - {row})])
      case Insert(t, row, savepoint) =>
        if row !in x.missing || row in x.held || LockedByOther(db, t, row) then db
        else if row in db.rows then
          db.(open := db.open[t := if savepoint then x.(missing := x.missing - {row}) else FRESH])
        else db.(open := db.open[t := x.(held := x.held[row := 0], missing := x.missing - {row})])
      case Draw(t, row) =>
        if row !in x.held then db
        else
          var n := x.held[row] + 1;
          db.(open := db.open[t := x.(held := x.held[row := n], docs := x.docs + [Doc(row, n)])])
      case Commit(t) => Db(db.rows + x.held, db.docs + x.docs, db.open - {t})
      case Abort(t) => db.(open := db.open - {t})
  }

  function Run(db: Db, steps: seq<Step>): Db
    decreases |steps|
  {
    if steps == [] then db else Run(Next(db, steps[0]), steps[1..])
  }

  const EMPTY := Db(map[], [], map[])

  /** Numbers given out for one counter row, in order. */
  function Numbers(docs: seq<Doc>, row: Row): seq<nat> {
    if docs == [] then []
    else
      var d := docs[|docs| - 1];
      Numbers(docs[..|docs| - 1], row) + if d.row == row then [d.number] else []
  }

  /** from + 1, ..., to */
  function Upto(from: nat, to: nat): (r: seq<nat>)
    ensures to >= from ==> |r| == to - from && forall i | 0 <= i < |r| :: r[i] == from + 1 + i
  {
    if to <= from then [] else Upto(from, to - 1) + [to]
  }

  /** The numbers a transaction drew from a row go on from the committed counter. */
  ghost predicate RowOk(rows: map<Row, nat>, x: Txn, row: Row) {
    if row in x.held
    then Last(rows, row) <= x.held[row] && Numbers(x.docs, row) == Upto(Last(rows, row), x.held[row])
    else Numbers(x.docs, row) == []
  }

  ghost predicate TxnOk(rows: map<Row, nat>, x: Txn) {
    forall row :: RowOk(rows, x, row)
  }

  ghost predicate Inv(db: Db) {
    && (forall row :: Numbers(db.docs, row) == Upto(0, Last(db.rows, row)))
    && (forall t <- db.open :: TxnOk(db.rows, db.open[t]))
    && forall t, u | t in db.open && u in db.open && t != u :: db.open[t].held.Keys !! db.open[u].held.Keys
  }

  lemma {:induction false} NumbersConcat(a: seq<Doc>, b: seq<Doc>, row: Row)
    ensures Numbers(a + b, row) == Numbers(a, row) + Numbers(b, row)
  {
    if b == [] {
      assert a + b == a;
    } else {
      assert (a + b)[..|a + b| - 1] == a + b[..|b| - 1];
      NumbersConcat(a, b[..|b| - 1], row);
    }
  }

  lemma {:induction false} UptoConcat(a: nat, b: nat, c: nat)
    requires a <= b <= c
    ensures Upto(a, b) + Upto(b, c) == Upto(a, c)
  {
    if b != c {
      UptoConcat(a, b, c - 1);
    }
  }

  lemma {:induction false} DrawNumbers(docs: seq<Doc>, d: Doc, row: Row)
    ensures Numbers(docs + [d], row) == Numbers(docs, row) + if d.row == row then [d.number] else []
  {
    assert (docs + [d])[..|docs|] == docs;
  }

  lemma DrawKeeps(rows: map<Row, nat>, x: Txn, row: Row)
    requires TxnOk(rows, x) && row in x.held
    ensures var n := x.held[row] + 1;
            TxnOk(rows, x.(held := x.held[row := n], docs := x.docs + [Doc(row, n)]))
  {
    var n := x.held[row] + 1;
    var x' := x.(held := x.held[row := n], docs := x.docs + [Doc(row, n)]);
    forall r
      ensures RowOk(rows, x', r)
    {
      assert RowOk(rows, x, r);
      DrawNumbers(x.docs, Doc(row, n), r);
    }
  }

  lemma HoldKeeps(rows: map<Row, nat>, x: Txn, row: Row)
    requires TxnOk(rows, x) && row !in x.held
    ensures TxnOk(rows, x.(held := x.held[row := Last(rows, row)], missing := x.missing - {row}))
  {
    var x' := x.(held := x.held[row := Last(rows, row)], missing := x.missing - {row});
    forall r
      ensures RowOk(rows, x', r)
    {
      assert RowOk(rows, x, r);
    }
  }

  lemma MissKeeps(rows: map<Row, nat>, x: Txn, missing: set<Row>)
    requires TxnOk(rows, x)
    ensures TxnOk(rows, x.(missing := missing)) && TxnOk(rows, FRESH)
  {
    var x' := x.(missing := missing);
    forall r
      ensures RowOk(rows, x', r)
    {
      assert RowOk(rows, x, r);
    }
  }

  /** A transaction that stays well formed and locks no row another one holds. */
  lemma ReplaceKeeps(db: Db, t: nat, x: Txn)
    requires Inv(db) && TxnOk(db.rows, x)
    requires forall u | u in db.open && u != t :: db.open[u].held.Keys !! x.held.Keys
    ensures Inv(db.(open := db.open[t := x]))
  {
  }

  /** Committing appends exactly the next numbers of every row the transaction held, and other
      transactions, which hold other rows, see nothing of it. */
  lemma CommitKeeps(db: Db, t: nat)
    requires Inv(db) && t in db.open
    ensures Inv(Next(db, Commit(t)))
  {
    var x, db' := db.open[t], Next(db, Commit(t));
    forall row
      ensures Numbers(db'.docs, row) == Upto(0, Last(db'.rows, row))
    {
      assert RowOk(db.rows, x, row);
      NumbersConcat(db.docs, x.docs, row);
      if row in x.held {
        UptoConcat(0, Last(db.rows, row), x.held[row]);
      }
    }
    forall u, row | u in db'.open
      ensures RowOk(db'.rows, db'.open[u], row)
    {
      assert RowOk(db.rows, db.open[u], row) && db.open[u].held.Keys !! x.held.Keys;
    }
  }

  lemma SelectKeeps(db: Db, t: nat, row: Row)
    requires Inv(db) && t in db.open
    ensures Inv(Next(db, Select(t, row)))
  {
    var x := db.open[t];
    if row !in x.held {
      HoldKeeps(db.rows, x, row);
      MissKeeps(db.rows, x, x.missing + {row});
      if row !in db.rows {
        ReplaceKeeps(db, t, x.(missing := x.missing + {row}));
      } else if !LockedByOther(db, t, row) {
        ReplaceKeeps(db, t, x.(held := x.held[row := db.rows[row]], missing := x.missing - {row}));
      }
    }
  }

  lemma InsertKeeps(db: Db, t: nat, row: Row, savepoint: bool)
    requires Inv(db) && t in db.open
    ensures Inv(Next(db, Insert(t, row, savepoint)))
  {
    var x := db.open[t];
    if row in x.missing && row !in x.held && !LockedByOther(db, t, row) {
      HoldKeeps(db.rows, x, row);
      MissKeeps(db.rows, x, x.missing - {row});
      if row in db.rows {
        ReplaceKeeps(db, t, if savepoint then x.(missing := x.missing - {row}) else FRESH);
      } else {
        ReplaceKeeps(db, t, x.(held := x.held[row := 0], missing := x.missing - {row}));
      }
    }
  }

  lemma NextKeeps(db: Db, s: Step)
    requires Inv(db)
    ensures Inv(Next(db, s))
  {
    if s.t in db.open {
      var x := db.open[s.t];
      match s
      case Begin(_) =>
      case Select(t, row) => SelectKeeps(db, t, row);
      case Insert(t, row, savepoint) => InsertKeeps(db, t, row, savepoint);
      case Draw(t, row) =>
        if row in x.held {
          var n := x.held[row] + 1;
          DrawKeeps(db.rows, x, row);
          ReplaceKeeps(db, t, x.(held := x.held[row := n], docs := x.docs + [Doc(row, n)]));
        }
      case Commit(t) => CommitKeeps(db, t);
      case Abort(t) =>
    } else if s.Begin? {
      assert TxnOk(db.rows, FRESH);
      ReplaceKeeps(db, s.t, FRESH);
    }
  }

  lemma {:induction false} RunKeeps(db: Db, steps: seq<Step>)
    requires Inv(db)
    ensures Inv(Run(db, steps))
    decreases |steps|
  {
    if steps != [] {
      NextKeeps(db, steps[0]);
      RunKeeps(Next(db, steps[0]), steps[1..]);
    }
  }

  /** A run takes its steps one after the other. */
  lemma {:induction false} OneMore(db: Db, steps: seq<Step>, s: Step)
    ensures Run(db, []) == db && Run(db, steps + [s]) == Next(Run(db, steps), s)
    decreases |steps|
  {
    if steps != [] {
      assert (steps + [s])[0] == steps[0] && (steps + [s])[1..] == steps[1..] + [s];
      OneMore(Next(db, steps[0]), steps[1..], s);
    } else {
      assert [s][1..] == [] && Run(Next(db, s), []) == Next(db, s);
    }
  }

  /** Under every interleaving, aborts and lost first-insert races included, the committed numbers of
      every workspace and year are 1, 2, ..., last_number: each once, none missing, in commit order. */
  lemma {:induction false} Gapless(steps: seq<Step>, row: Row)
    ensures var db := Run(EMPTY, steps);
            Numbers(db.docs, row) == Upto(0, Last(db.rows, row))
  {
    RunKeeps(EMPTY, steps);
  }

  lemma OthersUntouched(db: Db, s: Step, t: nat, row: Row)
    requires Inv(db) && t in db.open && row in db.open[t].held && s.t != t
    ensures var db' := Next(db, s);
            t in db'.open && db'.open[t] == db.open[t] && Last(db'.rows, row) == Last(db.rows, row)
  {
    if s.t in db.open {
      assert db.open[s.t].held.Keys !! db.open[t].held.Keys;
    }
  }

  /** From the moment a transaction holds a counter row, whatever other transactions do before its own next
      step leaves the committed counter, and what the transaction saw and drew, as they were. */
  lemma {:induction false} HeldStaysLatest(db: Db, steps: seq<Step>, t: nat, row: Row)
    requires Inv(db) && t in db.open && row in db.open[t].held && forall s <- steps :: s.t != t
    ensures var db' := Run(db, steps);
            t in db'.open && db'.open[t] == db.open[t] && Last(db'.rows, row) == Last(db.rows, row)
    decreases |steps|
  {
    if steps != [] {
      assert steps[0] in steps;
      OthersUntouched(db, steps[0], t, row);
      NextKeeps(db, steps[0]);
      HeldStaysLatest(Next(db, steps[0]), steps[1..], t, row);
    }
  }

  /** A transaction on a row that nobody holds gets the next number and commits it. */
  lemma NextNumberIsGiven(db: Db, t: nat, row: Row)
    requires t !in db.open && row in db.rows && forall u <- db.open :: row !in db.open[u].held
    ensures var drawn := Next(Next(Next(db, Begin(t)), Select(t, row)), Draw(t, row));
            Next(drawn, Commit(t)) == Db(db.rows[row := db.rows[row] + 1], db.docs + [Doc(row, db.rows[row] + 1)], db.open)
  {
    var selected := Next(Next(db, Begin(t)), Select(t, row));
    assert selected.open[t].held == map[row := db.rows[row]];
    var drawn := Next(selected, Draw(t, row));
    assert drawn.open[t].held == map[row := db.rows[row] + 1] && drawn.open[t].docs == [Doc(row, db.rows[row] + 1)];
    assert Next(drawn, Commit(t)).open == db.open;
  }

  /** Where there is no row yet, the transaction inserts it and gets number 1. */
  lemma FirstNumberIsGiven(db: Db, t: nat, row: Row, savepoint: bool)
    requires t !in db.open && row !in db.rows && forall u <- db.open :: row !in db.open[u].held
    ensures var inserted := Next(Next(Next(db, Begin(t)), Select(t, row)), Insert(t, row, savepoint));
            Next(Next(inserted, Draw(t, row)), Commit(t)) == Db(db.rows[row := 1], db.docs + [Doc(row, 1)], db.open)
  {
    var selected := Next(Next(db, Begin(t)), Select(t, row));
    assert selected.open[t] == Txn(map[], {row}, []);
    var inserted := Next(selected, Insert(t, row, savepoint));
    assert inserted.open[t].held == map[row := 0] && inserted.open[t].docs == [];
    var drawn := Next(inserted, Draw(t, row));
    assert drawn.open[t].held == map[row := 1] && drawn.open[t].docs == [Doc(row, 1)];
    assert Next(drawn, Commit(t)).open == db.open;
  }

  /** Only a commit publishes; an abort leaves nothing behind; and while another transaction holds a row,
      neither selecting nor inserting it gets anywhere. */
  lemma WaitsAndAborts(db: Db, s: Step, t: nat, row: Row)
    ensures !s.Commit? ==> Next(db, s).rows == db.rows && Next(db, s).docs == db.docs
    ensures s == Abort(t) && t in db.open ==> Next(db, s).open == db.open - {t}
    ensures t in db.open && row in db.rows && (exists u <- db.open :: u != t && row in db.open[u].held) ==>
              Next(db, Select(t, row)) == db && Next(db, Insert(t, row, false)) == Next(db, Insert(t, row, true)) == db
  {
  }

  /** An insert that finds its row committed after all fails: without a savepoint the whole transaction
      starts over with nothing, with one it keeps what it held and drew. */
  lemma LostInsert(db: Db, t: nat, row: Row)
    requires t in db.open && row in db.open[t].missing && row !in db.open[t].held && row in db.rows
    requires forall u <- db.open | u != t :: row !in db.open[u].held
    ensures Next(db, Insert(t, row, false)).open[t] == Txn(map[], {}, [])
    ensures var x := Next(db, Insert(t, row, true)).open[t];
            x.held == db.open[t].held && x.docs == db.open[t].docs && row !in x.missing
  {
  }

  /** The place of document `i` among the numbers of its row. */
  lemma {:induction false} PlaceOf(docs: seq<Doc>, i: nat) returns (p: nat)
    requires i < |docs|
    ensures p < |Numbers(docs, docs[i].row)| && Numbers(docs, docs[i].row)[p] == docs[i].number
    ensures p == |Numbers(docs[..i], docs[i].row)|
  {
    var n := |docs| - 1;
    if i == n {
      p := |Numbers(docs[..n], docs[i].row)|;
    } else {
      p := PlaceOf(docs[..n], i);
      assert docs[..n][..i] == docs[..i];
    }
  }

  /** No two committed documents of a workspace ever carry the same printed number. */
  lemma {:induction false} PrintedOnce(steps: seq<Step>, prefix: string, i: nat, j: nat)
    requires i < j < |Run(EMPTY, steps).docs|
    ensures var (a, b) := (Run(EMPTY, steps).docs[i], Run(EMPTY, steps).docs[j]);
            a.row.workspace == b.row.workspace ==>
              DocumentNumbers.Render(prefix, a.row.year, a.number) != DocumentNumbers.Render(prefix, b.row.year, b.number)
  {
    var docs := Run(EMPTY, steps).docs;
    var a, b := docs[i], docs[j];
    if a.row.workspace == b.row.workspace
       && DocumentNumbers.Render(prefix, a.row.year, a.number) == DocumentNumbers.Render(prefix, b.row.year, b.number) {
      DocumentNumbers.RenderIsInjective(prefix, a.row.year, a.number, b.row.year, b.number);
      Gapless(steps, a.row);
      var p := PlaceOf(docs, i);
      var q := PlaceOf(docs, j);
      var upto := docs[..i + 1];
      assert upto[..i] == docs[..i] && docs[..j] == upto + docs[i + 1..j];
      NumbersConcat(upto, docs[i + 1..j], a.row);
    }
  }
}
