/** Physical stock counts: snapshot, tolerance, approval and reconciliation. */
module Counts {
  import opened Levels
  import opened Tables
  import opened StockInvariant
  import opened Rounding

  /** COUNT_TOLERANCE_PERCENT: variance beyond 2.00% of the expected quantity needs approval. */
  function NeedsReview(expected: int, counted: Option<nat>): bool {
    counted.Some? && counted.value != expected
    && (expected == 0 || 100 * Abs(counted.value - expected) > 2 * expected)
  }

  function Abs(x: int): int {
    if x < 0 then -x else x
  }

  function Variance(l: CountLine): int {
    if l.counted.None? then 0 else l.counted.value - l.expected
  }

  function Variances(lines: seq<CountLine>): (es: seq<Entry>)
    ensures |es| == |lines|
  {
    seq(|lines|, i requires 0 <= i < |lines| => Entry(lines[i].key, Variance(lines[i])))
  }

  /** One ADJUSTMENT row for each line that is off. */
  function CorrectionsTo(id: nat, lines: seq<CountLine>, n: nat): seq<Txn>
    requires n <= |lines|
  {
    if n == 0 then []
    else if Variance(lines[n - 1]) == 0 then CorrectionsTo(id, lines, n - 1)
    else
      CorrectionsTo(id, lines, n - 1)
      + [Txn(ADJUSTMENT, lines[n - 1].key, Variance(lines[n - 1]) > 0, Variance(lines[n - 1]), Counted(id))]
  }

  /** The level rows of a warehouse, each once, in whatever order the query returns them. */
  ghost predicate Listing(levels: Table, warehouse: nat, rows: seq<Key>) {
    && (forall i, j | 0 <= i < j < |rows| :: rows[i] != rows[j])
    && forall k :: k in rows <==> k in levels && k.bin.warehouse == warehouse
  }

  function Snapshot(levels: Table, rows: seq<Key>): (lines: seq<CountLine>)
    ensures |lines| == |rows|
  {
    seq(|rows|, i requires 0 <= i < |rows| => CountLine(rows[i], Get(levels, rows[i]).onHand, None, false, false))
  }

  function Flagged(lines: seq<CountLine>): (r: seq<CountLine>)
    ensures |r| == |lines|
  {
    seq(|lines|, i requires 0 <= i < |lines| =>
      lines[i].(requiresApproval := NeedsReview(lines[i].expected, lines[i].counted)))
  }

  function Approved(lines: seq<CountLine>): (r: seq<CountLine>)
    ensures |r| == |lines|
  {
    seq(|lines|, i requires 0 <= i < |lines| =>
      if lines[i].requiresApproval then lines[i].(approved := true) else lines[i])
  }

  const CLOSED := {C_COMPLETED, C_RECONCILED, C_CANCELLED}

  ghost function CreateRefusal(manager: bool): Option<Error> {
    if manager then None else Some(Forbidden)
  }

  ghost function RecordRefusal(s: State, manager: bool, id: nat, line: nat): Option<Error> {
    if !manager then Some(Forbidden)
    else if id >= |s.counts| then Some(NotFound)
    else if s.counts[id].status in CLOSED then Some(InvalidState)
    else if line >= |s.counts[id].lines| then Some(NotFound)
    else None
  }

  ghost function CompleteRefusal(s: State, manager: bool, id: nat): Option<Error> {
    if !manager then Some(Forbidden)
    else if id >= |s.counts| then Some(NotFound)
    else if s.counts[id].status in CLOSED then Some(InvalidState)
    else if exists l <- s.counts[id].lines :: l.counted.None? then Some(Uncounted)
    else None
  }

  ghost function ApproveRefusal(s: State, manager: bool, id: nat): Option<Error> {
    if !manager then Some(Forbidden)
    else if id >= |s.counts| then Some(NotFound)
    else if s.counts[id].status != C_COMPLETED then Some(InvalidState)
    else None
  }

  /** The database refuses the flush when a variance would take `on_hand` below zero. */
  ghost function ReconcileRefusal(s: State, manager: bool, id: nat): Option<Error> {
    if !manager then Some(Forbidden)
    else if id >= |s.counts| then Some(NotFound)
    else if s.counts[id].status != C_COMPLETED then Some(InvalidState)
    else if exists l <- s.counts[id].lines :: l.requiresApproval && !l.approved then Some(NeedsApproval)
    else if exists l <- s.counts[id].lines :: Get(s.levels, l.key).onHand + Variance(l) < 0 then Some(CheckViolation)
    else None
  }

  ghost function CancelRefusal(s: State, manager: bool, id: nat): Option<Error> {
    if !manager then Some(Forbidden)
    else if id >= |s.counts| then Some(NotFound)
    else if s.counts[id].status in CLOSED then Some(InvalidState)
    else None
  }

  ghost predicate Creates(s: State, manager: bool, warehouse: nat, rows: seq<Key>, s': State) {
    && CreateRefusal(manager) == None
    && Listing(s.levels, warehouse, rows)
    && s' == s.(counts := s.counts + [Count(warehouse, |s.ledger|, C_SCHEDULED, Snapshot(s.levels, rows))])
  }

  ghost predicate Records(s: State, manager: bool, id: nat, line: nat, counted: Tally, s': State) {
    && RecordRefusal(s, manager, id, line) == None
    && var c := s.counts[id];
    && s' == s.(counts := s.counts[id := c.(status := C_IN_PROGRESS,
                                            lines := c.lines[line := c.lines[line].(counted := Some(Nearest(counted)))])])
  }

  ghost predicate Completes(s: State, manager: bool, id: nat, s': State) {
    && CompleteRefusal(s, manager, id) == None
    && var c := s.counts[id];
    && s' == s.(counts := s.counts[id := c.(status := C_COMPLETED, lines := Flagged(c.lines))])
  }

  ghost predicate Approves(s: State, manager: bool, id: nat, s': State) {
    && ApproveRefusal(s, manager, id) == None
    && var c := s.counts[id];
    && s' == s.(counts := s.counts[id := c.(lines := Approved(c.lines))])
  }

  ghost predicate Reconciles(s: State, manager: bool, id: nat, s': State) {
    && ReconcileRefusal(s, manager, id) == None
    && var c := s.counts[id];
    && s' == s.(levels := s'.levels,
                ledger := s.ledger + CorrectionsTo(id, c.lines, |c.lines|),
                counts := s.counts[id := c.(status := C_RECONCILED)])
    && forall k :: Get(s'.levels, k) == Get(s.levels, k).(
                     onHand := Get(s.levels, k).onHand + Sum(Variances(c.lines), One(k)))
  }

  ghost predicate Cancels(s: State, manager: bool, id: nat, s': State) {
    && CancelRefusal(s, manager, id) == None
    && s' == s.(counts := s.counts[id := s.counts[id].(status := C_CANCELLED)])
  }

  // ---- what a count does to a level ----

  lemma {:induction false} CorrectionsReplay(id: nat, lines: seq<CountLine>, n: nat, sc: Scope)
    requires n <= |lines|
    ensures Replay(CorrectionsTo(id, lines, n), sc) == SumTo(Variances(lines), n, sc)
    ensures forall t <- CorrectionsTo(id, lines, n) :: t.kind == ADJUSTMENT
  {
    if n != 0 {
      CorrectionsReplay(id, lines, n - 1, sc);
      if Variance(lines[n - 1]) != 0 {
        var before, rows := CorrectionsTo(id, lines, n - 1), CorrectionsTo(id, lines, n);
        ReplaySame(rows, before, |before|, sc);
        assert rows[|before|].key == lines[n - 1].key;
      }
    }
  }

  /** A level is on at most one line of a count, so its correction is that line's variance. */
  lemma {:induction false} OneLinePerLevel(lines: seq<CountLine>, n: nat, i: nat)
    requires n <= |lines| && i < |lines| && Distinct(lines)
    ensures SumTo(Variances(lines), n, One(lines[i].key)) == if i < n then Variance(lines[i]) else 0
  {
    if n != 0 {
      OneLinePerLevel(lines, n - 1, i);
    }
  }

  lemma {:induction false} NoLineForLevel(lines: seq<CountLine>, n: nat, k: Key)
    requires n <= |lines| && forall l <- lines :: l.key != k
    ensures SumTo(Variances(lines), n, One(k)) == 0
  {
    if n != 0 {
      NoLineForLevel(lines, n - 1, k);
      assert lines[n - 1] in lines;
    }
  }

  lemma {:induction false} SinceThen(ledger: seq<Txn>, since: nat, k: Key)
    requires since <= |ledger|
    ensures Replay(ledger, One(k)) == ReplayTo(ledger, since, One(k)) + Replay(ledger[since..], One(k))
  {
    var before, after := ledger[..since], ledger[since..];
    assert ledger == before + after;
    ReplayConcat(before, after, One(k));
    ReplaySame(ledger, before, since, One(k));
  }

  /** Line `i` of a reconciled count: its level ends at the counted quantity plus what the level gained
      since the count was scheduled.  The ledger recorded that gain but for the gap the two had then and
      have now. */
  lemma ReconciledLine(s: State, manager: bool, id: nat, s': State, i: nat)
    requires Inv(s) && Reconciles(s, manager, id, s') && i < |s.counts[id].lines|
    ensures var c, l := s.counts[id], s.counts[id].lines[i];
            && c.since <= |s.ledger| && l.counted.Some?
            && Get(s'.levels, l.key).onHand == l.counted.value + Get(s.levels, l.key).onHand - l.expected
            && Get(s'.levels, l.key).onHand
            == l.counted.value + Replay(s.ledger[c.since..], One(l.key))
               + OnHandGap(s.levels, s.ledger, l.key) - (l.expected - ReplayTo(s.ledger, c.since, One(l.key)))
  {
    var c, l := s.counts[id], s.counts[id].lines[i];
    assert CountOk(c, s.ledger) && l in c.lines;
    SinceThen(s.ledger, c.since, l.key);
    OneLinePerLevel(c.lines, |c.lines|, i);
  }

  /** Levels that are on no line of the count stay as they are. */
  lemma ReconcileLeavesOthers(s: State, manager: bool, id: nat, s': State, k: Key)
    requires Inv(s) && Reconciles(s, manager, id, s')
    requires forall l <- s.counts[id].lines :: l.key != k
    ensures Get(s'.levels, k) == Get(s.levels, k)
  {
    NoLineForLevel(s.counts[id].lines, |s.counts[id].lines|, k);
  }

  // ---- what no step changes in a count once it is scheduled ----

  predicate Kept(c: Count, c': Count) {
    && c.since == c'.since && |c.lines| == |c'.lines|
    && forall i | 0 <= i < |c.lines| :: c.lines[i].key == c'.lines[i].key && c.lines[i].expected == c'.lines[i].expected
  }

  ghost predicate Stay(counts: seq<Count>, counts': seq<Count>) {
    |counts| <= |counts'| && forall i | 0 <= i < |counts| :: Kept(counts[i], counts'[i])
  }

  lemma CreateStays(s: State, manager: bool, warehouse: nat, rows: seq<Key>, s': State)
    requires Creates(s, manager, warehouse, rows, s')
    ensures Stay(s.counts, s'.counts)
  {
  }

  lemma RecordStays(s: State, manager: bool, id: nat, line: nat, counted: Tally, s': State)
    requires Records(s, manager, id, line, counted, s')
    ensures Stay(s.counts, s'.counts)
  {
  }

  lemma CompleteStays(s: State, manager: bool, id: nat, s': State)
    requires Completes(s, manager, id, s')
    ensures Stay(s.counts, s'.counts)
  {
  }

  lemma ApproveStays(s: State, manager: bool, id: nat, s': State)
    requires Approves(s, manager, id, s')
    ensures Stay(s.counts, s'.counts)
  {
  }

  lemma ReconcileStays(s: State, manager: bool, id: nat, s': State)
    requires Reconciles(s, manager, id, s')
    ensures Stay(s.counts, s'.counts)
  {
  }

  lemma CancelStays(s: State, manager: bool, id: nat, s': State)
    requires Cancels(s, manager, id, s')
    ensures Stay(s.counts, s'.counts)
  {
  }

  // ---- every step keeps the invariant ----

  /** A step that rewrites one count and nothing else. */
  lemma CountSetKeeps(s: State, id: nat, c: Count, s': State)
    requires Inv(s) && id < |s.counts|
    requires s' == s.(counts := s.counts[id := c])
    requires CountOk(c, s.ledger)
    ensures Inv(s')
  {
  }

  lemma CreateKeeps(s: State, manager: bool, warehouse: nat, rows: seq<Key>, s': State)
    requires Inv(s) && Creates(s, manager, warehouse, rows, s')
    ensures Inv(s')
  {
    var c := s'.counts[|s.counts|];
    forall i | 0 <= i < |c.lines|
      ensures 0 <= c.lines[i].expected
    {
      assert NonNegativeLevel(Get(s.levels, rows[i]));
    }
    assert CountOk(c, s.ledger);
  }

  lemma RecordKeeps(s: State, manager: bool, id: nat, line: nat, counted: Tally, s': State)
    requires Inv(s) && Records(s, manager, id, line, counted, s')
    ensures Inv(s')
  {
    var c := s.counts[id];
    assert CountOk(c, s.ledger);
    assert c.lines[line] in c.lines;
    CountSetKeeps(s, id, s'.counts[id], s');
  }

  lemma CompleteKeeps(s: State, manager: bool, id: nat, s': State)
    requires Inv(s) && Completes(s, manager, id, s')
    ensures Inv(s')
  {
    var c := s.counts[id];
    assert CountOk(c, s.ledger);
    assert forall i | 0 <= i < |c.lines| :: c.lines[i] in c.lines;
    CountSetKeeps(s, id, s'.counts[id], s');
  }

  lemma ApproveKeeps(s: State, manager: bool, id: nat, s': State)
    requires Inv(s) && Approves(s, manager, id, s')
    ensures Inv(s')
  {
    var c := s.counts[id];
    assert CountOk(c, s.ledger);
    assert forall i | 0 <= i < |c.lines| :: c.lines[i] in c.lines;
    CountSetKeeps(s, id, s'.counts[id], s');
  }

  lemma CancelKeeps(s: State, manager: bool, id: nat, s': State)
    requires Inv(s) && Cancels(s, manager, id, s')
    ensures Inv(s')
  {
    assert CountOk(s.counts[id], s.ledger);
    CountSetKeeps(s, id, s'.counts[id], s');
  }

  lemma ReconcileLevels(s: State, manager: bool, id: nat, s': State, k: Key)
    requires Inv(s) && Reconciles(s, manager, id, s')
    ensures OnHandGap(s'.levels, s'.ledger, k) == OnHandGap(s.levels, s.ledger, k) && NonNegativeLevel(Get(s'.levels, k))
  {
    var c := s.counts[id];
    assert CountOk(c, s.ledger) && NonNegativeLevel(Get(s.levels, k));
    ReplayConcat(s.ledger, CorrectionsTo(id, c.lines, |c.lines|), One(k));
    CorrectionsReplay(id, c.lines, |c.lines|, One(k));
    if i :| 0 <= i < |c.lines| && c.lines[i].key == k {
      OneLinePerLevel(c.lines, |c.lines|, i);
      assert c.lines[i] in c.lines;
    } else {
      NoLineForLevel(c.lines, |c.lines|, k);
    }
  }

  lemma ReconcileKeeps(s: State, manager: bool, id: nat, s': State)
    requires Inv(s) && Reconciles(s, manager, id, s')
    ensures Inv(s')
    ensures forall k :: OnHandGap(s'.levels, s'.ledger, k) == OnHandGap(s.levels, s.ledger, k)
  {
    var c, rows := s.counts[id], CorrectionsTo(id, s.counts[id].lines, |s.counts[id].lines|);
    forall k
      ensures OnHandGap(s'.levels, s'.ledger, k) == OnHandGap(s.levels, s.ledger, k) && NonNegativeLevel(Get(s'.levels, k))
    {
      ReconcileLevels(s, manager, id, s', k);
    }
    CorrectionsReplay(id, c.lines, |c.lines|, All(0));
    BalancedOutside(s.ledger, rows, s.transfers);
    CountsKeep(s.counts, s.ledger, rows);
    assert CountOk(c, s'.ledger);
  }

  // ---- the loops over a count's lines ----

  method SnapshotLines(levels: Table, rows: seq<Key>) returns (lines: seq<CountLine>)
    ensures lines == Snapshot(levels, rows)
  {
    lines := [];
    for i := 0 to |rows|
      invariant lines == Snapshot(levels, rows)[..i]
    {
      lines := lines + [CountLine(rows[i], Get(levels, rows[i]).onHand, None, false, false)];
    }
  }

  method FlagLines(lines: seq<CountLine>) returns (r: seq<CountLine>)
    ensures r == Flagged(lines)
  {
    r := [];
    for i := 0 to |lines|
      invariant r == Flagged(lines)[..i]
    {
      r := r + [lines[i].(requiresApproval := NeedsReview(lines[i].expected, lines[i].counted))];
    }
  }

  method ApproveLines(lines: seq<CountLine>) returns (r: seq<CountLine>)
    ensures r == Approved(lines)
  {
    r := [];
    for i := 0 to |lines|
      invariant r == Approved(lines)[..i]
    {
      if lines[i].requiresApproval {
        r := r + [lines[i].(approved := true)];
      } else {
        r := r + [lines[i]];
      }
    }
  }

  /** After the corrections a level of the count holds what it held plus its own variance. */
  lemma CorrectedLevel(levels: Table, session: Table, lines: seq<CountLine>, l: CountLine)
    requires Distinct(lines) && l in lines
    requires OnHandMoved(levels, session, Variances(lines), false, |lines|)
    ensures Get(session, l.key).onHand == Get(levels, l.key).onHand + Variance(l)
  {
    var i :| 0 <= i < |lines| && lines[i] == l;
    OneLinePerLevel(lines, |lines|, i);
  }

  /** `below` tells whether the CHECK on `on_hand` fails when the session is flushed. */
  method CorrectLines(levels: Table, id: nat, lines: seq<CountLine>) returns (session: Table, rows: seq<Txn>, below: bool)
    requires Distinct(lines)
    ensures rows == CorrectionsTo(id, lines, |lines|)
    ensures OnHandMoved(levels, session, Variances(lines), false, |lines|)
    ensures below == exists l <- lines :: Get(levels, l.key).onHand + Variance(l) < 0
  {
    session, rows := levels, [];
    for i := 0 to |lines|
      invariant rows == CorrectionsTo(id, lines, i)
      invariant OnHandMoved(levels, session, Variances(lines), false, i)
    {
      var l := lines[i];
      var variance := Variance(l);
      if variance != 0 {
        var level := Get(session, l.key);
        session := session[l.key := level.(onHand := level.onHand + variance)];
        rows := rows + [Txn(ADJUSTMENT, l.key, variance > 0, variance, Counted(id))];
      }
    }
    forall l <- lines
      ensures Get(session, l.key).onHand == Get(levels, l.key).onHand + Variance(l)
    {
      CorrectedLevel(levels, session, lines, l);
    }
    below := exists l <- lines :: Get(session, l.key).onHand < 0;
  }

  lemma {:induction false} CorrectedIsReconciled(s: State, manager: bool, id: nat, session: Table, s': State)
    requires ReconcileRefusal(s, manager, id) == None
    requires var c := s.counts[id];
             OnHandMoved(s.levels, session, Variances(c.lines), false, |c.lines|)
             && s' == s.(levels := session, ledger := s.ledger + CorrectionsTo(id, c.lines, |c.lines|),
                         counts := s.counts[id := c.(status := C_RECONCILED)])
    ensures Reconciles(s, manager, id, s')
  {
  }
}
