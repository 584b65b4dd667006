/** Every ledger row is explained by a document, for good. */
module LedgerLaws {
  import opened Levels
  import opened Tables
  import opened StockInvariant
  import opened Rounding
  import opened Demands
  import opened StockRuns
  import Postings
  import Transfers
  import Counts
  import Deliveries
  import TransferLaws

  /** The row is what its source says: a manual adjustment, goods that came in, goods sent back, or a line of the
      note, transfer or count it names, which is past the step that wrote the row. */
  predicate Explained(s: State, t: Txn) {
    match t.source
    case Manual => t.kind == ADJUSTMENT && (0 < t.quantity ==> t.inbound) && (t.quantity < 0 ==> !t.inbound)
    case Grn => t.kind == RECEIPT && t.inbound && 0 <= t.quantity
    case Return => t.kind == ISSUE && !t.inbound && t.quantity <= 0
    case NoteOut(n) =>
      && t.kind == ISSUE && !t.inbound && n < |s.notes| && s.notes[n].status != N_DRAFT
      && exists x <- s.notes[n].lines :: x.target == Some(t.key) && -t.quantity == x.quantity
    case NoteBack(n) =>
      && t.kind == ISSUE && t.inbound && n < |s.notes| && s.notes[n].status == N_CANCELLED
      && exists x <- s.notes[n].lines :: x.target == Some(t.key) && t.quantity == x.quantity
    case Moving(m) =>
      && t.kind == TRANSFER && m < |s.transfers|
      && if t.inbound
         then s.transfers[m].status == T_RECEIVED
              && exists l <- s.transfers[m].lines :: t.key == Key(l.product, l.destination) && t.quantity == l.received
         else s.transfers[m].status in {T_IN_TRANSIT, T_RECEIVED, T_CANCELLED}
              && exists l <- s.transfers[m].lines :: t.key == Key(l.product, l.source) && -t.quantity == l.quantity
    case MovedBack(m) =>
      && t.kind == TRANSFER && !t.inbound && m < |s.transfers| && s.transfers[m].status == T_CANCELLED
      && exists l <- s.transfers[m].lines :: t.key == Key(l.product, l.source) && t.quantity == l.quantity
    case Counted(c) =>
      && t.kind == ADJUSTMENT && t.inbound == (0 < t.quantity) && c < |s.counts| && s.counts[c].status == C_RECONCILED
      && exists l <- s.counts[c].lines :: l.key == t.key && l.counted.Some? && t.quantity == l.counted.value - l.expected != 0
  }

  // ---- what explains a row stays ----

  /** A transfer keeps its lines, but for what they received; a note that left DRAFT keeps its lines and is not
      revived; a reconciled count stays. */
  ghost predicate Keeps(s: State, s': State) {
    && |s.notes| <= |s'.notes| && |s.transfers| <= |s'.transfers| && |s.counts| <= |s'.counts|
    && (forall n | 0 <= n < |s.notes| && s.notes[n].status != N_DRAFT ::
          s'.notes[n].lines == s.notes[n].lines && s'.notes[n].status != N_DRAFT
          && (s.notes[n].status == N_CANCELLED ==> s'.notes[n].status == N_CANCELLED))
    && (forall m | 0 <= m < |s.transfers| :: TransferKeeps(s.transfers[m], s'.transfers[m]))
    && forall c | 0 <= c < |s.counts| && s.counts[c].status == C_RECONCILED :: s'.counts[c] == s.counts[c]
  }

  predicate TransferKeeps(t: Transfer, t': Transfer) {
    && TransferLaws.Succeeds(t.status, t'.status) && (t.status in {T_RECEIVED, T_CANCELLED} ==> t' == t)
    && |t'.lines| == |t.lines|
    && forall i | 0 <= i < |t.lines| ::
         t'.lines[i].product == t.lines[i].product && t'.lines[i].source == t.lines[i].source
         && t'.lines[i].destination == t.lines[i].destination && t'.lines[i].quantity == t.lines[i].quantity
  }

  lemma TransfersKeep(s: State, r: Request, s': State)
    requires Step(s, r, s')
    ensures |s.transfers| <= |s'.transfers|
    ensures forall m | 0 <= m < |s.transfers| :: TransferKeeps(s.transfers[m], s'.transfers[m])
  {
    if !TransferLaws.Moving(r) {
      TransferLaws.OthersRest(s, r, s');
    }
  }

  lemma NotesKeep(s: State, r: Request, s': State)
    requires Step(s, r, s')
    ensures |s.notes| <= |s'.notes|
    ensures forall n | 0 <= n < |s.notes| && s.notes[n].status == N_CANCELLED :: s'.notes[n].status == N_CANCELLED
  {
    if !r.DraftNote? && !r.RedraftNote? && !r.ConfirmNote? && !r.CancelNote? {
      assert s'.notes == s.notes;
    }
  }

  lemma CountsKeepFinal(s: State, r: Request, s': State)
    requires Step(s, r, s')
    ensures |s.counts| <= |s'.counts|
    ensures forall c | 0 <= c < |s.counts| && s.counts[c].status == C_RECONCILED :: s'.counts[c] == s.counts[c]
  {
    if !Counting(r) {
      CountsStay(s, r, s');
    }
  }

  lemma StepKeepsDocuments(s: State, r: Request, s': State)
    requires Step(s, r, s')
    ensures Keeps(s, s')
  {
    TransfersKeep(s, r, s');
    NotesKeep(s, r, s');
    NotesFreeze(s, r, s');
    CountsKeepFinal(s, r, s');
  }

  lemma LineStays(t: Transfer, t': Transfer, key: Key, quantity: int)
    requires TransferKeeps(t, t')
    ensures (exists l <- t.lines :: key == Key(l.product, l.source) && quantity == l.quantity)
        ==> exists l <- t'.lines :: key == Key(l.product, l.source) && quantity == l.quantity
  {
    if l :| l in t.lines && key == Key(l.product, l.source) && quantity == l.quantity {
      var i :| 0 <= i < |t.lines| && t.lines[i] == l;
      assert t'.lines[i] in t'.lines;
    }
  }

  lemma StaysExplained(s: State, s': State, t: Txn)
    requires Keeps(s, s') && Explained(s, t)
    ensures Explained(s', t)
  {
    match t.source
    case Moving(m) =>
      LineStays(s.transfers[m], s'.transfers[m], t.key, -t.quantity);
      if !t.inbound {
        var l :| l in s.transfers[m].lines && t.key == Key(l.product, l.source) && -t.quantity == l.quantity;
        var l' :| l' in s'.transfers[m].lines && t.key == Key(l'.product, l'.source) && -t.quantity == l'.quantity;
      }
    case MovedBack(m) => LineStays(s.transfers[m], s'.transfers[m], t.key, t.quantity);
    case _ =>
  }

  // ---- what the documents write ----

  ghost predicate AllExplained(s: State, rows: seq<Txn>) {
    forall t <- rows :: Explained(s, t)
  }

  lemma {:induction false} IssuedRows(lines: seq<Ask>, n: nat, s: State)
    requires n <= |lines|
    ensures AllExplained(s, Postings.IssueRows(lines, n))
  {
    if n != 0 {
      IssuedRows(lines, n - 1, s);
      NearestSign(-lines[n - 1].amount);
    }
  }

  lemma NearestSign(x: real)
    ensures x <= 0.0 ==> Nearest(x) <= 0
    ensures 0.0 <= x ==> 0 <= Nearest(x)
  {
  }

  lemma {:induction false} CorrectedRows(s: State, id: nat, n: nat)
    requires id < |s.counts| && n <= |s.counts[id].lines| && s.counts[id].status == C_RECONCILED
    ensures AllExplained(s, Counts.CorrectionsTo(id, s.counts[id].lines, n))
  {
    if n != 0 {
      CorrectedRows(s, id, n - 1);
      assert s.counts[id].lines[n - 1] in s.counts[id].lines;
    }
  }

  lemma {:induction false} NotedRows(s: State, id: nat, back: bool, n: nat)
    requires id < |s.notes| && n <= |s.notes[id].lines|
    requires if back then s.notes[id].status == N_CANCELLED else s.notes[id].status != N_DRAFT
    ensures AllExplained(s, Deliveries.RowsTo(id, s.notes[id].lines, back, n))
  {
    if n != 0 {
      NotedRows(s, id, back, n - 1);
      assert s.notes[id].lines[n - 1] in s.notes[id].lines;
    }
  }

  lemma MovedRows(s: State, id: nat)
    requires id < |s.transfers|
    ensures s.transfers[id].status in {T_IN_TRANSIT, T_RECEIVED, T_CANCELLED} ==>
              AllExplained(s, Transfers.DispatchRows(id, s.transfers[id].lines))
    ensures s.transfers[id].status == T_RECEIVED ==> AllExplained(s, Transfers.ReceiptRows(id, s.transfers[id].lines))
    ensures s.transfers[id].status == T_CANCELLED ==> AllExplained(s, Transfers.ReturnRows(id, s.transfers[id].lines))
  {
    var lines := s.transfers[id].lines;
    forall i | 0 <= i < |lines|
      ensures lines[i] in lines
    {
    }
  }

  /** `s'` has the ledger of `s` and more rows, all explained. */
  ghost predicate Appends(s: State, s': State) {
    s.ledger <= s'.ledger && forall i | |s.ledger| <= i < |s'.ledger| :: Explained(s', s'.ledger[i])
  }

  lemma RowsAppend(s: State, s': State, rows: seq<Txn>)
    requires s'.ledger == s.ledger + rows && AllExplained(s', rows)
    ensures Appends(s, s')
  {
    forall i | |s.ledger| <= i < |s'.ledger|
      ensures s'.ledger[i] in rows
    {
      assert s'.ledger[i] == rows[i - |s.ledger|];
    }
  }

  lemma PostingAppends(s: State, r: Request, s': State)
    requires Step(s, r, s') && Posts(r)
    ensures Appends(s, s')
  {
    match r
    case Adjust(_, k, q) =>
      NearestSign(q);
      RowsAppend(s, s', [Postings.AdjustRow(k, q)]);
    case Dispose(w, p, bins, a, d) =>
      NearestSign(a);
      var k :| Postings.Placed(s.levels, w, p, bins, k)
               && Postings.Posts(s, Postings.Gain(k, a), Others, Postings.ReceiptRows(k, a), Postings.Gain(k, d), s');
      RowsAppend(s, s', Postings.ReceiptRows(k, a));
    case Issue(xs) =>
      IssuedRows(xs, |xs|, s');
      RowsAppend(s, s', Postings.IssueRows(xs, |xs|));
  }

  lemma TransferAppends(s: State, r: Request, s': State)
    requires Step(s, r, s') && (r.DispatchTransfer? || r.ReceiveTransfer? || r.CancelTransfer?)
    ensures Appends(s, s')
  {
    match r
    case DispatchTransfer(t) =>
      MovedRows(s', t);
      RowsAppend(s, s', Transfers.DispatchRows(t, s'.transfers[t].lines));
    case ReceiveTransfer(t, m) =>
      MovedRows(s', t);
      RowsAppend(s, s', Transfers.ReceiptRows(t, s'.transfers[t].lines));
    case CancelTransfer(t) =>
      if s.transfers[t].status == T_IN_TRANSIT {
        MovedRows(s', t);
        RowsAppend(s, s', Transfers.ReturnRows(t, s'.transfers[t].lines));
      }
  }

  lemma NoteAppends(s: State, r: Request, s': State)
    requires Step(s, r, s') && (r.ReconcileCount? || r.ConfirmNote? || r.CancelNote?)
    ensures Appends(s, s')
  {
    match r
    case ReconcileCount(m, c) =>
      CorrectedRows(s', c, |s'.counts[c].lines|);
      RowsAppend(s, s', Counts.CorrectionsTo(c, s'.counts[c].lines, |s'.counts[c].lines|));
    case ConfirmNote(n) =>
      if s.notes[n].status == N_DRAFT {
        NotedRows(s', n, false, |s'.notes[n].lines|);
        RowsAppend(s, s', Deliveries.RowsTo(n, s'.notes[n].lines, false, |s'.notes[n].lines|));
      }
    case CancelNote(n) =>
      NotedRows(s', n, true, |s'.notes[n].lines|);
      RowsAppend(s, s', Deliveries.RowsTo(n, s'.notes[n].lines, true, |s'.notes[n].lines|));
  }

  /** What a request appends to the ledger is explained by what it leaves. */
  lemma StepAppends(s: State, r: Request, s': State)
    requires Step(s, r, s')
    ensures Appends(s, s')
  {
    if !MovesStock(r) {
      StillLedger(s, r, s');
    } else if Posts(r) {
      PostingAppends(s, r, s');
    } else if r.DispatchTransfer? || r.ReceiveTransfer? || r.CancelTransfer? {
      TransferAppends(s, r, s');
    } else {
      NoteAppends(s, r, s');
    }
  }

  lemma StillLedger(s: State, r: Request, s': State)
    requires Step(s, r, s') && !MovesStock(r)
    ensures s'.ledger == s.ledger
  {
  }

  lemma ExplainedStep(s: State, r: Request, s': State)
    requires Step(s, r, s') && AllExplained(s, s.ledger)
    ensures AllExplained(s', s'.ledger)
  {
    StepAppends(s, r, s');
    StepKeepsDocuments(s, r, s');
    forall t <- s'.ledger
      ensures Explained(s', t)
    {
      var i :| 0 <= i < |s'.ledger| && s'.ledger[i] == t;
      if i < |s.ledger| {
        assert s.ledger[i] in s.ledger;
        StaysExplained(s, s', t);
      }
    }
  }

  /** In every state of every run each ledger row is explained: by its kind, sign and direction, and, for all
      that comes from a note, a transfer or a count, by a line of that document with the same level and
      quantity. */
  lemma {:induction false} LedgerExplained(autoflush: bool, states: seq<State>, requests: seq<Request>, i: nat)
    requires Run(states, requests) && states[0] == Empty(autoflush) && i <= |requests|
    ensures AllExplained(states[i], states[i].ledger)
  {
    if i != 0 {
      LedgerExplained(autoflush, states, requests, i - 1);
      ExplainedStep(states[i - 1], requests[i - 1], states[i]);
    }
  }
}
