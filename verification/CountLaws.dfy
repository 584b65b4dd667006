/** The gate before a count changes stock: what must be reviewed, who approved it and when. */
module CountLaws {
  import opened Levels
  import opened Tables
  import opened StockInvariant
  import opened Rounding
  import opened StockRuns
  import opened Counts

  /** The counted quantity is off by more than two per cent of the expected one, or by anything at all where
      nothing was expected. */
  predicate Beyond(l: CountLine) {
    l.counted.Some? && l.counted.value != l.expected
    && (l.expected == 0 || 100 * l.counted.value > 102 * l.expected || 100 * l.counted.value < 98 * l.expected)
  }

  lemma BeyondIsFlagged(l: CountLine)
    requires 0 <= l.expected
    ensures NeedsReview(l.expected, l.counted) <==> Beyond(l)
  {
  }

  // ---- exactly when a step goes through ----

  /** A completed count is reconciled by a manager when every flagged line is approved and no level would end
      below zero. */
  lemma ReconcilesIff(s: State, manager: bool, id: nat)
    ensures ReconcileRefusal(s, manager, id) == None <==>
              && manager && id < |s.counts| && s.counts[id].status == C_COMPLETED
              && forall l <- s.counts[id].lines ::
                   && (l.requiresApproval ==> l.approved)
                   && (l.counted.Some? ==> 0 <= Get(s.levels, l.key).onHand + l.counted.value - l.expected)
                   && (l.counted.None? ==> 0 <= Get(s.levels, l.key).onHand)
  {
  }

  /** So what is reconciled has no flagged line that nobody approved. */
  lemma NothingUnapproved(s: State, manager: bool, id: nat, s': State)
    requires Reconciles(s, manager, id, s')
    ensures forall l <- s.counts[id].lines :: l.requiresApproval ==> l.approved
    ensures s'.counts == s.counts[id := s.counts[id].(status := C_RECONCILED)]
  {
    ReconcilesIff(s, manager, id);
  }

  /** The other steps, over the status of the count: an open one takes figures and can be completed once every
      line is counted, or cancelled; a completed one is approved. */
  lemma StepsIff(s: State, manager: bool, id: nat, line: nat)
    requires id < |s.counts|
    ensures var c := s.counts[id];
            var isOpen := manager && (c.status == C_SCHEDULED || c.status == C_IN_PROGRESS);
            && (RecordRefusal(s, manager, id, line) == None <==> isOpen && line < |c.lines|)
            && (CompleteRefusal(s, manager, id) == None <==> isOpen && forall l <- c.lines :: l.counted.Some?)
            && (Counts.CancelRefusal(s, manager, id) == None <==> isOpen)
            && (Counts.ApproveRefusal(s, manager, id) == None <==> manager && c.status == C_COMPLETED)
  {
  }

  /** What the refusals mean. */
  lemma CountAnswers(s: State, manager: bool, id: nat, line: nat)
    ensures Counts.CreateRefusal(manager) == if manager then None else Some(Forbidden)
    ensures !manager ==>
              RecordRefusal(s, manager, id, line) == CompleteRefusal(s, manager, id) == Counts.ApproveRefusal(s, manager, id)
              == ReconcileRefusal(s, manager, id) == Counts.CancelRefusal(s, manager, id) == Some(Forbidden)
    ensures manager && |s.counts| <= id ==>
              RecordRefusal(s, manager, id, line) == CompleteRefusal(s, manager, id) == Counts.ApproveRefusal(s, manager, id)
              == ReconcileRefusal(s, manager, id) == Counts.CancelRefusal(s, manager, id) == Some(NotFound)
    ensures manager && id < |s.counts| ==>
              var c := s.counts[id];
              var isOpen := c.status == C_SCHEDULED || c.status == C_IN_PROGRESS;
              && (RecordRefusal(s, manager, id, line)
                  == if !isOpen then Some(InvalidState) else if |c.lines| <= line then Some(NotFound) else None)
              && (CompleteRefusal(s, manager, id)
                  == if !isOpen then Some(InvalidState)
                     else if exists l :: l in c.lines && l.counted.None? then Some(Uncounted) else None)
              && (Counts.CancelRefusal(s, manager, id) == if isOpen then None else Some(InvalidState))
              && (Counts.ApproveRefusal(s, manager, id) == if c.status == C_COMPLETED then None else Some(InvalidState))
              && (c.status != C_COMPLETED ==> ReconcileRefusal(s, manager, id) == Some(InvalidState))
              && (c.status == C_COMPLETED ==>
                    if exists l :: l in c.lines && l.requiresApproval && !l.approved
                    then ReconcileRefusal(s, manager, id) == Some(NeedsApproval)
                    else ReconcileRefusal(s, manager, id) in {None, Some(CheckViolation)})
  {
  }

  /** What they do: completion flags exactly the lines beyond the
      tolerance, approval covers exactly the flagged lines, and cancelling leaves all lines alone. */
  lemma StepsDo(s: State, manager: bool, id: nat, s': State)
    requires id < |s.counts| && CountOk(s.counts[id], s.ledger)
    ensures Completes(s, manager, id, s') ==>
              && |s'.counts| == |s.counts| && s' == s.(counts := s.counts[id := s'.counts[id]])
              && s'.counts[id] == s.counts[id].(status := C_COMPLETED, lines := s'.counts[id].lines)
              && |s'.counts[id].lines| == |s.counts[id].lines|
              && forall i | 0 <= i < |s.counts[id].lines| ::
                   s'.counts[id].lines[i] == s.counts[id].lines[i].(requiresApproval := Beyond(s.counts[id].lines[i]))
    ensures Counts.Approves(s, manager, id, s') ==>
              && |s'.counts| == |s.counts| && s' == s.(counts := s.counts[id := s'.counts[id]])
              && s'.counts[id] == s.counts[id].(lines := s'.counts[id].lines)
              && |s'.counts[id].lines| == |s.counts[id].lines|
              && forall i | 0 <= i < |s.counts[id].lines| ::
                   var l := s.counts[id].lines[i];
                   s'.counts[id].lines[i] == l.(approved := l.approved || l.requiresApproval)
    ensures Counts.Cancels(s, manager, id, s') ==> s' == s.(counts := s.counts[id := s.counts[id].(status := C_CANCELLED)])
  {
    forall i | 0 <= i < |s.counts[id].lines|
      ensures NeedsReview(s.counts[id].lines[i].expected, s.counts[id].lines[i].counted) <==> Beyond(s.counts[id].lines[i])
    {
      assert s.counts[id].lines[i] in s.counts[id].lines;
      BeyondIsFlagged(s.counts[id].lines[i]);
    }
  }

  /** A recorded figure is the nearest hundredth; the other lines stay. */
  lemma RecordDoes(s: State, manager: bool, id: nat, line: nat, x: Tally, s': State)
    requires Records(s, manager, id, line, x, s')
    ensures id < |s.counts| && line < |s.counts[id].lines|
    ensures Nearest(x) as real - 0.5 <= x < Nearest(x) as real + 0.5
    ensures var c := s.counts[id];
            s' == s.(counts := s.counts[id := c.(status := C_IN_PROGRESS,
                                                 lines := c.lines[line := c.lines[line].(counted := Some(Nearest(x)))])])
  {
    CentsOf(x);
  }

  /** A count is scheduled with every level row of its warehouse, each once, at the quantity on hand. */
  lemma ScheduledLines(s: State, manager: bool, warehouse: nat, rows: seq<Key>, s': State)
    requires Counts.Creates(s, manager, warehouse, rows, s')
    ensures manager && |s'.counts| == |s.counts| + 1 && s' == s.(counts := s.counts + [s'.counts[|s.counts|]])
    ensures var c := s'.counts[|s.counts|];
            && c.status == C_SCHEDULED && c.warehouse == warehouse && c.since == |s.ledger|
            && (forall k <- s.levels | k.bin.warehouse == warehouse :: exists i :: 0 <= i < |c.lines| && c.lines[i].key == k)
            && (forall i, j | 0 <= i < j < |c.lines| :: c.lines[i].key != c.lines[j].key)
            && forall l <- c.lines ::
                 && l.key in s.levels && l.key.bin.warehouse == warehouse
                 && l.expected == s.levels[l.key].onHand && l.counted == None && !l.requiresApproval && !l.approved
  {
    var c := s'.counts[|s.counts|];
    assert forall i | 0 <= i < |rows| :: rows[i] in rows && c.lines[i].key == rows[i];
    forall k <- s.levels | k.bin.warehouse == warehouse
      ensures exists i :: 0 <= i < |c.lines| && c.lines[i].key == k
    {
      assert k in rows;
      var i :| 0 <= i < |rows| && rows[i] == k;
      assert c.lines[i].key == k;
    }
  }

  // ---- over runs ----

  /** Request `k` completed count `c`, and request `j` after it approved it. */
  predicate Approval(requests: seq<Request>, k: nat, j: nat, c: nat)
    requires k < j < |requests|
  {
    requests[k].CompleteCount? && requests[k].count == c && requests[j].ApproveCount? && requests[j].count == c
  }

  /** What is known of count `c` after `n` requests: open, nothing is approved; completed, exactly the lines
      beyond the tolerance are flagged, and what is approved was approved since. */
  ghost predicate Gated(requests: seq<Request>, n: nat, c: nat, count: Count)
    requires n <= |requests|
  {
    && (count.status in {C_SCHEDULED, C_IN_PROGRESS} ==> NoneApproved(count.lines))
    && (count.status == C_COMPLETED ==>
          FlaggedBeyond(count.lines) && exists k | 0 <= k < n :: CompletedAt(requests, k, n, c, count.lines))
  }

  ghost predicate CompletedAt(requests: seq<Request>, k: nat, n: nat, c: nat, lines: seq<CountLine>)
    requires k < n <= |requests|
  {
    && requests[k].CompleteCount? && requests[k].count == c
    && (NoneApproved(lines) || exists j | k < j < n :: Approval(requests, k, j, c))
  }

  predicate NoneApproved(lines: seq<CountLine>) {
    forall l <- lines :: !l.approved
  }

  predicate FlaggedBeyond(lines: seq<CountLine>) {
    forall l <- lines :: l.requiresApproval <==> Beyond(l)
  }

  lemma CompletedFlags(s: State, manager: bool, id: nat, s': State)
    requires id < |s.counts| && CountOk(s.counts[id], s.ledger) && Completes(s, manager, id, s')
    ensures s.counts[id].status in {C_SCHEDULED, C_IN_PROGRESS}
    ensures FlaggedBeyond(s'.counts[id].lines) && (NoneApproved(s.counts[id].lines) ==> NoneApproved(s'.counts[id].lines))
  {
    StepsIff(s, manager, id, 0);
    StepsDo(s, manager, id, s');
    var before, after := s.counts[id].lines, s'.counts[id].lines;
    forall l <- after
      ensures (l.requiresApproval <==> Beyond(l)) && (NoneApproved(before) ==> !l.approved)
    {
      var i :| 0 <= i < |after| && after[i] == l;
      assert before[i] in before && l == before[i].(requiresApproval := Beyond(before[i]));
    }
  }

  lemma ApprovedKeepsFlags(s: State, manager: bool, id: nat, s': State)
    requires id < |s.counts| && CountOk(s.counts[id], s.ledger) && Counts.Approves(s, manager, id, s')
    ensures s.counts[id].status == s'.counts[id].status == C_COMPLETED
    ensures FlaggedBeyond(s.counts[id].lines) ==> FlaggedBeyond(s'.counts[id].lines)
  {
    StepsDo(s, manager, id, s');
    var before, after := s.counts[id].lines, s'.counts[id].lines;
    forall l <- after | FlaggedBeyond(before)
      ensures l.requiresApproval <==> Beyond(l)
    {
      var i :| 0 <= i < |after| && after[i] == l;
      assert before[i] in before && l == before[i].(approved := before[i].approved || before[i].requiresApproval);
    }
  }

  lemma RecordedKeepsNone(s: State, manager: bool, id: nat, line: nat, x: Tally, s': State)
    requires Records(s, manager, id, line, x, s')
    ensures id < |s.counts| && s.counts[id].status in {C_SCHEDULED, C_IN_PROGRESS}
    ensures NoneApproved(s.counts[id].lines) ==> NoneApproved(s'.counts[id].lines)
  {
    StepsIff(s, manager, id, line);
    var before, after := s.counts[id].lines, s'.counts[id].lines;
    forall l <- after | NoneApproved(before)
      ensures !l.approved
    {
      var i :| 0 <= i < |after| && after[i] == l;
      assert before[i] in before && before[line] in before;
    }
  }

  lemma GatedLonger(requests: seq<Request>, n: nat, c: nat, count: Count)
    requires n < |requests| && Gated(requests, n, c, count)
    ensures Gated(requests, n + 1, c, count)
  {
    if count.status == C_COMPLETED {
      var k :| 0 <= k < n && CompletedAt(requests, k, n, c, count.lines);
      assert CompletedAt(requests, k, n + 1, c, count.lines);
    }
  }

  lemma NewCount(s: State, r: Request, s': State, c: nat)
    requires Step(s, r, s') && |s.counts| <= c < |s'.counts|
    ensures s'.counts[c].status == C_SCHEDULED && NoneApproved(s'.counts[c].lines)
  {
    if Counting(r) {
      assert r.CreateCount?;
    } else {
      CountsStay(s, r, s');
    }
  }

  lemma CountGated(s: State, requests: seq<Request>, n: nat, s': State, c: nat)
    requires n < |requests| && c < |s.counts| && Step(s, requests[n], s') && Counting(requests[n])
    requires CountOk(s.counts[c], s.ledger) && Gated(requests, n, c, s.counts[c])
    ensures c < |s'.counts| && Gated(requests, n + 1, c, s'.counts[c])
  {
    var r := requests[n];
    match r
    case CompleteCount(m, d) =>
      if d == c {
        CompletedFlags(s, m, c, s');
        assert CompletedAt(requests, n, n + 1, c, s'.counts[c].lines);
      } else {
        GatedLonger(requests, n, c, s.counts[c]);
      }
    case ApproveCount(m, d) =>
      if d == c {
        ApprovedKeepsFlags(s, m, c, s');
        var k :| 0 <= k < n && CompletedAt(requests, k, n, c, s.counts[c].lines);
        assert Approval(requests, k, n, c);
        assert CompletedAt(requests, k, n + 1, c, s'.counts[c].lines);
      } else {
        GatedLonger(requests, n, c, s.counts[c]);
      }
    case RecordCount(m, d, l, x) =>
      RecordedKeepsNone(s, m, d, l, x, s');
      if d != c {
        GatedLonger(requests, n, c, s.counts[c]);
      }
    case CreateCount(_, _, _) => GatedLonger(requests, n, c, s.counts[c]);
    case ReconcileCount(_, _) => GatedLonger(requests, n, c, s.counts[c]);
    case CancelCount(_, _) => GatedLonger(requests, n, c, s.counts[c]);
  }

  lemma GatedStep(s: State, requests: seq<Request>, n: nat, s': State, c: nat)
    requires n < |requests| && Inv(s) && Step(s, requests[n], s') && c < |s'.counts|
    requires c < |s.counts| ==> Gated(requests, n, c, s.counts[c])
    ensures Gated(requests, n + 1, c, s'.counts[c])
  {
    if |s.counts| <= c {
      NewCount(s, requests[n], s', c);
    } else if Counting(requests[n]) {
      assert s.counts[c] in s.counts;
      CountGated(s, requests, n, s', c);
    } else {
      CountsStay(s, requests[n], s');
      GatedLonger(requests, n, c, s.counts[c]);
    }
  }

  ghost predicate GatedAt(states: seq<State>, requests: seq<Request>, n: nat, c: nat)
    requires n <= |requests| < |states|
  {
    c < |states[n].counts| ==> Gated(requests, n, c, states[n].counts[c])
  }

  lemma GatedNext(states: seq<State>, requests: seq<Request>, n: nat, c: nat)
    requires Run(states, requests) && n < |requests| && Inv(states[n])
    ensures GatedAt(states, requests, n, c) ==> GatedAt(states, requests, n + 1, c)
  {
    if GatedAt(states, requests, n, c) && c < |states[n + 1].counts| {
      GatedStep(states[n], requests, n, states[n + 1], c);
    }
  }

  lemma {:induction false} GatedChain(states: seq<State>, requests: seq<Request>, n: nat, c: nat)
    requires n <= |requests| < |states| && GatedAt(states, requests, 0, c)
    requires forall m | 0 <= m < n :: GatedAt(states, requests, m, c) ==> GatedAt(states, requests, m + 1, c)
    ensures GatedAt(states, requests, n, c)
  {
    if n != 0 {
      GatedChain(states, requests, n - 1, c);
    }
  }

  lemma GatedTo(states: seq<State>, requests: seq<Request>, n: nat, c: nat)
    requires Run(states, requests) && states[0].counts == [] && Inv(states[0]) && n <= |requests|
    ensures GatedAt(states, requests, n, c)
  {
    forall m | 0 <= m < n
      ensures GatedAt(states, requests, m, c) ==> GatedAt(states, requests, m + 1, c)
    {
      RunKeeps(states, requests, m);
      GatedNext(states, requests, m, c);
    }
    GatedChain(states, requests, n, c);
  }

  /** In every run, a count that is reconciled with a line off by more than two per cent was completed before,
      and approved by a request that came after its completion. */
  lemma AppliedAfterApproval(autoflush: bool, states: seq<State>, requests: seq<Request>, i: nat, line: nat)
    requires Run(states, requests) && states[0] == Empty(autoflush) && i < |requests| && requests[i].ReconcileCount?
    requires var c := requests[i].count;
             c < |states[i].counts| && line < |states[i].counts[c].lines| && Beyond(states[i].counts[c].lines[line])
    ensures exists k, j | 0 <= k < j < i :: Approval(requests, k, j, requests[i].count)
  {
    var c := requests[i].count;
    EmptyOk(autoflush);
    GatedTo(states, requests, i, c);
    assert Step(states[i], requests[i], states[i + 1]);
    NothingUnapproved(states[i], requests[i].manager, c, states[i + 1]);
    var lines := states[i].counts[c].lines;
    assert lines[line] in lines;
    var k :| 0 <= k < i && CompletedAt(requests, k, i, c, lines);
    assert !NoneApproved(lines);
    var j :| k < j < i && Approval(requests, k, j, c);
  }
}
