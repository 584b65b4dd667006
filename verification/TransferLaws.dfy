/** What a transfer does, told over the columns of its lines and of the levels they join. */
module TransferLaws {
  import opened Levels
  import opened Tables
  import opened StockInvariant
  import opened Rounding
  import opened Demands
  import opened Transfers
  import opened Bins
  import StockRuns

  // ---- what a new transfer holds ----

  /** A bin a line may use: the one it names, active and in the warehouse, or the first active one there. */
  ghost predicate Usable(yard: Yard, warehouse: nat, wanted: Option<Bin>, bin: Bin) {
    && bin in yard && yard[bin] && bin.warehouse == warehouse
    && match wanted
       case Some(b) => bin == b
       case None => forall b <- yard | yard[b] && b.warehouse == warehouse :: bin.code <= b.code
  }

  lemma UsableIs(yard: Yard, warehouse: nat, wanted: Option<Bin>, bin: Bin)
    ensures Resolved(yard, warehouse, wanted, bin) <==> Usable(yard, warehouse, wanted, bin)
  {
    assert forall b :: b in Active(yard, warehouse) <==> b in yard && yard[b] && b.warehouse == warehouse;
  }

  /** A requested line that can be entered. */
  ghost predicate Enterable(yard: Yard, source: nat, destination: nat, d: Draft) {
    && 0.5 <= d.quantity
    && (exists b :: Usable(yard, source, d.source, b)) && exists b :: Usable(yard, destination, d.destination, b)
  }

  /** A transfer is entered between two warehouses when every line has a usable bin in each and none is stored
      as zero. */
  lemma CreatesIff(s: State, yard: Yard, source: nat, destination: nat, drafts: seq<Draft>)
    ensures CreateRefusal(s, yard, source, destination, drafts) == None
       <==> source != destination && forall d <- drafts :: Enterable(yard, source, destination, d)
  {
    var verdicts := DraftVerdicts(s.autoflush, yard, source, destination, drafts);
    FirstIs(verdicts, |drafts|);
    forall i | 0 <= i < |drafts|
      ensures drafts[i] in drafts
      ensures Enterable(yard, source, destination, drafts[i])
         <==> Nearest(drafts[i].quantity) != 0 && BinRefusal(yard, source, drafts[i].source) == None
              && BinRefusal(yard, destination, drafts[i].destination) == None
    {
      FindsBin(yard, source, drafts[i].source);
      FindsBin(yard, destination, drafts[i].destination);
      CentsOf(drafts[i].quantity);
    }
    if CreateRefusal(s, yard, source, destination, drafts) == None {
      forall i | 0 <= i < |drafts|
        ensures Enterable(yard, source, destination, drafts[i])
      {
        assert verdicts[i] == None && Nearest(drafts[i].quantity) != 0;
      }
    }
    if forall d <- drafts :: Enterable(yard, source, destination, d) {
      forall i | 0 <= i < |drafts|
        ensures verdicts[i] == None && Nearest(drafts[i].quantity) != 0
      {
        assert Enterable(yard, source, destination, drafts[i]);
        assert forall j | 0 <= j < i :: Enterable(yard, source, destination, drafts[j]);
      }
    }
  }

  /** What the refusals of a new transfer mean: the first line whose bin cannot be used decides, unless a session
      that flushes by itself meets an earlier line stored as zero before. */
  lemma {:induction false} CreateAnswers(s: State, yard: Yard, source: nat, destination: nat, drafts: seq<Draft>, i: nat)
    requires i < |drafts|
    ensures source == destination ==> CreateRefusal(s, yard, source, destination, drafts) == Some(InvalidState)
    ensures var answer := DraftRefusal(s.autoflush, yard, source, destination, drafts, i);
            if s.autoflush && exists j :: 0 <= j < i && drafts[j].quantity < 0.5 then answer == Some(CheckViolation)
            else if BinRefusal(yard, source, drafts[i].source).Some? then answer == BinRefusal(yard, source, drafts[i].source)
            else answer == BinRefusal(yard, destination, drafts[i].destination)
    ensures var first := FirstTo(DraftVerdicts(s.autoflush, yard, source, destination, drafts), |drafts|);
            source != destination ==>
              CreateRefusal(s, yard, source, destination, drafts)
              == if first.Some? then first
                 else if exists j :: 0 <= j < |drafts| && drafts[j].quantity < 0.5 then Some(CheckViolation) else None
  {
    forall j | 0 <= j < |drafts|
      ensures Nearest(drafts[j].quantity) == 0 <==> drafts[j].quantity < 0.5
    {
      CentsOf(drafts[j].quantity);
    }
  }

  lemma {:induction false} FirstIs(verdicts: seq<Option<Error>>, n: nat)
    requires n <= |verdicts|
    ensures FirstTo(verdicts, n) == None <==> forall i | 0 <= i < n :: verdicts[i] == None
  {
    if n != 0 {
      FirstIs(verdicts, n - 1);
    }
  }

  lemma FindsBin(yard: Yard, warehouse: nat, wanted: Option<Bin>)
    ensures BinRefusal(yard, warehouse, wanted) == None <==> exists b :: Usable(yard, warehouse, wanted, b)
  {
    ResolvedOnce(yard, warehouse, wanted);
    forall b
      ensures Resolved(yard, warehouse, wanted, b) <==> Usable(yard, warehouse, wanted, b)
    {
      UsableIs(yard, warehouse, wanted, b);
    }
  }

  /** It enters as a draft, with nothing received, and the other transfers stay. */
  lemma CreateStores(s: State, yard: Yard, source: nat, destination: nat, drafts: seq<Draft>, s': State)
    requires Creates(s, yard, source, destination, drafts, s')
    ensures |s'.transfers| == |s.transfers| + 1 && s' == s.(transfers := s.transfers + [s'.transfers[|s.transfers|]])
    ensures var t := s'.transfers[|s.transfers|];
            && t.status == T_DRAFT && |t.lines| == |drafts|
            && forall i | 0 <= i < |drafts| ::
                 && t.lines[i].product == drafts[i].product && t.lines[i].received == 0
                 && t.lines[i].quantity as real - 0.5 <= drafts[i].quantity < t.lines[i].quantity as real + 0.5
                 && Usable(yard, source, drafts[i].source, t.lines[i].source)
                 && Usable(yard, destination, drafts[i].destination, t.lines[i].destination)
  {
    var t := s'.transfers[|s.transfers|];
    forall i | 0 <= i < |drafts|
      ensures Enters(yard, source, destination, drafts[i], t.lines[i])
      ensures t.lines[i].quantity as real - 0.5 <= drafts[i].quantity < t.lines[i].quantity as real + 0.5
      ensures Usable(yard, source, drafts[i].source, t.lines[i].source)
      ensures Usable(yard, destination, drafts[i].destination, t.lines[i].destination)
    {
      CentsOf(drafts[i].quantity);
      UsableIs(yard, source, drafts[i].source, t.lines[i].source);
      UsableIs(yard, destination, drafts[i].destination, t.lines[i].destination);
    }
  }

  // ---- what arrives ----

  /** A receipt goes through for a transfer under way, unless the map gives some line of a product less than
      nothing or more than that line sent; products it does not name are never in the way. */
  lemma ReceivesIff(s: State, id: nat, received: map<nat, real>)
    ensures ReceiveRefusal(s, id, received) == None <==>
              && id < |s.transfers| && s.transfers[id].status == T_IN_TRANSIT
              && forall l <- s.transfers[id].lines | l.product in received ::
                   0.0 <= received[l.product] <= l.quantity as real
  {
    if id < |s.transfers| {
      var lines := s.transfers[id].lines;
      assert forall i | 0 <= i < |lines| :: lines[i] in lines;
      if forall l <- lines | l.product in received :: 0.0 <= received[l.product] <= l.quantity as real {
        assert PlausibleTo(received, lines, |lines|);
      } else {
        var l :| l in lines && l.product in received && !(0.0 <= received[l.product] <= l.quantity as real);
        var i :| 0 <= i < |lines| && lines[i] == l;
        assert !(0.0 <= Arrival(received, lines[i]) <= lines[i].quantity as real);
      }
    }
  }

  /** Each line keeps what it is and is booked in with the rounded figure of its product, or in full when the
      map does not name the product; no other transfer changes. */
  lemma ReceivedLineByLine(s: State, id: nat, received: map<nat, real>, s': State, i: nat)
    requires Receives(s, id, received, s') && i < |s.transfers[id].lines|
    ensures |s'.transfers| == |s.transfers| && s'.transfers[id].status == T_RECEIVED
    ensures forall t: nat | t < |s.transfers| && t != id :: s'.transfers[t] == s.transfers[t]
    ensures |s'.transfers[id].lines| == |s.transfers[id].lines|
    ensures var l, l' := s.transfers[id].lines[i], s'.transfers[id].lines[i];
            && l'.product == l.product && l'.source == l.source && l'.destination == l.destination && l'.quantity == l.quantity
            && (l.product !in received ==> l'.received == l.quantity)
            && (l.product in received ==> l'.received as real - 0.5 <= received[l.product] < l'.received as real + 0.5)
  {
    var lines := s.transfers[id].lines;
    NearestWhole(lines[i].quantity);
    assert 0.0 <= Arrival(received, lines[i]);
    if lines[i].product in received {
      CentsOf(received[lines[i].product]);
    }
  }

  function SentTo(lines: seq<TransferLine>, n: nat, p: nat): int
    requires n <= |lines|
  {
    if n == 0 then 0 else SentTo(lines, n - 1, p) + if lines[n - 1].product == p then lines[n - 1].quantity else 0
  }

  function BookedTo(lines: seq<TransferLine>, n: nat, p: nat): int
    requires n <= |lines|
  {
    if n == 0 then 0 else BookedTo(lines, n - 1, p) + if lines[n - 1].product == p then lines[n - 1].received else 0
  }

  lemma {:induction false} BookedInFull(before: seq<TransferLine>, after: seq<TransferLine>, n: nat, p: nat)
    requires n <= |before| && n <= |after|
    requires forall i | 0 <= i < n :: after[i].product == before[i].product
                                      && (before[i].product == p ==> after[i].received == before[i].quantity)
    ensures BookedTo(after, n, p) == SentTo(before, n, p)
  {
    if n != 0 {
      BookedInFull(before, after, n - 1, p);
    }
  }

  lemma {:induction false} SumsAre(lines: seq<TransferLine>, n: nat, p: nat)
    requires n <= |lines|
    ensures SumTo(Outgoing(lines), n, All(p)) == SentTo(lines, n, p) && SumTo(Incoming(lines), n, All(p)) == BookedTo(lines, n, p)
  {
    if n != 0 {
      SumsAre(lines, n - 1, p);
    }
  }

  lemma {:induction false} SentSame(a: seq<TransferLine>, b: seq<TransferLine>, n: nat, p: nat)
    requires n <= |a| && n <= |b|
    requires forall i | 0 <= i < n :: a[i].product == b[i].product && a[i].quantity == b[i].quantity
    ensures SentTo(a, n, p) == SentTo(b, n, p)
  {
    if n != 0 {
      SentSame(a, b, n - 1, p);
    }
  }

  /** What is dispatched and not booked in is recorded as the discrepancy of the transfer, product by product. */
  lemma {:induction false} ShortfallIs(t: Transfer, p: nat)
    ensures Shortfall(t, p) == if t.status == T_RECEIVED then SentTo(t.lines, |t.lines|, p) - BookedTo(t.lines, |t.lines|, p) else 0
  {
    SumsAre(t.lines, |t.lines|, p);
  }

  /** A product that the map does not name arrives in full: as much is booked in as was sent, and no
      discrepancy is recorded. */
  lemma {:induction false} MissingArrivesInFull(s: State, id: nat, received: map<nat, real>, s': State, p: nat)
    requires Receives(s, id, received, s') && p !in received
    ensures var lines, lines' := s.transfers[id].lines, s'.transfers[id].lines;
            BookedTo(lines', |lines'|, p) == SentTo(lines, |lines|, p)
    ensures Shortfall(s'.transfers[id], p) == 0
  {
    var lines, lines' := s.transfers[id].lines, s'.transfers[id].lines;
    forall i | 0 <= i < |lines|
      ensures lines'[i].product == lines[i].product && lines'[i].quantity == lines[i].quantity
      ensures lines[i].product == p ==> lines'[i].received == lines[i].quantity
    {
      ReceivedLineByLine(s, id, received, s', i);
    }
    BookedInFull(lines, lines', |lines|, p);
    SentSame(lines, lines', |lines|, p);
    ShortfallIs(s'.transfers[id], p);
  }

  /** What the first `n` lines bring to level `k` when everything arrives. */
  function BroughtTo(lines: seq<TransferLine>, n: nat, k: Key): int
    requires n <= |lines|
  {
    if n == 0 then 0
    else
      var l := lines[n - 1];
      BroughtTo(lines, n - 1, k) + if l.product == k.product && l.destination == k.bin then l.quantity else 0
  }

  lemma {:induction false} BroughtIs(lines: seq<TransferLine>, n: nat, k: Key)
    requires n <= |lines|
    ensures SumTo(Written(Arrivals(map[], lines)), n, One(k)) == BroughtTo(lines, n, k)
  {
    if n != 0 {
      BroughtIs(lines, n - 1, k);
      NearestWhole(lines[n - 1].quantity);
    }
  }

  /** A transfer under way can always be received without naming a product; then every destination level gains
      exactly the lines that go there, whatever the session does in between. */
  lemma {:induction false} EmptyMapReceipt(s: State, id: nat, s': State, k: Key)
    requires id < |s.transfers| && s.transfers[id].status == T_IN_TRANSIT
    ensures ReceiveRefusal(s, id, map[]) == None
    ensures Receives(s, id, map[], s') ==>
              var lines := s.transfers[id].lines;
              Get(s'.levels, k).onHand == Get(s.levels, k).onHand + BroughtTo(lines, |lines|, k)
  {
    ReceivesIff(s, id, map[]);
    var lines := s.transfers[id].lines;
    var xs, cuts, h := Arrivals(map[], lines), ArrivalReloads(s.autoflush, s.levels, map[], lines), Get(s.levels, k).onHand;
    SlipWhole(h, xs, cuts, k);
    BroughtIs(lines, |lines|, k);
  }

  // ---- what leaves and what comes back ----

  /** What the first `n` lines take from level `k`. */
  function TakenTo(lines: seq<TransferLine>, n: nat, k: Key): int
    requires n <= |lines|
  {
    if n == 0 then 0
    else
      var l := lines[n - 1];
      TakenTo(lines, n - 1, k) + if l.product == k.product && l.source == k.bin then l.quantity else 0
  }

  lemma {:induction false} TakenIs(lines: seq<TransferLine>, n: nat, k: Key)
    requires n <= |lines|
    ensures SumTo(Outgoing(lines), n, One(k)) == TakenTo(lines, n, k)
  {
    if n != 0 {
      TakenIs(lines, n - 1, k);
    }
  }

  /** An approved transfer is dispatched exactly when no source level is asked for more than it has on hand,
      neither reserved nor damaged; each source level then loses its lines to its own transit account. */
  lemma DispatchesIff(s: State, id: nat)
    ensures DispatchRefusal(s, id) == None <==>
              && id < |s.transfers| && s.transfers[id].status == T_APPROVED
              && var lines := s.transfers[id].lines;
              forall k | 0 < TakenTo(lines, |lines|, k) ::
                TakenTo(lines, |lines|, k) <= Get(s.levels, k).onHand - Get(s.levels, k).reserved - Get(s.levels, k).damaged
  {
    if id < |s.transfers| && s.transfers[id].status == T_APPROVED {
      DispatchNeedsWholeDemand(s, id);
      var lines := s.transfers[id].lines;
      forall k
        ensures var taken, level := TakenTo(lines, |lines|, k), Get(s.levels, k);
                OwedAt(s.levels, Outgoing(lines), k) <==> taken <= 0 || taken <= level.onHand - level.reserved - level.damaged
      {
        TakenIs(lines, |lines|, k);
      }
    }
  }

  /** Dispatch, receipt and cancellation on one level: the source side of the shipment. */
  lemma {:induction false} SourceSide(s: State, id: nat, s': State, k: Key)
    requires id < |s.transfers|
    ensures var (lines, l, l') := (s.transfers[id].lines, Get(s.levels, k), Get(s'.levels, k));
            var taken := TakenTo(lines, |lines|, k);
            && (Dispatches(s, id, s') ==> l' == l.(onHand := l.onHand - taken, inTransit := l.inTransit + taken))
            && (Transfers.Cancels(s, id, s') && s.transfers[id].status == T_IN_TRANSIT ==>
                  l' == l.(onHand := l.onHand + taken, inTransit := l.inTransit - taken))
            && (Transfers.Cancels(s, id, s') && s.transfers[id].status != T_IN_TRANSIT ==>
                  l' == l && s'.ledger == s.ledger)
            && (forall received :: Receives(s, id, received, s') ==> l'.inTransit == l.inTransit - taken)
  {
    TakenIs(s.transfers[id].lines, |s.transfers[id].lines|, k);
  }

  // ---- the life of a transfer ----

  /** The steps of a transfer: approved from DRAFT, dispatched from APPROVED, received from IN_TRANSIT, and
      cancelled from any of these; RECEIVED and CANCELLED are final. */
  predicate Succeeds(a: TransferStatus, b: TransferStatus) {
    || a == b || (a == T_DRAFT && b == T_APPROVED) || (a == T_APPROVED && b == T_IN_TRANSIT)
    || (a == T_IN_TRANSIT && b == T_RECEIVED) || (a in {T_DRAFT, T_APPROVED, T_IN_TRANSIT} && b == T_CANCELLED)
  }

  lemma StatusSteps(s: State, id: nat)
    requires id < |s.transfers|
    ensures ApproveRefusal(s, id) == None <==> s.transfers[id].status == T_DRAFT
    ensures Transfers.CancelRefusal(s, id) == None
       <==> s.transfers[id].status == T_DRAFT || s.transfers[id].status == T_APPROVED || s.transfers[id].status == T_IN_TRANSIT
    ensures forall s' :: Approves(s, id, s') ==> s' == s.(transfers := s.transfers[id := s.transfers[id].(status := T_APPROVED)])
    ensures forall s' :: Dispatches(s, id, s') ==> s'.transfers == s.transfers[id := s.transfers[id].(status := T_IN_TRANSIT)]
    ensures forall s' :: Transfers.Cancels(s, id, s') ==> s'.transfers == s.transfers[id := s.transfers[id].(status := T_CANCELLED)]
  {
  }

  /** What the refusals mean. */
  lemma TransferAnswers(s: State, id: nat, received: map<nat, real>)
    ensures |s.transfers| <= id ==>
              ApproveRefusal(s, id) == DispatchRefusal(s, id) == ReceiveRefusal(s, id, received)
              == Transfers.CancelRefusal(s, id) == Some(NotFound)
    ensures id < |s.transfers| ==>
              && (ApproveRefusal(s, id) == None || ApproveRefusal(s, id) == Some(InvalidState))
              && (Transfers.CancelRefusal(s, id) == None || Transfers.CancelRefusal(s, id) == Some(InvalidState))
              && (if s.transfers[id].status != T_APPROVED then DispatchRefusal(s, id) == Some(InvalidState)
                  else DispatchRefusal(s, id) == None || DispatchRefusal(s, id) == Some(Insufficient))
              && (if s.transfers[id].status != T_IN_TRANSIT then ReceiveRefusal(s, id, received) == Some(InvalidState)
                  else ReceiveRefusal(s, id, received) == None || ReceiveRefusal(s, id, received) == Some(BadReceived))
  {
  }

  predicate Moving(r: StockRuns.Request) {
    r.CreateTransfer? || r.ApproveTransfer? || r.DispatchTransfer? || r.ReceiveTransfer? || r.CancelTransfer?
  }

  lemma OthersRest(s: State, r: StockRuns.Request, s': State)
    requires StockRuns.Step(s, r, s') && !Moving(r)
    ensures s'.transfers == s.transfers
  {
  }

  /** No request takes a transfer another way, and none changes what it ships. */
  lemma TransferStep(s: State, r: StockRuns.Request, s': State, id: nat)
    requires StockRuns.Step(s, r, s') && id < |s.transfers|
    ensures id < |s'.transfers| && Succeeds(s.transfers[id].status, s'.transfers[id].status)
    ensures s.transfers[id].status in {T_RECEIVED, T_CANCELLED} ==> s'.transfers[id] == s.transfers[id]
  {
    if !Moving(r) {
      OthersRest(s, r, s');
    }
  }

  /** So over any stretch of a run a received or cancelled transfer stays as it is. */
  lemma {:induction false} FinalForGood(states: seq<State>, requests: seq<StockRuns.Request>, i: nat, j: nat, id: nat)
    requires StockRuns.Run(states, requests) && i <= j <= |requests| && id < |states[i].transfers|
    requires states[i].transfers[id].status in {T_RECEIVED, T_CANCELLED}
    ensures id < |states[j].transfers| && states[j].transfers[id] == states[i].transfers[id]
  {
    if i != j {
      FinalForGood(states, requests, i, j - 1, id);
      TransferStep(states[j - 1], requests[j - 1], states[j], id);
    }
  }
}
