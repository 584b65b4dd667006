/** What holds across requests: conservation per product, and cancellation as the inverse of
    confirmation whatever happened in between. */
module StockTheorems {
  import opened Levels
  import opened Tables
  import opened StockInvariant
  import opened StockRuns
  import Counts
  import Deliveries
  import Consumption

  // ---- figures that move along a run ----

  ghost function AddTo(moves: seq<int>, n: nat): int
    requires n <= |moves|
  {
    if n == 0 then 0 else AddTo(moves, n - 1) + moves[n - 1]
  }

  /** The same with a floor under every step: the figure lacks at most `claims[n]` after `n` moves. */
  ghost function FloorTo(moves: seq<int>, claims: seq<int>, n: nat): int
    requires n <= |moves| < |claims|
  {
    if n == 0 then 0 else Max(FloorTo(moves, claims, n - 1) + moves[n - 1], -claims[n])
  }

  lemma {:induction false} AddsUp(figures: seq<int>, moves: seq<int>, n: nat)
    requires n <= |moves| < |figures|
    requires forall j | 0 <= j < n :: figures[j + 1] == figures[j] + moves[j]
    ensures figures[n] == figures[0] + AddTo(moves, n)
  {
    if n != 0 {
      AddsUp(figures, moves, n - 1);
    }
  }

  lemma {:induction false} FloorsUp(figures: seq<int>, moves: seq<int>, claims: seq<int>, n: nat)
    requires n <= |moves| < |figures| == |claims| && figures[0] == 0
    requires forall j | 0 <= j < n :: figures[j + 1] == Max(figures[j] + moves[j], -claims[j + 1])
    ensures figures[n] == FloorTo(moves, claims, n)
  {
    if n != 0 {
      FloorsUp(figures, moves, claims, n - 1);
    }
  }

  lemma {:induction false} AddSame(a: seq<int>, b: seq<int>, n: nat)
    requires n <= |a| && n <= |b| && forall j | 0 <= j < n :: a[j] == b[j]
    ensures AddTo(a, n) == AddTo(b, n)
  {
    if n != 0 {
      AddSame(a, b, n - 1);
    }
  }

  lemma {:induction false} FloorNothing(moves: seq<int>, claims: seq<int>, n: nat)
    requires n <= |moves| < |claims|
    requires forall j | 0 <= j < n :: moves[j] == 0 && 0 <= claims[j + 1]
    ensures FloorTo(moves, claims, n) == 0
  {
    if n != 0 {
      FloorNothing(moves, claims, n - 1);
    }
  }

  lemma {:induction false} AddNothing(moves: seq<int>, n: nat)
    requires n <= |moves| && forall j | 0 <= j < n :: moves[j] == 0
    ensures AddTo(moves, n) == 0
  {
    if n != 0 {
      AddNothing(moves, n - 1);
    }
  }

  // ---- the cached columns against the documents ----

  ghost function Slips(states: seq<State>, requests: seq<Request>, k: Key): (r: seq<int>)
    requires |requests| < |states|
    ensures |r| == |requests|
  {
    seq(|requests|, i requires 0 <= i < |requests| => Slipped(states[i], requests[i], k))
  }

  ghost function HoldSlips(states: seq<State>, requests: seq<Request>, k: Key): (r: seq<int>)
    requires |requests| < |states|
    ensures |r| == |requests|
  {
    seq(|requests|, i requires 0 <= i < |requests| => HoldSlipped(states[i], requests[i], k))
  }

  ghost function OpenAt(states: seq<State>, k: Key): (r: seq<int>)
    ensures |r| == |states|
  {
    seq(|states|, i requires 0 <= i < |states| => Sum(Claims(states[i].items), One(k)))
  }

  /** How far the first `i` requests moved `on_hand` of level `k` away from the ledger. */
  ghost function SlipsTo(states: seq<State>, requests: seq<Request>, i: nat, k: Key): int
    requires i <= |requests| < |states|
  {
    AddTo(Slips(states, requests, k), i)
  }

  /** How far they moved `reserved` away from the open lines; it can lack their claims, but no more. */
  ghost function HoldsTo(states: seq<State>, requests: seq<Request>, i: nat, k: Key): int
    requires i <= |requests| < |states|
  {
    FloorTo(HoldSlips(states, requests, k), OpenAt(states, k), i)
  }

  ghost function OnHandGaps(states: seq<State>, k: Key): (r: seq<int>)
    ensures |r| == |states|
  {
    seq(|states|, i requires 0 <= i < |states| => OnHandGap(states[i].levels, states[i].ledger, k))
  }

  ghost function HeldGaps(states: seq<State>, k: Key): (r: seq<int>)
    ensures |r| == |states|
  {
    seq(|states|, i requires 0 <= i < |states| => HeldGap(states[i].levels, states[i].items, k))
  }

  lemma RunSlips(states: seq<State>, requests: seq<Request>, i: nat, k: Key)
    requires Run(states, requests) && Inv(states[0]) && i < |requests|
    ensures OnHandGaps(states, k)[i + 1] == OnHandGaps(states, k)[i] + Slips(states, requests, k)[i]
    ensures HeldGaps(states, k)[i + 1]
         == Max(HeldGaps(states, k)[i] + HoldSlips(states, requests, k)[i], -OpenAt(states, k)[i + 1])
  {
    RunKeeps(states, requests, i);
    StepSlips(states[i], requests[i], states[i + 1], k);
    StepHolds(states[i], requests[i], states[i + 1], k);
  }

  lemma GapsAreSlips(states: seq<State>, requests: seq<Request>, i: nat, k: Key)
    requires Run(states, requests) && Inv(states[0]) && i <= |requests|
    ensures OnHandGap(states[i].levels, states[i].ledger, k)
         == OnHandGap(states[0].levels, states[0].ledger, k) + SlipsTo(states, requests, i, k)
    ensures HeldGap(states[0].levels, states[0].items, k) == 0 ==>
              HeldGap(states[i].levels, states[i].items, k) == HoldsTo(states, requests, i, k)
  {
    var gaps, held := OnHandGaps(states, k), HeldGaps(states, k);
    var slips, holds, claims := Slips(states, requests, k), HoldSlips(states, requests, k), OpenAt(states, k);
    forall j | 0 <= j < i
      ensures gaps[j + 1] == gaps[j] + slips[j] && held[j + 1] == Max(held[j] + holds[j], -claims[j + 1])
    {
      RunSlips(states, requests, j, k);
    }
    AddsUp(gaps, slips, i);
    if held[0] == 0 {
      FloorsUp(held, holds, claims, i);
    }
  }

  /** In every state that any requests lead to from an empty workspace, whatever decimals they carry:
      `on_hand` of a level is the replay of its ledger plus the slips of the requests on it, `reserved`
      the open claims plus what reserving slipped, `in_transit` the shipments under way, and none is
      negative.  So snapshot and ledger agree exactly where the slips add up to zero. */
  lemma EveryLevelAgrees(autoflush: bool, states: seq<State>, requests: seq<Request>, i: nat, k: Key)
    requires Run(states, requests) && states[0] == Empty(autoflush) && i < |states|
    ensures var s := states[i];
            && 0 <= Get(s.levels, k).onHand == Replay(s.ledger, One(k)) + SlipsTo(states, requests, i, k)
            && 0 <= Get(s.levels, k).reserved == Sum(Claims(s.items), One(k)) + HoldsTo(states, requests, i, k)
            && 0 <= Get(s.levels, k).inTransit == Transit(s.transfers, One(k))
            && 0 <= Get(s.levels, k).damaged
            && (Get(s.levels, k).onHand == Replay(s.ledger, One(k)) <==> SlipsTo(states, requests, i, k) == 0)
  {
    EmptyOk(autoflush);
    RunKeeps(states, requests, i);
    assert NonNegativeLevel(Get(states[i].levels, k));
    GapsAreSlips(states, requests, i, k);
  }

  /** No run delivers more of an LPO line than it orders, by its stored figure or by its confirmed notes, or
      consumes more of a reservation line than it holds; one that is DISPATCHED is consumed in full. */
  lemma NeverTooMuch(autoflush: bool, states: seq<State>, requests: seq<Request>, i: nat)
    requires Run(states, requests) && states[0] == Empty(autoflush) && i < |states|
    ensures var s := states[i];
            && (forall o, l | 0 <= o < |s.orders| && 0 <= l < |s.orders[o].lines| ::
                  && 0 <= s.orders[o].lines[l].delivered <= s.orders[o].lines[l].quantity
                  && 0 <= Confirmed(s.notes, o, l) <= s.orders[o].lines[l].quantity)
            && forall j | 0 <= j < |s.items| ::
                 && 0 <= s.items[j].consumed <= s.items[j].quantity
                 && (s.items[j].status == DISPATCHED ==> s.items[j].consumed == s.items[j].quantity)
  {
    var s := states[i];
    EmptyOk(autoflush);
    RunKeeps(states, requests, i);
    forall o, l | 0 <= o < |s.orders| && 0 <= l < |s.orders[o].lines|
      ensures && 0 <= s.orders[o].lines[l].delivered <= s.orders[o].lines[l].quantity
              && 0 <= Confirmed(s.notes, o, l) <= s.orders[o].lines[l].quantity
    {
      assert LineOk(s.orders, s.notes, o, l);
      ConfirmedNonNegative(s.notes, |s.notes|, o, l);
    }
    forall j | 0 <= j < |s.items|
      ensures && 0 <= s.items[j].consumed <= s.items[j].quantity
              && (s.items[j].status == DISPATCHED ==> s.items[j].consumed == s.items[j].quantity)
    {
      assert ItemOk(s.heads, s.items[j]);
    }
  }

  lemma OpenClaims(s: State, k: Key)
    requires ItemsOk(s.heads, s.items)
    ensures 0 <= Sum(Claims(s.items), One(k))
  {
    forall i | 0 <= i < |s.items|
      ensures 0 <= Claims(s.items)[i].amount
    {
      assert ItemOk(s.heads, s.items[i]);
    }
    SumBound(Claims(s.items), 0, |s.items|, One(k));
  }

  /** Over runs whose quantities have two decimals every cached column is exactly what it caches. */
  lemma TwoDecimalsAgree(autoflush: bool, states: seq<State>, requests: seq<Request>, i: nat, k: Key)
    requires Run(states, requests) && states[0] == Empty(autoflush) && i < |states|
    requires forall j | 0 <= j < i :: TwoDecimals(requests[j])
    ensures var s := states[i];
            && Get(s.levels, k).onHand == Replay(s.ledger, One(k))
            && Get(s.levels, k).reserved == Sum(Claims(s.items), One(k))
  {
    EmptyOk(autoflush);
    EveryLevelAgrees(autoflush, states, requests, i, k);
    forall j | 0 <= j < i
      ensures Slips(states, requests, k)[j] == HoldSlips(states, requests, k)[j] == 0 <= OpenAt(states, k)[j + 1]
    {
      TwoDecimalsNeverSlip(states[j], requests[j], k);
      RunKeeps(states, requests, j + 1);
      OpenClaims(states[j + 1], k);
    }
    AddNothing(Slips(states, requests, k), i);
    FloorNothing(HoldSlips(states, requests, k), OpenAt(states, k), i);
  }

  /** One for each request that takes a quantity ending in half a hundredth from level `k`. */
  ghost function Halves(states: seq<State>, requests: seq<Request>, k: Key): (r: seq<int>)
    requires |requests| < |states|
    ensures |r| == |requests|
  {
    seq(|requests|, i requires 0 <= i < |requests| => if TakesHalf(StockAsks(states[i], requests[i]), k) then 1 else 0)
  }

  /** Request `i` has at most one line on level `k`. */
  ghost predicate OneLineAt(states: seq<State>, requests: seq<Request>, i: nat, k: Key)
    requires i < |requests| < |states|
  {
    AtMostOne(StockAsks(states[i], requests[i]), k) && AtMostOne(HoldAsks(states[i], requests[i]), k)
  }

  lemma OneLineCounts(states: seq<State>, requests: seq<Request>, i: nat, k: Key)
    requires Run(states, requests) && Inv(states[0]) && i < |requests| && OneLineAt(states, requests, i, k)
    ensures Slips(states, requests, k)[i] == Halves(states, requests, k)[i]
    ensures HoldSlips(states, requests, k)[i] == 0 <= OpenAt(states, k)[i + 1]
  {
    RunKeeps(states, requests, i);
    OneLineSlips(states[i], requests[i], states[i + 1], k);
    RunKeeps(states, requests, i + 1);
    OpenClaims(states[i + 1], k);
  }

  /** Where no document has two lines on the level, its snapshot is above the ledger by one hundredth for
      each request that took a quantity ending in half a hundredth, and `reserved` is exact. */
  lemma {:induction false} OneLineALevel(autoflush: bool, states: seq<State>, requests: seq<Request>, i: nat, k: Key)
    requires Run(states, requests) && states[0] == Empty(autoflush) && i < |states|
    requires forall j | 0 <= j < i :: OneLineAt(states, requests, j, k)
    ensures var s := states[i];
            && Get(s.levels, k).onHand == Replay(s.ledger, One(k)) + AddTo(Halves(states, requests, k), i)
            && Get(s.levels, k).reserved == Sum(Claims(s.items), One(k))
  {
    EmptyOk(autoflush);
    EveryLevelAgrees(autoflush, states, requests, i, k);
    forall j | 0 <= j < i
      ensures Slips(states, requests, k)[j] == Halves(states, requests, k)[j]
      ensures HoldSlips(states, requests, k)[j] == 0 <= OpenAt(states, k)[j + 1]
    {
      OneLineCounts(states, requests, j, k);
    }
    AddSame(Slips(states, requests, k), Halves(states, requests, k), i);
    FloorNothing(HoldSlips(states, requests, k), OpenAt(states, k), i);
  }

  // ---- a count reconciled later in the run ----

  /** Reconciling commutes with whatever ran since the count was scheduled: a level of the count ends at
      the counted quantity plus the net movement in the ledger since then, and plus what slipped; and it
      is the counted quantity exactly when the two cancel out. */
  lemma ReconcileCommutes(states: seq<State>, requests: seq<Request>, j: nat, i: nat, line: nat)
    requires Run(states, requests) && Inv(states[0])
    requires j < i < |requests| && requests[j].CreateCount?
    requires requests[i].ReconcileCount? && requests[i].count == |states[j].counts|
    requires |states[j].counts| < |states[i].counts| && line < |states[i].counts[|states[j].counts|].lines|
    ensures var l := states[i].counts[|states[j].counts|].lines[line];
            && states[j].ledger <= states[i].ledger && l.counted.Some?
            && var moved := Replay(states[i].ledger[|states[j].ledger|..], One(l.key))
                            + SlipsTo(states, requests, i, l.key) - SlipsTo(states, requests, j, l.key);
            && Get(states[i + 1].levels, l.key).onHand == l.counted.value + moved
            && (Get(states[i + 1].levels, l.key).onHand == l.counted.value <==> moved == 0)
  {
    var id := |states[j].counts|;
    assert Step(states[j], requests[j], states[j + 1]) && Step(states[i], requests[i], states[i + 1]);
    RunKeepsCounts(states, requests, j + 1, i, id);
    RunExtends(states, requests, j, i);
    RunKeeps(states, requests, i);
    var c, l := states[i].counts[id], states[i].counts[id].lines[line];
    assert c.since == |states[j].ledger| && l.expected == Get(states[j].levels, l.key).onHand;
    Counts.ReconciledLine(states[i], requests[i].manager, id, states[i + 1], line);
    ReplaySame(states[i].ledger, states[j].ledger, c.since, One(l.key));
    GapsAreSlips(states, requests, i, l.key);
    GapsAreSlips(states, requests, j, l.key);
  }

  // ---- totals over the level rows of a product ----

  ghost function Total(keys: set<Key>, f: Key -> int): int {
    if keys == {} then 0 else
      var k :| k in keys;
      f(k) + Total(keys - {k}, f)
  }

  lemma {:induction false} TotalSplit(keys: set<Key>, f: Key -> int, k: Key)
    requires k in keys
    ensures Total(keys, f) == f(k) + Total(keys - {k}, f)
  {
    var j :| j in keys && Total(keys, f) == f(j) + Total(keys - {j}, f);
    if j != k {
      TotalSplit(keys - {j}, f, k);
      TotalSplit(keys - {k}, f, j);
      assert keys - {j} - {k} == keys - {k} - {j};
    }
  }

  lemma {:induction false} TotalZero(keys: set<Key>, f: Key -> int)
    requires forall k <- keys :: f(k) == 0
    ensures Total(keys, f) == 0
  {
    if keys != {} {
      var k :| k in keys;
      TotalSplit(keys, f, k);
      TotalZero(keys - {k}, f);
    }
  }

  lemma {:induction false} TotalSame(keys: set<Key>, f: Key -> int, g: Key -> int)
    requires forall k <- keys :: f(k) == g(k)
    ensures Total(keys, f) == Total(keys, g)
  {
    if keys != {} {
      var k :| k in keys;
      TotalSplit(keys, f, k);
      TotalSplit(keys, g, k);
      TotalSame(keys - {k}, f, g);
    }
  }

  lemma {:induction false} TotalAdd(keys: set<Key>, f: Key -> int, g: Key -> int, h: Key -> int)
    requires forall k <- keys :: h(k) == f(k) + g(k)
    ensures Total(keys, h) == Total(keys, f) + Total(keys, g)
  {
    if keys != {} {
      var k :| k in keys;
      TotalSplit(keys, f, k);
      TotalSplit(keys, g, k);
      TotalSplit(keys, h, k);
      TotalAdd(keys - {k}, f, g, h);
    }
  }

  /** Rows without a value add nothing. */
  lemma {:induction false} TotalWiden(keys: set<Key>, more: set<Key>, f: Key -> int)
    requires keys <= more && forall k <- more - keys :: f(k) == 0
    ensures Total(more, f) == Total(keys, f)
    decreases more
  {
    if more - keys == {} {
      forall k <- more
        ensures k in keys
      {
        assert k !in more - keys;
      }
      assert keys == more;
    } else {
      var k :| k in more - keys;
      TotalSplit(more, f, k);
      TotalWiden(keys, more - {k}, f);
    }
  }

  function KeysOf(levels: Table, p: nat): set<Key> {
    set k | k in levels && k.product == p
  }

  /** A key of product `p` that carries a value is among `keys`. */
  ghost predicate Spans(keys: set<Key>, p: nat) {
    forall k <- keys :: k.product == p
  }

  /** A single entry adds its amount to the product's total. */
  lemma {:induction false} OneEntry(keys: set<Key>, e: Entry, p: nat)
    requires Spans(keys, p) && (e.key.product == p ==> e.key in keys)
    ensures Total(keys, k => At(e, One(k))) == At(e, All(p))
  {
    var f := k => At(e, One(k));
    if e.key.product == p {
      TotalSplit(keys, f, e.key);
      TotalZero(keys - {e.key}, f);
    } else {
      TotalZero(keys, f);
    }
  }

  lemma {:induction false} TotalOfSum(keys: set<Key>, es: seq<Entry>, n: nat, p: nat)
    requires n <= |es| && Spans(keys, p)
    requires forall i | 0 <= i < n && es[i].key.product == p :: es[i].key in keys
    ensures Total(keys, k => SumTo(es, n, One(k))) == SumTo(es, n, All(p))
  {
    var f := k => SumTo(es, n, One(k));
    if n == 0 {
      TotalZero(keys, f);
    } else {
      TotalOfSum(keys, es, n - 1, p);
      OneEntry(keys, es[n - 1], p);
      TotalAdd(keys, k => SumTo(es, n - 1, One(k)), k => At(es[n - 1], One(k)), f);
    }
  }

  function LedgerEntries(ledger: seq<Txn>): (es: seq<Entry>)
    ensures |es| == |ledger|
  {
    seq(|ledger|, i requires 0 <= i < |ledger| => Entry(ledger[i].key, ledger[i].quantity))
  }

  function KeysIn(es: seq<Entry>, p: nat): set<Key> {
    set i | 0 <= i < |es| && es[i].key.product == p :: es[i].key
  }

  /** The levels of a product that have a row or are named in the ledger. */
  function Touched(s: State, p: nat): set<Key> {
    KeysOf(s.levels, p) + KeysIn(LedgerEntries(s.ledger), p)
  }

  /** The level rows of a product add up to what the ledger says of the product, and to their gaps. */
  lemma OnHandTotal(s: State, p: nat)
    ensures Total(KeysOf(s.levels, p), k => Get(s.levels, k).onHand)
         == Replay(s.ledger, All(p)) + Total(Touched(s, p), k => OnHandGap(s.levels, s.ledger, k))
  {
    var keys, es := KeysOf(s.levels, p), LedgerEntries(s.ledger);
    var more := Touched(s, p);
    var f, g := (k => Get(s.levels, k).onHand), (k => SumTo(es, |es|, One(k)));
    var gap := k => OnHandGap(s.levels, s.ledger, k);
    ReplayEntries(s.ledger, es, false, |es|, All(p));
    forall k
      ensures f(k) == g(k) + gap(k)
    {
      ReplayEntries(s.ledger, es, false, |es|, One(k));
    }
    TotalWiden(keys, more, f);
    TotalAdd(more, g, gap, f);
    TotalOfSum(more, es, |es|, p);
  }

  function FlightTo(ts: seq<Transfer>, n: nat): seq<Entry>
    requires n <= |ts|
  {
    if n == 0 then [] else FlightTo(ts, n - 1) + InFlight(ts[n - 1])
  }

  lemma {:induction false} FlightIsTransit(ts: seq<Transfer>, n: nat, sc: Scope)
    requires n <= |ts|
    ensures Sum(FlightTo(ts, n), sc) == TransitTo(ts, n, sc)
  {
    if n != 0 {
      FlightIsTransit(ts, n - 1, sc);
      SumConcat(FlightTo(ts, n - 1), InFlight(ts[n - 1]), sc);
    }
  }

  lemma InTransitTotal(s: State, p: nat)
    requires TransitAgrees(s.levels, s.transfers)
    ensures Total(KeysOf(s.levels, p), k => Get(s.levels, k).inTransit) == Transit(s.transfers, All(p))
  {
    var keys, es := KeysOf(s.levels, p), FlightTo(s.transfers, |s.transfers|);
    var more := keys + KeysIn(es, p);
    var f, g := (k => Get(s.levels, k).inTransit), (k => SumTo(es, |es|, One(k)));
    FlightIsTransit(s.transfers, |s.transfers|, All(p));
    forall k
      ensures f(k) == g(k)
    {
      FlightIsTransit(s.transfers, |s.transfers|, One(k));
    }
    TotalWiden(keys, more, f);
    TotalSame(more, f, g);
    TotalOfSum(more, es, |es|, p);
  }

  /** In every state of every run, what the level rows of a product hold on hand and in transit, plus
      the discrepancies its received transfers recorded, is what came in from outside less what went out,
      plus what slipped on its levels: no dispatch, receipt or return makes or loses stock but by
      rounding, and stock is conserved exactly when the slips of the product cancel out. */
  lemma StockIsConserved(autoflush: bool, states: seq<State>, requests: seq<Request>, i: nat, p: nat)
    requires Run(states, requests) && states[0] == Empty(autoflush)
    requires i < |states|
    ensures var s := states[i];
            var held := Total(KeysOf(s.levels, p), k => Get(s.levels, k).onHand)
                        + Total(KeysOf(s.levels, p), k => Get(s.levels, k).inTransit)
                        + Lost(s.transfers, p);
            var slips := Total(Touched(s, p), k => SlipsTo(states, requests, i, k));
            && held == External(s.ledger, p) + slips
            && (held == External(s.ledger, p) <==> slips == 0)
  {
    EmptyOk(autoflush);
    RunKeeps(states, requests, i);
    OnHandTotal(states[i], p);
    InTransitTotal(states[i], p);
    assert BalancedAt(states[i].ledger, states[i].transfers, p);
    forall k
      ensures OnHandGap(states[i].levels, states[i].ledger, k) == SlipsTo(states, requests, i, k)
    {
      GapsAreSlips(states, requests, i, k);
    }
    TotalSame(Touched(states[i], p), k => OnHandGap(states[i].levels, states[i].ledger, k),
              k => SlipsTo(states, requests, i, k));
  }

  // ---- a cancelled delivery note ----

  lemma CancelMirrors(s0: State, id: nat, s1: State, s2: State, s3: State)
    requires id < |s0.notes| && s0.notes[id].status == N_DRAFT
    requires Deliveries.Confirms(s0, id, s1) && Deliveries.Cancels(s2, id, s3)
    requires NoteFrozen(s1.notes[id], s2.notes[id])
    ensures forall k :: Get(s3.levels, k).onHand - Get(s2.levels, k).onHand
                     == Get(s0.levels, k).onHand - Get(s1.levels, k).onHand
    ensures forall o, l :: Confirmed(s3.notes, o, l) - Confirmed(s2.notes, o, l)
                        == Confirmed(s0.notes, o, l) - Confirmed(s1.notes, o, l)
  {
    forall o, l
      ensures Confirmed(s3.notes, o, l) - Confirmed(s2.notes, o, l)
           == Confirmed(s0.notes, o, l) - Confirmed(s1.notes, o, l)
    {
      Deliveries.StatusShifts(s0, id, N_CONFIRMED, o, l);
      Deliveries.StatusShifts(s2, id, N_CANCELLED, o, l);
    }
  }

  /** The request confirms a draft note of LPO `o`, or cancels a confirmed one. */
  predicate Resettles(s: State, r: Request, o: nat) {
    match r
    case ConfirmNote(n) => n < |s.notes| && s.notes[n].order == o && s.notes[n].status == N_DRAFT
    case CancelNote(n) => n < |s.notes| && s.notes[n].order == o
    case _ => false
  }

  ghost predicate LineAt(s: State, o: nat, l: nat) {
    o < |s.orders| && l < |s.orders[o].lines|
  }

  /** From `s` to `s'` line `l` of LPO `o` keeps its figure and its confirmed quantity. */
  ghost predicate SameFigures(s: State, s': State, o: nat, l: nat)
    requires LineAt(s, o, l)
  {
    && LineAt(s', o, l) && s'.orders[o].lines[l].delivered == s.orders[o].lines[l].delivered
    && Confirmed(s'.notes, o, l) == Confirmed(s.notes, o, l)
  }

  lemma DraftDelivers(s: State, order: nat, header: Bin, slices: seq<Deliveries.Slice>, s': State, o: nat, l: nat)
    requires Deliveries.Drafts(s, order, header, slices, s') && LineAt(s, o, l)
    ensures SameFigures(s, s', o, l)
  {
    ConfirmedSame(s'.notes, s.notes, |s.notes|, o, l);
  }

  lemma RedraftDelivers(s: State, id: nat, header: Bin, slices: seq<Deliveries.Slice>, s': State, o: nat, l: nat)
    requires Deliveries.Redrafts(s, id, header, slices, s') && LineAt(s, o, l)
    ensures SameFigures(s, s', o, l)
  {
    ConfirmedUpdate(s.notes, id, s'.notes[id], |s.notes|, o, l);
  }

  /** A note that changes status rewrites the figures of its own LPO and leaves the others. */
  lemma NoteDelivers(s: State, r: Request, s': State, id: nat, o: nat, l: nat)
    requires Step(s, r, s') && LineAt(s, o, l) && id < |s.notes|
    requires (r == ConfirmNote(id) && s.notes[id].status == N_DRAFT) || r == CancelNote(id)
    ensures LineAt(s', o, l)
    ensures s.notes[id].order == o ==>
              s'.orders[o].lines[l].delivered == Confirmed(if s.autoflush then s'.notes else s.notes, o, l)
    ensures s.notes[id].order != o ==> SameFigures(s, s', o, l)
  {
    Deliveries.StatusShifts(s, id, if r.ConfirmNote? then N_CONFIRMED else N_CANCELLED, o, l);
  }

  lemma OthersDeliver(s: State, r: Request, s': State, o: nat, l: nat)
    requires Step(s, r, s') && LineAt(s, o, l)
    requires !r.DraftNote? && !r.RedraftNote? && !r.ConfirmNote? && !r.CancelNote?
    ensures SameFigures(s, s', o, l)
  {
    assert s'.notes == s.notes;
  }

  lemma StepDelivers(s: State, r: Request, s': State, o: nat, l: nat)
    requires Step(s, r, s') && LineAt(s, o, l)
    ensures LineAt(s', o, l)
    ensures Resettles(s, r, o) ==>
              s'.orders[o].lines[l].delivered == Confirmed(if s.autoflush then s'.notes else s.notes, o, l)
    ensures !Resettles(s, r, o) ==> SameFigures(s, s', o, l)
  {
    match r
    case DraftNote(order, h, xs) => DraftDelivers(s, order, h, xs, s', o, l);
    case RedraftNote(n, h, xs) => RedraftDelivers(s, n, h, xs, s', o, l);
    case ConfirmNote(n) => if s.notes[n].status == N_DRAFT { NoteDelivers(s, r, s', n, o, l); }
    case CancelNote(n) => NoteDelivers(s, r, s', n, o, l);
    case _ => OthersDeliver(s, r, s', o, l);
  }

  /** Request `i` rewrites the delivered figure of the line if it resettles its LPO, and only then. */
  ghost predicate DeliversAt(states: seq<State>, requests: seq<Request>, i: nat, o: nat, l: nat)
    requires i < |requests| < |states|
  {
    var s, s' := states[i], states[i + 1];
    && LineAt(s, o, l) && LineAt(s', o, l) && s'.autoflush == s.autoflush
    && (Resettles(s, requests[i], o) ==>
          s'.orders[o].lines[l].delivered == Confirmed(if s.autoflush then s'.notes else s.notes, o, l))
    && (!Resettles(s, requests[i], o) ==> SameFigures(s, s', o, l))
  }

  lemma RunDeliversAt(states: seq<State>, requests: seq<Request>, i: nat, o: nat, l: nat)
    requires Run(states, requests) && i < |requests|
    requires LineAt(states[i], o, l)
    ensures DeliversAt(states, requests, i, o, l)
  {
    StepDelivers(states[i], requests[i], states[i + 1], o, l);
    StepExtends(states[i], requests[i], states[i + 1]);
  }

  lemma {:induction false} LineStays(states: seq<State>, requests: seq<Request>, j: nat, i: nat, o: nat, l: nat)
    requires Run(states, requests) && j <= i <= |requests|
    requires LineAt(states[j], o, l)
    ensures LineAt(states[i], o, l)
  {
    if i != j {
      LineStays(states, requests, j, i - 1, o, l);
      StepDelivers(states[i - 1], requests[i - 1], states[i], o, l);
    }
  }

  lemma RunDelivers(states: seq<State>, requests: seq<Request>, j: nat, i: nat, o: nat, l: nat)
    requires Run(states, requests) && j <= i <= |requests|
    requires LineAt(states[j], o, l)
    ensures forall m | j <= m < i :: DeliversAt(states, requests, m, o, l)
  {
    forall m | j <= m < i
      ensures DeliversAt(states, requests, m, o, l)
    {
      LineStays(states, requests, j, m, o, l);
      RunDeliversAt(states, requests, m, o, l);
    }
  }

  lemma {:induction false} Lags(states: seq<State>, requests: seq<Request>, j: nat, i: nat, o: nat, l: nat)
    requires j < i <= |requests| < |states|
    requires forall m | j <= m < i :: DeliversAt(states, requests, m, o, l)
    requires Resettles(states[j], requests[j], o) && forall m | j < m < i :: !Resettles(states[m], requests[m], o)
    ensures LineAt(states[i], o, l)
    ensures states[i].orders[o].lines[l].delivered
         == Confirmed(if states[j].autoflush then states[j + 1].notes else states[j].notes, o, l)
    ensures Confirmed(states[i].notes, o, l) == Confirmed(states[j + 1].notes, o, l)
  {
    assert DeliversAt(states, requests, i - 1, o, l);
    if i != j + 1 {
      Lags(states, requests, j, i - 1, o, l);
    }
  }

  /** From one request that resettles an LPO line to the next, its stored delivered figure is the sum over
      the confirmed notes as that request left them if the session flushes by itself, and as that
      request found them if it does not: late by exactly one confirmation or cancellation. */
  lemma DeliveredLags(states: seq<State>, requests: seq<Request>, j: nat, i: nat, o: nat, l: nat)
    requires Run(states, requests)
    requires j < i <= |requests| && LineAt(states[j], o, l)
    requires Resettles(states[j], requests[j], o) && forall m | j < m < i :: !Resettles(states[m], requests[m], o)
    ensures LineAt(states[i], o, l)
    ensures states[i].orders[o].lines[l].delivered
         == Confirmed(if states[j].autoflush then states[j + 1].notes else states[j].notes, o, l)
    ensures Confirmed(states[i].notes, o, l) == Confirmed(states[j + 1].notes, o, l)
  {
    RunDelivers(states, requests, j, i, o, l);
    Lags(states, requests, j, i, o, l);
  }

  ghost predicate ExactAt(s: State, o: nat, l: nat) {
    LineAt(s, o, l) ==> s.orders[o].lines[l].delivered == Confirmed(s.notes, o, l)
  }

  /** Only entering an LPO brings a new line. */
  lemma LinesComeWithOrders(s: State, r: Request, s': State, o: nat, l: nat)
    requires Step(s, r, s') && !LineAt(s, o, l) && LineAt(s', o, l)
    ensures r.EnterOrder?
  {
  }

  lemma EnteredExact(s: State, lines: seq<OrderLine>, s': State, o: nat, l: nat)
    requires Inv(s) && Orders(s, lines, s') && !LineAt(s, o, l) && LineAt(s', o, l)
    ensures s'.orders[o].lines[l].delivered == Confirmed(s'.notes, o, l)
  {
    assert lines[l] in lines;
    NothingConfirmed(s.orders, s.notes, |s.notes|, o, l);
  }

  lemma StepStaysExact(s: State, r: Request, s': State, o: nat, l: nat)
    requires Inv(s) && Step(s, r, s') && s.autoflush && ExactAt(s, o, l)
    ensures ExactAt(s', o, l)
  {
    if LineAt(s, o, l) {
      StepDelivers(s, r, s', o, l);
    } else if LineAt(s', o, l) {
      LinesComeWithOrders(s, r, s', o, l);
      EnteredExact(s, r.lines, s', o, l);
    }
  }

  /** With autoflush every stored delivered figure is exact in every state of every run. */
  lemma {:induction false} DeliveredExact(states: seq<State>, requests: seq<Request>, i: nat, o: nat, l: nat)
    requires Run(states, requests) && states[0] == Empty(true)
    requires i <= |requests|
    ensures ExactAt(states[i], o, l) && states[i].autoflush
  {
    if i != 0 {
      DeliveredExact(states, requests, i - 1, o, l);
      EmptyOk(true);
      RunKeeps(states, requests, i - 1);
      StepStaysExact(states[i - 1], requests[i - 1], states[i], o, l);
      StepExtends(states[i - 1], requests[i - 1], states[i]);
    }
  }

  lemma {:induction false} DeliveredStaysExact(states: seq<State>, requests: seq<Request>, i: nat, o: nat, l: nat)
    requires i <= |requests| < |states| && states[0].autoflush && LineAt(states[0], o, l)
    requires forall m | 0 <= m < i :: DeliversAt(states, requests, m, o, l)
    requires states[0].orders[o].lines[l].delivered == Confirmed(states[0].notes, o, l)
    ensures LineAt(states[i], o, l) && states[i].autoflush
    ensures states[i].orders[o].lines[l].delivered == Confirmed(states[i].notes, o, l)
  {
    if i != 0 {
      DeliveredStaysExact(states, requests, i - 1, o, l);
      assert DeliversAt(states, requests, i - 1, o, l);
    }
  }

  lemma {:induction false} AutoflushStays(states: seq<State>, requests: seq<Request>, i: nat, o: nat, l: nat)
    requires i <= |requests| < |states|
    requires forall m | 0 <= m < i :: DeliversAt(states, requests, m, o, l)
    ensures states[i].autoflush == states[0].autoflush
  {
    if i != 0 {
      AutoflushStays(states, requests, i - 1, o, l);
      assert DeliversAt(states, requests, i - 1, o, l);
    }
  }

  /** Cancelling a note gives back to every level, and takes back from every LPO line's confirmed
      quantity, exactly what confirming it moved, whatever was committed in between. */
  lemma CancelUndoesConfirm(states: seq<State>, requests: seq<Request>, id: nat)
    requires Run(states, requests) && 2 <= |requests|
    requires id < |states[0].notes| && states[0].notes[id].status == N_DRAFT
    requires requests[0] == ConfirmNote(id) && requests[|requests| - 1] == CancelNote(id)
    ensures forall k :: Get(states[|requests|].levels, k).onHand - Get(states[|requests| - 1].levels, k).onHand
                     == Get(states[0].levels, k).onHand - Get(states[1].levels, k).onHand
    ensures forall o, l :: Confirmed(states[|requests|].notes, o, l) - Confirmed(states[|requests| - 1].notes, o, l)
                        == Confirmed(states[0].notes, o, l) - Confirmed(states[1].notes, o, l)
  {
    var m := |requests|;
    assert Step(states[0], requests[0], states[1]) && Step(states[m - 1], requests[m - 1], states[m]);
    RunExtends(states, requests, 1, m - 1);
    CancelMirrors(states[0], id, states[1], states[m - 1], states[m]);
  }

  /** Confirming adds a note to the confirmed quantities of its LPO, cancelling takes it off. */
  lemma NoteCounts(s: State, r: Request, s': State, id: nat, l: nat)
    requires Step(s, r, s') && id < |s.notes|
    requires (r == ConfirmNote(id) && s.notes[id].status == N_DRAFT) || r == CancelNote(id)
    ensures var o := s.notes[id].order;
            Resettles(s, r, o)
            && Confirmed(s'.notes, o, l) == Confirmed(s.notes, o, l)
               + if r.ConfirmNote? then Shipped(s.notes[id].lines, l) else -Shipped(s.notes[id].lines, l)
  {
    Deliveries.StatusShifts(s, id, if r.ConfirmNote? then N_CONFIRMED else N_CANCELLED, s.notes[id].order, l);
  }

  lemma NoteStays(states: seq<State>, requests: seq<Request>, id: nat, i: nat)
    requires Run(states, requests) && 1 <= i <= |requests|
    requires id < |states[0].notes| && states[0].notes[id].status == N_DRAFT && requests[0] == ConfirmNote(id)
    ensures id < |states[i].notes| && states[i].notes[id].order == states[0].notes[id].order
    ensures states[i].notes[id].lines == states[0].notes[id].lines
  {
    assert Step(states[0], requests[0], states[1]);
    RunExtends(states, requests, 1, i);
  }

  /** What requests `0` and `m - 1` do to one line, if they add `shipped` to its confirmed quantity and
      take it off again. */
  lemma FirstAndLast(states: seq<State>, requests: seq<Request>, m: nat, o: nat, l: nat, shipped: int)
    requires 2 <= m <= |requests| < |states|
    requires forall i | 0 <= i < m :: DeliversAt(states, requests, i, o, l)
    requires Resettles(states[0], requests[0], o) && Resettles(states[m - 1], requests[m - 1], o)
    requires Confirmed(states[1].notes, o, l) == Confirmed(states[0].notes, o, l) + shipped
    requires Confirmed(states[m].notes, o, l) == Confirmed(states[m - 1].notes, o, l) - shipped
    requires LineAt(states[0], o, l)
    requires states[0].autoflush ==> ExactAt(states[0], o, l)
    ensures LineAt(states[1], o, l) && LineAt(states[m - 1], o, l) && LineAt(states[m], o, l)
    ensures states[0].autoflush ==>
              && states[1].orders[o].lines[l].delivered - states[0].orders[o].lines[l].delivered == shipped
              && states[m - 1].orders[o].lines[l].delivered - states[m].orders[o].lines[l].delivered == shipped
    ensures !states[0].autoflush ==>
              && states[1].orders[o].lines[l].delivered == Confirmed(states[1].notes, o, l) - shipped
              && states[m].orders[o].lines[l].delivered == Confirmed(states[m].notes, o, l) + shipped
  {
    AutoflushStays(states, requests, m - 1, o, l);
    assert DeliversAt(states, requests, 0, o, l) && DeliversAt(states, requests, m - 1, o, l);
    if states[0].autoflush {
      DeliveredStaysExact(states, requests, m - 1, o, l);
    }
  }

  /** The stored delivered figures follow.  With autoflush the cancellation takes back from each line
      what the confirmation added.  Without it both figures are one request late: the confirmation does
      not count the note yet, and the cancellation still does. */
  lemma CancelUndoesDelivered(states: seq<State>, requests: seq<Request>, id: nat, l: nat)
    requires Run(states, requests) && 2 <= |requests|
    requires id < |states[0].notes| && states[0].notes[id].status == N_DRAFT
    requires requests[0] == ConfirmNote(id) && requests[|requests| - 1] == CancelNote(id)
    requires LineAt(states[0], states[0].notes[id].order, l)
    requires states[0].autoflush ==> ExactAt(states[0], states[0].notes[id].order, l)
    ensures var m, o := |requests|, states[0].notes[id].order;
            var shipped := Shipped(states[0].notes[id].lines, l);
            && LineAt(states[1], o, l) && LineAt(states[m - 1], o, l) && LineAt(states[m], o, l)
            && (states[0].autoflush ==>
                  && states[1].orders[o].lines[l].delivered - states[0].orders[o].lines[l].delivered == shipped
                  && states[m - 1].orders[o].lines[l].delivered - states[m].orders[o].lines[l].delivered == shipped)
            && (!states[0].autoflush ==>
                  && states[1].orders[o].lines[l].delivered == Confirmed(states[1].notes, o, l) - shipped
                  && states[m].orders[o].lines[l].delivered == Confirmed(states[m].notes, o, l) + shipped)
  {
    var m, o := |requests|, states[0].notes[id].order;
    NoteCounts(states[0], requests[0], states[1], id, l);
    NoteStays(states, requests, id, m - 1);
    NoteCounts(states[m - 1], requests[m - 1], states[m], id, l);
    RunDelivers(states, requests, 0, m, o, l);
    FirstAndLast(states, requests, m, o, l, Shipped(states[0].notes[id].lines, l));
  }

  lemma ConfirmMoves(s: State, id: nat, s': State, k: Key)
    requires Inv(s) && id < |s.notes| && s.notes[id].status == N_DRAFT
    requires Deliveries.Confirms(s, id, s')
    ensures s'.notes[id].lines == s.notes[id].lines
    ensures Get(s'.levels, k).onHand == Get(s.levels, k).onHand - Sum(Issued(s.notes[id].lines), One(k))
    ensures Get(s'.levels, k).damaged == Get(s.levels, k).damaged
    ensures Get(s'.levels, k).reserved <= Get(s.levels, k).reserved
  {
    var n := s.notes[id];
    assert NonNegativeLevel(Get(s.levels, k));
    Deliveries.DrawnOk(Consumption.Book(s.heads, s.items), n.order, n.lines, |n.lines|, k);
  }

  lemma CancelMoves(s: State, id: nat, s': State, k: Key)
    requires Deliveries.Cancels(s, id, s')
    ensures Get(s'.levels, k)
         == Get(s.levels, k).(onHand := Get(s.levels, k).onHand + Sum(Issued(s.notes[id].lines), One(k)))
  {
  }

  /** Reservations the confirmation consumed stay consumed: confirming and at once cancelling a note
      leaves a level's available stock as it was exactly when nothing reserved there was drawn on. */
  lemma ReservationsStayConsumed(s: State, id: nat, s1: State, s2: State, k: Key)
    requires Inv(s) && id < |s.notes| && s.notes[id].status == N_DRAFT
    requires Deliveries.Confirms(s, id, s1) && Deliveries.Cancels(s1, id, s2)
    ensures Available(s.levels, k) <= Available(s2.levels, k)
    ensures Available(s.levels, k) == Available(s2.levels, k)
       <==> Get(s1.levels, k).reserved == Get(s.levels, k).reserved
  {
    ConfirmMoves(s, id, s1, k);
    CancelMoves(s1, id, s2, k);
  }
}
