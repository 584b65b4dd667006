/** What delivery notes may hold and what confirming or cancelling one moves, told over the columns. */
module DeliveryLaws {
  import opened Levels
  import opened Tables
  import opened StockInvariant
  import opened Rounding
  import opened Demands
  import opened Reservations
  import opened Consumption
  import opened Deliveries

  /** What the confirmed notes do not cover of an LPO line. */
  function Undelivered(s: State, o: nat, l: nat): int
    requires o < |s.orders| && l < |s.orders[o].lines|
  {
    s.orders[o].lines[l].quantity - Confirmed(s.notes, o, l)
  }

  // ---- planning ----

  /** The requested lines exist, none is stored as zero, and together they fit what is undelivered. */
  ghost predicate SlicesFit(s: State, order: nat, slices: seq<Slice>)
    requires order < |s.orders|
  {
    && (forall x <- slices :: x.line < |s.orders[order].lines| && 0.5 <= x.quantity)
    && forall l | 0 <= l < |s.orders[order].lines| && 0.0 < SlicedTo(slices, |slices|, l) ::
         SlicedTo(slices, |slices|, l) <= Undelivered(s, order, l) as real
  }

  /** Exactly when a note can be planned: for an LPO that may ship, with lines that fit, or without lines when
      something of it is undelivered. */
  lemma PlansIff(s: State, order: nat, header: Bin, slices: seq<Slice>)
    ensures PlanRefusal(s, order, header, slices) == None <==>
              && order < |s.orders| && s.orders[order].shippable
              && if slices == [] then exists l :: 0 <= l < |s.orders[order].lines| && 0 < Undelivered(s, order, l)
                 else SlicesFit(s, order, slices)
  {
    if order < |s.orders| && s.orders[order].shippable {
      if slices == [] {
        SomethingLeft(s, order, header, |s.orders[order].lines|);
      } else {
        if PlanRefusal(s, order, header, slices) == None {
          FitWhenPlanned(s, order, slices);
        }
        if SlicesFit(s, order, slices) {
          PlannedWhenFit(s, order, slices);
        }
      }
    }
  }

  lemma {:induction false} SomethingLeft(s: State, order: nat, header: Bin, n: nat)
    requires order < |s.orders| && n <= |s.orders[order].lines|
    ensures LeftoversTo(s, order, header, n) == [] <==> forall l | 0 <= l < n :: Undelivered(s, order, l) <= 0
  {
    if n != 0 {
      SomethingLeft(s, order, header, n - 1);
      assert Leftover(s, order, n - 1) == 0 <==> Undelivered(s, order, n - 1) <= 0;
    }
  }

  lemma {:induction false} SlicedGrows(slices: seq<Slice>, i: nat, n: nat, l: nat)
    requires i <= n <= |slices|
    ensures 0.0 <= SlicedTo(slices, i, l) <= SlicedTo(slices, n, l)
  {
    if i != n {
      SlicedGrows(slices, i, n - 1, l);
    } else if i != 0 {
      SlicedGrows(slices, i - 1, i - 1, l);
    }
  }

  lemma {:induction false} SlicesBounded(s: State, order: nat, slices: seq<Slice>, n: nat, l: nat)
    requires order < |s.orders| && n <= |slices| && l < |s.orders[order].lines|
    requires UnsliceableTo(s, order, slices, |slices|) == None
    ensures 0.0 < SlicedTo(slices, n, l) ==> SlicedTo(slices, n, l) <= Undelivered(s, order, l) as real
  {
    if n != 0 {
      SlicesBounded(s, order, slices, n - 1, l);
      FirstStays(SliceVerdicts(s, order, slices), n - 1, |slices|);
      SlicedGrows(slices, n - 1, n - 1, l);
    }
  }

  lemma FitWhenPlanned(s: State, order: nat, slices: seq<Slice>)
    requires order < |s.orders| && UnsliceableTo(s, order, slices, |slices|) == None && Storable(slices)
    ensures SlicesFit(s, order, slices)
  {
    SlicesExist(s, order, slices, |slices|);
    forall x <- slices
      ensures x.line < |s.orders[order].lines| && 0.5 <= x.quantity
    {
      var i :| 0 <= i < |slices| && slices[i] == x;
      assert 0 < Nearest(slices[i].quantity);
    }
    forall l | 0 <= l < |s.orders[order].lines|
      ensures 0.0 < SlicedTo(slices, |slices|, l) ==> SlicedTo(slices, |slices|, l) <= Undelivered(s, order, l) as real
    {
      SlicesBounded(s, order, slices, |slices|, l);
    }
  }

  lemma {:induction false} NoneRefused(verdicts: seq<Option<Error>>, n: nat)
    requires n <= |verdicts| && forall i | 0 <= i < n :: verdicts[i] == None
    ensures FirstTo(verdicts, n) == None
  {
    if n != 0 {
      NoneRefused(verdicts, n - 1);
    }
  }

  lemma PlannedWhenFit(s: State, order: nat, slices: seq<Slice>)
    requires order < |s.orders| && SlicesFit(s, order, slices)
    ensures UnsliceableTo(s, order, slices, |slices|) == None && Storable(slices)
  {
    forall i | 0 <= i < |slices|
      ensures SliceRefusal(s, order, slices, i) == None && 0 < Nearest(slices[i].quantity)
    {
      var x := slices[i];
      assert x in slices;
      SlicedGrows(slices, i, i, x.line);
      SlicedGrows(slices, i + 1, |slices|, x.line);
      CentsOf(x.quantity);
    }
    NoneRefused(SliceVerdicts(s, order, slices), |slices|);
  }

  /** A planned line: for the product of its LPO line at its own bin, or else at the bin of the note; an ad-hoc
      line has no level at all. */
  predicate PlannedFor(o: Order, header: Bin, line: nat, bin: Option<Bin>, x: NoteLine) {
    && x.line == line && line < |o.lines|
    && match o.lines[line].product
       case None => x.target == None
       case Some(p) => x.target == Some(Key(p, if bin.Some? then bin.value else header))
  }

  /** The lines a note gets when lines were requested: one each, in order, rounded to the nearest hundredth. */
  lemma RequestedLines(s: State, order: nat, header: Bin, slices: seq<Slice>, s': State)
    requires Drafts(s, order, header, slices, s') && slices != []
    ensures |s'.notes| == |s.notes| + 1 && s' == s.(notes := s.notes + [s'.notes[|s.notes|]])
    ensures var n := s'.notes[|s.notes|];
            && n.order == order && n.status == N_DRAFT && |n.lines| == |slices|
            && forall i | 0 <= i < |slices| ::
                 && PlannedFor(s.orders[order], header, slices[i].line, slices[i].bin, n.lines[i])
                 && n.lines[i].quantity as real - 0.5 <= slices[i].quantity < n.lines[i].quantity as real + 0.5
  {
    SlicesExist(s, order, slices, |slices|);
    forall i | 0 <= i < |slices|
      ensures Nearest(slices[i].quantity) as real - 0.5 <= slices[i].quantity < Nearest(slices[i].quantity) as real + 0.5
    {
      CentsOf(slices[i].quantity);
    }
  }

  /** The lines are for LPO lines below `n`, at the bin of the note, in order and each in full. */
  ghost predicate TakesInFull(s: State, order: nat, header: Bin, lines: seq<NoteLine>, n: nat)
    requires order < |s.orders| && n <= |s.orders[order].lines|
  {
    && (forall i | 0 <= i < |lines| ::
          lines[i].line < n && PlannedFor(s.orders[order], header, lines[i].line, None, lines[i])
          && lines[i].quantity == Undelivered(s, order, lines[i].line))
    && forall i, j | 0 <= i < j < |lines| :: lines[i].line < lines[j].line
  }

  lemma {:induction false} LeftoversInFull(s: State, order: nat, header: Bin, n: nat)
    requires order < |s.orders| && n <= |s.orders[order].lines|
    ensures TakesInFull(s, order, header, LeftoversTo(s, order, header, n), n)
  {
    if n != 0 {
      LeftoversInFull(s, order, header, n - 1);
    }
  }

  ghost predicate HasLine(lines: seq<NoteLine>, l: nat) {
    exists i :: 0 <= i < |lines| && lines[i].line == l
  }

  lemma {:induction false} LeftoversComplete(s: State, order: nat, header: Bin, n: nat, l: nat)
    requires order < |s.orders| && l < n <= |s.orders[order].lines| && 0 < Undelivered(s, order, l)
    ensures HasLine(LeftoversTo(s, order, header, n), l)
  {
    var lines := LeftoversTo(s, order, header, n);
    if l == n - 1 {
      assert lines[|lines| - 1].line == l;
    } else {
      LeftoversComplete(s, order, header, n - 1, l);
      var before := LeftoversTo(s, order, header, n - 1);
      var i :| 0 <= i < |before| && before[i].line == l;
      assert lines[i] == before[i];
    }
  }

  /** Without requested lines a note gets everything that is undelivered: each such LPO line once, in full. */
  lemma EverythingLeft(s: State, order: nat, header: Bin, s': State)
    requires Drafts(s, order, header, [], s')
    ensures |s'.notes| == |s.notes| + 1
    ensures var lines := s'.notes[|s.notes|].lines;
            && TakesInFull(s, order, header, lines, |s.orders[order].lines|)
            && forall l | 0 <= l < |s.orders[order].lines| && 0 < Undelivered(s, order, l) :: HasLine(lines, l)
  {
    LeftoversInFull(s, order, header, |s.orders[order].lines|);
    forall l | 0 <= l < |s.orders[order].lines| && 0 < Undelivered(s, order, l)
      ensures HasLine(s'.notes[|s.notes|].lines, l)
    {
      LeftoversComplete(s, order, header, |s.orders[order].lines|, l);
    }
  }

  /** Rewriting a draft gives it the lines that drafting it now would, and touches nothing else. */
  lemma RedraftsLikeDrafts(s: State, id: nat, header: Bin, slices: seq<Slice>, s': State)
    ensures RedraftRefusal(s, id, header, slices) == None <==>
              && id < |s.notes| && s.notes[id].status == N_DRAFT && PlanRefusal(s, s.notes[id].order, header, slices) == None
    ensures Redrafts(s, id, header, slices, s') ==>
              var drafted := s.(notes := s.notes + [Note(s.notes[id].order, N_DRAFT, s'.notes[id].lines)]);
              && |s'.notes| == |s.notes| && Drafts(s, s.notes[id].order, header, slices, drafted)
              && s' == s.(notes := s.notes[id := s.notes[id].(lines := s'.notes[id].lines)])
  {
  }

  // ---- confirming ----

  /** What is checked before any stock moves: the LPO may ship, and what the note and the confirmed notes ship
      of each LPO line stays within its quantity. */
  ghost predicate MayShip(s: State, n: Note)
    requires n.order < |s.orders|
  {
    && s.orders[n.order].shippable && n.lines != []
    && (forall x <- n.lines :: x.line < |s.orders[n.order].lines|)
    && forall l | 0 <= l < |s.orders[n.order].lines| && 0 < Shipped(n.lines, l) ::
         Confirmed(s.notes, n.order, l) + Shipped(n.lines, l) <= s.orders[n.order].lines[l].quantity
  }

  lemma ShippableIs(s: State, n: Note)
    requires n.order < |s.orders|
    ensures MayShip(s, n) <==> s.orders[n.order].shippable && n.lines != [] && Deliverable(s, n)
  {
    assert forall i | 0 <= i < |n.lines| :: n.lines[i] in n.lines;
    forall l | 0 <= l < |s.orders[n.order].lines|
      ensures 0 <= Shipped(n.lines, l)
    {
      ShippedNonNegative(n.lines, |n.lines|, l);
    }
  }

  /** What reservation lines hold at a level. */
  function HeldAtTo(items: seq<ResItem>, n: nat, k: Key): int
    requires n <= |items|
  {
    if n == 0 then 0
    else
      var it := items[n - 1];
      HeldAtTo(items, n - 1, k) + if it.status == ACTIVE && it.key == k then it.quantity - it.consumed else 0
  }

  function HeldAt(items: seq<ResItem>, k: Key): int {
    HeldAtTo(items, |items|, k)
  }

  lemma {:induction false} ClaimsAre(items: seq<ResItem>, n: nat, k: Key)
    requires n <= |items|
    ensures SumTo(Claims(items), n, One(k)) == HeldAtTo(items, n, k)
  {
    if n != 0 {
      ClaimsAre(items, n - 1, k);
    }
  }

  /** What the first `n` lines of a note take from level `k`. */
  function NotedTo(lines: seq<NoteLine>, n: nat, k: Key): int
    requires n <= |lines|
  {
    if n == 0 then 0 else NotedTo(lines, n - 1, k) + if lines[n - 1].target == Some(k) then lines[n - 1].quantity else 0
  }

  lemma {:induction false} IssuedIs(lines: seq<NoteLine>, n: nat, k: Key)
    requires n <= |lines|
    ensures SumTo(Issued(lines), n, One(k)) == NotedTo(lines, n, k)
  {
    if n != 0 {
      IssuedIs(lines, n - 1, k);
    }
  }

  /** Line `i` finds its quantity at its level once it and the lines before it have drawn on the reservations:
      what the earlier lines took is gone, and what they and it consumed of the reservations is free. */
  ghost predicate FindsStock(s: State, n: Note, i: nat)
    requires i < |n.lines|
  {
    match n.lines[i].target
    case None => true
    case Some(k) =>
      var level, items' := Get(s.levels, k), DrawnTo(Book(s.heads, s.items), n.order, n.lines, i + 1).items;
      n.lines[i].quantity + NotedTo(n.lines, i, k) + level.damaged
        + Max(0, level.reserved - HeldAt(s.items, k) + HeldAt(items', k)) <= level.onHand
  }

  lemma StockedIs(s: State, n: Note, i: nat)
    requires i < |n.lines|
    ensures Stocked(s, n, i) <==> FindsStock(s, n, i)
  {
    if n.lines[i].target.Some? {
      var k := n.lines[i].target.value;
      var items' := DrawnTo(Book(s.heads, s.items), n.order, n.lines, i + 1).items;
      IssuedIs(n.lines, i, k);
      ClaimsAre(s.items, |s.items|, k);
      ClaimsAre(items', |items'|, k);
    }
  }

  /** Exactly when a draft is confirmed; confirming a confirmed note is never refused, and a cancelled one always. */
  lemma ConfirmsIff(s: State, id: nat)
    requires id < |s.notes|
    ensures s.notes[id].status == N_CONFIRMED ==> ConfirmRefusal(s, id) == None
    ensures s.notes[id].status == N_CANCELLED ==> ConfirmRefusal(s, id) == Some(InvalidState)
    ensures s.notes[id].status == N_DRAFT ==>
              (ConfirmRefusal(s, id) == None <==>
                 && s.notes[id].order < |s.orders| && MayShip(s, s.notes[id])
                 && forall i | 0 <= i < |s.notes[id].lines| :: FindsStock(s, s.notes[id], i))
  {
    var n := s.notes[id];
    if n.order < |s.orders| {
      ShippableIs(s, n);
      RemainingNeedsWholeDemand(s, n);
    }
    forall i | 0 <= i < |n.lines|
      ensures Stocked(s, n, i) <==> FindsStock(s, n, i)
    {
      StockedIs(s, n, i);
    }
  }

  /** What the refusals of a draft mean, in the order they are looked for; the first line that names no LPO line
      or more than is left of it decides. */
  lemma ConfirmAnswers(s: State, id: nat)
    ensures |s.notes| <= id ==> ConfirmRefusal(s, id) == Deliveries.CancelRefusal(s, id) == Some(NotFound)
    ensures id < |s.notes| && s.notes[id].status == N_DRAFT ==>
              var n := s.notes[id];
              if n.lines == [] then ConfirmRefusal(s, id) == Some(NoLines)
              else if |s.orders| <= n.order then ConfirmRefusal(s, id) == Some(NotFound)
              else if !s.orders[n.order].shippable then ConfirmRefusal(s, id) == Some(InvalidState)
              else if !MayShip(s, n) then ConfirmRefusal(s, id) == FirstTo(LineVerdicts(s, n), |n.lines|)
              else ConfirmRefusal(s, id) == None || ConfirmRefusal(s, id) == Some(Insufficient)
    ensures id < |s.notes| && s.notes[id].status != N_CONFIRMED ==> Deliveries.CancelRefusal(s, id) == Some(InvalidState)
    ensures id < |s.notes| && s.notes[id].status == N_CONFIRMED ==>
              Deliveries.CancelRefusal(s, id)
              == if |s.orders| <= s.notes[id].order then Some(NotFound)
                 else if !s.orders[s.notes[id].order].shippable then Some(InvalidState) else None
  {
    if id < |s.notes| && s.notes[id].order < |s.orders| {
      ShippableIs(s, s.notes[id]);
      RemainingNeedsWholeDemand(s, s.notes[id]);
    }
  }

  lemma {:induction false} LineAnswers(s: State, n: Note, i: nat)
    requires n.order < |s.orders| && i < |n.lines| && 0 <= ShippedTo(n.lines, i, n.lines[i].line)
    ensures var x := n.lines[i];
            LineVerdicts(s, n)[i]
            == if |s.orders[n.order].lines| <= x.line then Some(NotFound)
               else if s.orders[n.order].lines[x.line].quantity
                       < Confirmed(s.notes, n.order, x.line) + ShippedTo(n.lines, i, x.line) + x.quantity
               then Some(OverDelivery) else None
  {
  }

  /** The same for planning. */
  lemma {:induction false} PlanAnswers(s: State, order: nat, header: Bin, slices: seq<Slice>)
    ensures |s.orders| <= order ==> PlanRefusal(s, order, header, slices) == Some(NotFound)
    ensures order < |s.orders| && !s.orders[order].shippable ==> PlanRefusal(s, order, header, slices) == Some(InvalidState)
    ensures order < |s.orders| && s.orders[order].shippable && slices == [] ==>
              PlanRefusal(s, order, header, slices) in {None, Some(NoLines)}
    ensures order < |s.orders| && s.orders[order].shippable && slices != [] ==>
              var first := FirstTo(SliceVerdicts(s, order, slices), |slices|);
              PlanRefusal(s, order, header, slices)
              == if first.Some? then first
                 else if exists j :: 0 <= j < |slices| && slices[j].quantity < 0.5 then Some(CheckViolation) else None
  {
    forall j | 0 <= j < |slices|
      ensures 0 < Nearest(slices[j].quantity) <==> 0.5 <= slices[j].quantity
    {
      CentsOf(slices[j].quantity);
    }
  }

  lemma {:induction false} SliceAnswers(s: State, order: nat, slices: seq<Slice>, i: nat)
    requires order < |s.orders| && i < |slices|
    ensures var x := slices[i];
            SliceVerdicts(s, order, slices)[i]
            == if |s.orders[order].lines| <= x.line then Some(NotFound)
               else if Undelivered(s, order, x.line) as real < SlicedTo(slices, i, x.line) + x.quantity then Some(OverDelivery)
               else None
  {
    SlicedGrows(slices, i, i, slices[i].line);
  }

  /** A confirmed note of an LPO that may ship can be cancelled, and no other note. */
  lemma CancelsNoteIff(s: State, id: nat)
    ensures Deliveries.CancelRefusal(s, id) == None
       <==> id < |s.notes| && s.notes[id].status == N_CONFIRMED && s.notes[id].order < |s.orders|
            && s.orders[s.notes[id].order].shippable
  {
  }

  /** Confirming takes each catalogue line from its level and lets go of what it consumed of the reservations,
      down to zero; cancelling puts the lines back and leaves the reservations alone. */
  lemma {:induction false} NoteMoves(s: State, id: nat, s': State, k: Key)
    requires id < |s.notes|
    ensures Confirms(s, id, s') && s.notes[id].status == N_CONFIRMED ==> s' == s
    ensures var (lines, l, l') := (s.notes[id].lines, Get(s.levels, k), Get(s'.levels, k));
            && (Confirms(s, id, s') && s.notes[id].status == N_DRAFT ==>
                  && l' == l.(onHand := l.onHand - NotedTo(lines, |lines|, k),
                              reserved := Max(0, l.reserved - HeldAt(s.items, k) + HeldAt(s'.items, k)))
                  && s'.notes == s.notes[id := s.notes[id].(status := N_CONFIRMED)])
            && (Deliveries.Cancels(s, id, s') ==>
                  && l' == l.(onHand := l.onHand + NotedTo(lines, |lines|, k))
                  && s'.items == s.items && s'.heads == s.heads
                  && s'.notes == s.notes[id := s.notes[id].(status := N_CANCELLED)])
  {
    IssuedIs(s.notes[id].lines, |s.notes[id].lines|, k);
    ClaimsAre(s.items, |s.items|, k);
    ClaimsAre(s'.items, |s'.items|, k);
  }

  /** Whatever reservations it draws on, a confirmed note leaves on every level it draws on what is still
      reserved and damaged there. */
  lemma ConfirmLeavesHeld(s: State, id: nat, s': State, k: Key)
    requires Inv(s) && Confirms(s, id, s') && s.notes[id].status == N_DRAFT
    requires exists x <- s.notes[id].lines :: x.target == Some(k)
    ensures Get(s'.levels, k).reserved + Get(s'.levels, k).damaged <= Get(s'.levels, k).onHand
  {
    var n := s.notes[id];
    var x :| x in n.lines && x.target == Some(k);
    var i :| 0 <= i < |n.lines| && n.lines[i] == x;
    LeavesHeldTo(s, n, |n.lines|, i, k);
  }

  lemma StillFalls(s: State, n: Note, i: nat, k: Key)
    requires i < |n.lines| && ItemsOk(s.heads, s.items)
    ensures StillReserved(s, n, i + 1, k) <= StillReserved(s, n, i, k)
  {
    DrawnItems(Book(s.heads, s.items), n.order, n.lines, i);
    DrawLineOk(DrawnBy(s, n, i), n.order, n.lines[i], k);
  }

  lemma {:induction false} LeavesHeldTo(s: State, n: Note, m: nat, i: nat, k: Key)
    requires ItemsOk(s.heads, s.items) && i < m <= |n.lines| && n.lines[i].target == Some(k) && StockedTo(s, n, |n.lines|)
    ensures StillReserved(s, n, m, k) + Get(s.levels, k).damaged
         <= Get(s.levels, k).onHand - SumTo(Issued(n.lines), m, One(k))
  {
    if n.lines[m - 1].target == Some(k) {
      LastDraw(s, n, m - 1, k);
    } else {
      LeavesHeldTo(s, n, m - 1, i, k);
      StillFalls(s, n, m - 1, k);
      OtherDraw(n, m - 1, k);
    }
  }

  lemma {:induction false} LastDraw(s: State, n: Note, i: nat, k: Key)
    requires i < |n.lines| && n.lines[i].target == Some(k) && StockedTo(s, n, |n.lines|)
    ensures StillReserved(s, n, i + 1, k) + Get(s.levels, k).damaged
         <= Get(s.levels, k).onHand - SumTo(Issued(n.lines), i + 1, One(k))
  {
    assert Stocked(s, n, i);
  }

  lemma OtherDraw(n: Note, i: nat, k: Key)
    requires i < |n.lines| && n.lines[i].target != Some(k)
    ensures SumTo(Issued(n.lines), i + 1, One(k)) == SumTo(Issued(n.lines), i, One(k))
  {
  }
}
