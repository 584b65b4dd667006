/** Two-stage half-up rounding of line amounts.

    Quantities, prices and percentages are columns with two decimals, held as whole hundredths, and
    amounts as whole cents: quantity times price counts ten-thousandths, and a percentage of an
    amount in cents counts ten-thousandths of a cent. */
module LineMoney {
  import opened Levels

  /** ROUND_HALF_UP to a multiple of an even `d`: the nearest one, ties away from zero. */
  function HalfUp(x: int, d: nat): int
    requires 0 < d
  {
    if x >= 0 then (x + d / 2) / d else -((d / 2 - x) / d)
  }

  lemma DivBounds(x: int, d: nat)
    requires 0 < d
    ensures x - d < d * (x / d) <= x
  {
  }

  lemma MulNat(d: nat, k: nat)
    ensures 0 <= d * k
  {
  }

  lemma MulApart(d: int, a: int, k: int)
    ensures d * (a + 1 + k) == d * a + d + d * k
  {
  }

  lemma MulLess(d: nat, a: int, b: int)
    ensures a < b ==> d * a + d <= d * b
  {
    if a < b {
      MulApart(d, a, b - a - 1);
      MulNat(d, b - a - 1);
    }
  }

  lemma DivIs(x: int, d: nat, q: int)
    requires 0 < d && d * q <= x < d * q + d
    ensures x / d == q
  {
    DivBounds(x, d);
    MulLess(d, x / d, q);
    MulLess(d, q, x / d);
  }

  /** Rounding is off by at most half a unit. */
  lemma HalfUpNear(x: int, d: nat)
    requires 0 < d && d % 2 == 0
    ensures -(d / 2) <= d * HalfUp(x, d) - x <= d / 2
  {
    if x >= 0 {
      DivBounds(x + d / 2, d);
    } else {
      DivBounds(d / 2 - x, d);
      assert d * -((d / 2 - x) / d) == -(d * ((d / 2 - x) / d));
    }
  }

  /** Rounding what is already rounded changes nothing. */
  lemma HalfUpWhole(m: int, d: nat)
    requires 0 < d && d % 2 == 0
    ensures HalfUp(d * m, d) == m
  {
    if m >= 0 {
      DivIs(d * m + d / 2, d, m);
    } else {
      assert d * m < 0;
      DivIs(d / 2 - d * m, d, -m);
    }
  }

  /** Ties go away from zero. */
  lemma HalfUpTies(m: nat, d: nat)
    requires 0 < d && d % 2 == 0
    ensures HalfUp(d * m + d / 2, d) == m + 1 && HalfUp(-(d * m + d / 2), d) == -(m + 1)
  {
    MulNat(d, m);
    assert d * (m + 1) == d * m + d;
    DivIs(d * m + d / 2 + d / 2, d, m + 1);
  }

  datatype Line = Line(quantity: int, price: int, discountPercent: int, discount: int, taxRate: int)

  datatype Amounts = Amounts(net: int, tax: int, total: int)

  // ---- the service ----

  function Extended(l: Line): int {
    HalfUp(l.quantity * l.price, 100)
  }

  function DiscountOf(l: Line): int {
    if l.discount > 0 then l.discount else HalfUp(Extended(l) * l.discountPercent, 10_000)
  }

  /** `apply_line_money`; None stands for "discount exceeds line extended amount". */
  function Apply(l: Line): Option<Amounts> {
    if DiscountOf(l) > Extended(l) then None
    else
      var net := Extended(l) - DiscountOf(l);
      var tax := HalfUp(net * l.taxRate, 10_000);
      Some(Amounts(net, tax, net + tax))
  }

  // ---- the migration ----

  /** The UPDATE that backfilled lines recorded before discounts existed. */
  function Backfilled(l: Line): Amounts {
    var net := HalfUp(l.quantity * l.price, 100);
    var tax := HalfUp(net * l.taxRate, 10_000);
    Amounts(net, tax, net + tax)
  }

  /** A backfilled line carries what the service computes for it, provided it has no discount and the
      service does not refuse it, which is when its extended amount is not negative. */
  lemma BackfillIsService(l: Line)
    requires l.discountPercent == 0 && l.discount <= 0
    ensures Apply(l) == Some(Backfilled(l)) <==> 0 <= Extended(l)
    ensures Apply(l).None? <==> Extended(l) < 0
  {
  }

  /** The gross of a line to the last digit, in units of 10^-8. */
  function Exact(l: Line): int {
    l.quantity * l.price * (10_000 + l.taxRate)
  }

  lemma Scale(x: int, y: int, bound: int, k: nat)
    requires -bound <= x - y <= bound
    ensures -(bound * k) <= x * k - y * k <= bound * k
  {
    assert x * k - y * k == (x - y) * k;
    assert -(bound * k) <= (x - y) * k <= bound * k;
  }

  /** The two roundings together: |total - q*p*(1 + r/100)| <= 0.005 * (2 + r/100). */
  lemma BackfillIsClose(l: Line)
    requires 0 <= l.taxRate
    ensures var bound := 50 * (20_000 + l.taxRate);
            -bound <= 1_000_000 * Backfilled(l).total - Exact(l) <= bound
  {
    var qp, net, rate := l.quantity * l.price, Backfilled(l).net, l.taxRate;
    var tax := Backfilled(l).tax;
    HalfUpNear(qp, 100);
    HalfUpNear(net * rate, 10_000);
    Scale(100 * net, qp, 50, 10_000 + rate);
    Split(net, tax, qp, rate);
  }

  lemma Split(net: int, tax: int, qp: int, rate: int)
    ensures 1_000_000 * (net + tax) - qp * (10_000 + rate)
         == 100 * net * (10_000 + rate) - qp * (10_000 + rate) + 100 * (10_000 * tax - net * rate)
  {
    assert 100 * net * (10_000 + rate) == 1_000_000 * net + 100 * (net * rate);
  }

  function TotalTo(ls: seq<Line>, n: nat): int
    requires n <= |ls|
  {
    if n == 0 then 0 else TotalTo(ls, n - 1) + Backfilled(ls[n - 1]).total
  }

  function ExactTo(ls: seq<Line>, n: nat): int
    requires n <= |ls|
  {
    if n == 0 then 0 else ExactTo(ls, n - 1) + Exact(ls[n - 1])
  }

  /** Over `n` lines the error grows no faster than `n` times. */
  lemma {:induction false} DocumentIsClose(ls: seq<Line>, n: nat, rate: int)
    requires n <= |ls| && forall l <- ls :: 0 <= l.taxRate <= rate
    ensures var bound := n * (50 * (20_000 + rate));
            -bound <= 1_000_000 * TotalTo(ls, n) - ExactTo(ls, n) <= bound
  {
    if n != 0 {
      DocumentIsClose(ls, n - 1, rate);
      assert ls[n - 1] in ls;
      BackfillIsClose(ls[n - 1]);
      assert n * (50 * (20_000 + rate)) == (n - 1) * (50 * (20_000 + rate)) + 50 * (20_000 + rate);
    }
  }

  /** The bound is met: half a cent of net rounds up, and half a cent of tax with it. */
  lemma BackfillBoundIsTight()
    ensures var l := Line(50, 1, 0, 0, 5_000);
            1_000_000 * Backfilled(l).total - Exact(l) == 50 * (20_000 + l.taxRate)
  {
  }

  lemma NetFromExtended(qp: int, ext: int, percent: int, disc: int)
    requires 0 <= percent <= 10_000
    requires -50 <= 100 * ext - qp <= 50 && -5_000 <= 10_000 * disc - ext * percent <= 5_000
    ensures var keep := 10_000 - percent;
            -(500_000 + 50 * keep) <= 1_000_000 * (ext - disc) - qp * keep <= 500_000 + 50 * keep
  {
    var keep := 10_000 - percent;
    Scale(100 * ext, qp, 50, keep);
    assert 100 * ext * keep == 1_000_000 * ext - 100 * (ext * percent);
  }

  lemma GrossFromNet(net: int, tax: int, exact: int, bound: int, rate: nat)
    requires -bound <= 1_000_000 * net - exact <= bound
    requires -5_000 <= 10_000 * tax - net * rate <= 5_000
    ensures var off := bound * (10_000 + rate) + 5_000_000_000;
            -off <= 10_000_000_000 * (net + tax) - exact * (10_000 + rate) <= off
  {
    Scale(1_000_000 * net, exact, bound, 10_000 + rate);
    assert 1_000_000 * net * (10_000 + rate) == 10_000_000_000 * net + 1_000_000 * (net * rate);
  }

  /** With a percentage discount a third rounding joins in. */
  lemma DiscountIsClose(l: Line)
    requires 0 <= l.taxRate && 0 <= l.discountPercent <= 10_000 && l.discount <= 0
    requires Apply(l).Some?
    ensures var exact := l.quantity * l.price * (10_000 - l.discountPercent) * (10_000 + l.taxRate);
            var bound := (500_000 + 50 * (10_000 - l.discountPercent)) * (10_000 + l.taxRate) + 5_000_000_000;
            -bound <= 10_000_000_000 * Apply(l).value.total - exact <= bound
  {
    var qp, percent, keep := l.quantity * l.price, l.discountPercent, 10_000 - l.discountPercent;
    var net, tax := Apply(l).value.net, Apply(l).value.tax;
    HalfUpNear(qp, 100);
    HalfUpNear(Extended(l) * percent, 10_000);
    HalfUpNear(net * l.taxRate, 10_000);
    NetFromExtended(qp, Extended(l), percent, DiscountOf(l));
    GrossFromNet(net, tax, qp * keep, 500_000 + 50 * keep, l.taxRate);
  }

  lemma HalfUpBelow(x: int, m: nat)
    requires 0 < m
    ensures HalfUp(x, 100) < m <==> x < 100 * m - 50
  {
    if x >= 0 {
      DivBounds(x + 50, 100);
    }
  }

  /** A discount in money goes before one in percent: it is refused when it exceeds the extended amount, and
      comes off it to the cent otherwise, so two roundings remain. */
  lemma AmountDiscountIsClose(l: Line)
    requires 0 <= l.taxRate && 0 < l.discount
    ensures Apply(l).None? <==> l.quantity * l.price < 100 * l.discount - 50
    ensures Apply(l).Some? ==>
              var exact := (l.quantity * l.price - 100 * l.discount) * (10_000 + l.taxRate);
              var bound := 50 * (20_000 + l.taxRate);
              -bound <= 1_000_000 * Apply(l).value.total - exact <= bound
  {
    var qp, rate := l.quantity * l.price, l.taxRate;
    HalfUpBelow(qp, l.discount);
    if Apply(l).Some? {
      var net, tax := Apply(l).value.net, Apply(l).value.tax;
      HalfUpNear(qp, 100);
      HalfUpNear(net * rate, 10_000);
      Scale(100 * net, qp - 100 * l.discount, 50, 10_000 + rate);
      Split(net, tax, qp - 100 * l.discount, rate);
    }
  }

  /** Net and tax make the total, in the service and in the migration. */
  lemma TotalIsNetAndTax(l: Line)
    ensures Backfilled(l).total == Backfilled(l).net + Backfilled(l).tax
    ensures Apply(l).Some? ==> Apply(l).value.total == Apply(l).value.net + Apply(l).value.tax
  {
  }

  // ---- tax debit note items ----

  /** The UPDATE that split `quantity * unit_price` into a discount and a net, each rounded by itself. */
  function NoteDiscount(qp: int, percent: int): int {
    HalfUp(qp * percent, 1_000_000)
  }

  function NoteNet(qp: int, percent: int): int {
    HalfUp(qp * (10_000 - percent), 1_000_000)
  }

  /** Together they are within a cent of quantity times price. */
  lemma NoteSplitIsClose(qp: int, percent: int)
    ensures -100 <= 100 * (NoteDiscount(qp, percent) + NoteNet(qp, percent)) - qp <= 100
  {
    HalfUpNear(qp * percent, 1_000_000);
    HalfUpNear(qp * (10_000 - percent), 1_000_000);
    assert qp * percent + qp * (10_000 - percent) == 10_000 * qp;
  }

  lemma RoundUpAt(x: int, d: nat)
    requires 0 < d && d % 2 == 0 && 0 <= x
    ensures HalfUp(x, d) == x / d + if x % d >= d / 2 then 1 else 0
  {
    assert x == d * (x / d) + x % d;
    if x % d >= d / 2 {
      assert d * (x / d + 1) == d * (x / d) + d;
      DivIs(x + d / 2, d, x / d + 1);
    } else {
      DivIs(x + d / 2, d, x / d);
    }
  }

  /** For an amount in whole cents they add up to it, unless the discount falls on exactly half a cent:
      then both round up and the item is a cent too dear. */
  lemma NoteSplitOfCents(cents: nat, percent: int)
    requires 0 <= percent <= 10_000
    ensures NoteDiscount(100 * cents, percent) + NoteNet(100 * cents, percent)
         == cents + if (cents * percent) % 10_000 == 5_000 then 1 else 0
  {
    var x, d := 100 * cents * percent, 1_000_000;
    var y := 100 * cents * (10_000 - percent);
    assert x == 100 * (cents * percent) && y == d * cents - x;
    assert 0 <= cents * percent && 0 <= cents * (10_000 - percent);
    Complement(x, y, d, cents);
    RoundUpAt(x, d);
    RoundUpAt(y, d);
    HundredTimes(cents * percent);
  }

  lemma HundredTimes(z: nat)
    ensures (100 * z) % 1_000_000 == 100 * (z % 10_000)
  {
  }

  /** Quotients and remainders of two parts of a multiple. */
  lemma Complement(x: int, y: int, d: nat, m: int)
    requires 0 < d && x + y == d * m
    ensures if x % d == 0 then y % d == 0 && x / d + y / d == m
            else y % d == d - x % d && x / d + y / d == m - 1
  {
    var q, r := x / d, x % d;
    assert x == d * q + r;
    if r == 0 {
      assert y == d * (m - q);
      DivIs(y, d, m - q);
    } else {
      assert d * (m - q - 1) == d * m - d * q - d;
      DivIs(y, d, m - q - 1);
    }
  }
}
