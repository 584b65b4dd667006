/** Rounding to the two decimals of a Numeric column.  Amounts and quantities are given in hundredths. */
module Rounding {
  type Amount = x: real | 0.0 < x witness 1.0
  type Tally = x: real | 0.0 <= x

  /** ROUND_HALF_UP of an amount that is not negative. */
  function Cents(x: real): int {
    (x + 0.5).Floor
  }

  /** What a column stores: the nearest hundredth, ties away from zero. */
  function Nearest(x: real): int {
    if x < 0.0 then -Cents(-x) else Cents(x)
  }

  predicate EndsInHalf(x: real) {
    x - x.Floor as real == 0.5
  }

  predicate IsWhole(x: real) {
    x == x.Floor as real
  }

  lemma FloorIs(x: real, n: int)
    requires n as real <= x < n as real + 1.0
    ensures x.Floor == n
  {
  }

  lemma CentsOf(x: real)
    ensures Cents(x) == x.Floor + if x - x.Floor as real >= 0.5 then 1 else 0
  {
    FloorIs(x + 0.5, x.Floor + if x - x.Floor as real >= 0.5 then 1 else 0);
  }

  lemma HalfIs(x: real)
    ensures EndsInHalf(x) <==> x + 0.5 == Cents(x) as real
  {
    CentsOf(x);
    if EndsInHalf(x) {
      assert Cents(x) == x.Floor + 1;
      assert x + 0.5 == Cents(x) as real;
    }
    if x + 0.5 == Cents(x) as real {
      assert x - x.Floor as real == 0.5;
    }
  }

  lemma CentsAbove(n: int, x: real)
    ensures Cents(n as real + x) == n + Cents(x)
  {
    CentsOf(x);
    FloorIs(n as real + x + 0.5, n + Cents(x));
  }

  /** Rounding an amount on one side and the rest of a whole balance on the other gives a cent too
      much exactly when the amount ends in half a cent. */
  lemma RoundedTwice(n: int, x: real)
    ensures Cents(n as real - x) + Cents(x) == n + if EndsInHalf(x) then 1 else 0
  {
    CentsOf(x);
    FloorIs(n as real - x + 0.5, n - Cents(x) + if EndsInHalf(x) then 1 else 0);
  }

  lemma WholeCents(n: int)
    ensures Cents(n as real) == n && !EndsInHalf(n as real)
  {
  }

  lemma NearestWhole(n: int)
    ensures Nearest(n as real) == n
  {
    WholeCents(n);
    WholeCents(-n);
  }

  lemma CentsFit(x: real, n: int)
    requires 0.0 <= x <= n as real
    ensures 0 <= Cents(x) <= n
  {
  }

  lemma HalfNegated(x: real)
    ensures EndsInHalf(-x) <==> EndsInHalf(x)
  {
    if EndsInHalf(x) {
      FloorIs(-x, -x.Floor - 1);
    } else if EndsInHalf(-x) {
      FloorIs(x, -(-x).Floor - 1);
    }
  }

  /** A whole column takes a single change as its own rounding does, except that a decrease ending in
      half a hundredth leaves it one hundredth higher. */
  lemma OneChange(n: nat, x: real)
    requires 0.0 <= n as real + x
    ensures Nearest(n as real + x) == n + Nearest(x) + if x < 0.0 && EndsInHalf(x) then 1 else 0
  {
    if x < 0.0 {
      RoundedTwice(n, -x);
      HalfNegated(x);
    } else {
      CentsAbove(n, x);
    }
  }
}
