/** Inventory level rows, and the movements documents post against them.

    Quantities are Numeric(12,2) columns, held here as whole hundredths.  A bin
    belongs to one warehouse, so (product, bin) identifies a level row. */
module Levels {
  type Positive = q: int | 0 < q witness 1

  datatype Option<+T> = None | Some(value: T)

  function Min(a: int, b: int): int {
    if a < b then a else b
  }

  function Max(a: int, b: int): int {
    if a < b then b else a
  }

  datatype Bin = Bin(warehouse: nat, code: nat)
  datatype Key = Key(product: nat, bin: Bin)
  datatype Level = Level(onHand: int, reserved: int, damaged: int, inTransit: int)

  type Table = map<Key, Level>

  const NOTHING := Level(0, 0, 0, 0)

  /** A missing row reads as the all-zero row that `lock_or_create_level` would insert. */
  function Get(levels: Table, k: Key): Level {
    if k in levels then levels[k] else NOTHING
  }

  /** What may still be reserved or shipped; it may be negative. */
  function Available(levels: Table, k: Key): int {
    Get(levels, k).onHand - Get(levels, k).reserved - Get(levels, k).damaged
  }

  /** One document line's claim on one level. */
  datatype Entry = Entry(key: Key, amount: int)

  /** What a sum ranges over: one level row, or every level row of a product. */
  datatype Scope = One(key: Key) | All(product: nat)

  predicate Within(k: Key, sc: Scope) {
    sc == One(k) || sc == All(k.product)
  }

  /** A quantity as it counts when it leaves a level, or when it enters. */
  function Signed(leaving: bool, x: int): int {
    if leaving then -x else x
  }

  function At(e: Entry, sc: Scope): int {
    if Within(e.key, sc) then e.amount else 0
  }

  /** What the first `n` lines of a document claim from the levels in `sc`, however many of them hit it. */
  function SumTo(es: seq<Entry>, n: nat, sc: Scope): int
    requires n <= |es|
  {
    if n == 0 then 0 else SumTo(es, n - 1, sc) + At(es[n - 1], sc)
  }

  function Sum(es: seq<Entry>, sc: Scope): int {
    SumTo(es, |es|, sc)
  }

  lemma {:induction false} SumSame(a: seq<Entry>, b: seq<Entry>, n: nat, sc: Scope)
    requires n <= |a| && n <= |b|
    requires forall i | 0 <= i < n :: a[i] == b[i]
    ensures SumTo(a, n, sc) == SumTo(b, n, sc)
  {
    if n != 0 {
      SumSame(a, b, n - 1, sc);
    }
  }

  lemma {:induction false} SumConcatTo(a: seq<Entry>, b: seq<Entry>, n: nat, sc: Scope)
    requires n <= |b|
    ensures SumTo(a + b, |a| + n, sc) == Sum(a, sc) + SumTo(b, n, sc)
  {
    if n == 0 {
      SumSame(a + b, a, |a|, sc);
    } else {
      SumConcatTo(a, b, n - 1, sc);
      assert (a + b)[|a| + n - 1] == b[n - 1];
    }
  }

  lemma SumConcat(a: seq<Entry>, b: seq<Entry>, sc: Scope)
    ensures Sum(a + b, sc) == Sum(a, sc) + Sum(b, sc)
  {
    SumConcatTo(a, b, |b|, sc);
  }

  /** Splitting every line's claim in two splits the sum. */
  lemma {:induction false} SumSplit(es: seq<Entry>, a: seq<Entry>, b: seq<Entry>, n: nat, sc: Scope)
    requires n <= |es| == |a| == |b|
    requires forall i | 0 <= i < n :: es[i].key == a[i].key == b[i].key && es[i].amount == a[i].amount + b[i].amount
    ensures SumTo(es, n, sc) == SumTo(a, n, sc) + SumTo(b, n, sc)
  {
    if n != 0 {
      SumSplit(es, a, b, n - 1, sc);
    }
  }

  ghost predicate NonNegative(es: seq<Entry>) {
    forall i | 0 <= i < |es| :: 0 <= es[i].amount
  }

  /** A sum of non-negative claims is at least any one of them, and at least any part of it. */
  lemma {:induction false} SumBound(es: seq<Entry>, i: nat, n: nat, sc: Scope)
    requires NonNegative(es)
    requires i <= n <= |es|
    ensures 0 <= SumTo(es, i, sc) <= SumTo(es, n, sc)
    ensures i < n ==> SumTo(es, i, sc) + At(es[i], sc) <= SumTo(es, n, sc)
  {
    if i < n {
      SumBound(es, i, n - 1, sc);
    } else if n != 0 {
      SumBound(es, n - 1, n - 1, sc);
    }
  }

  // ---- the session's level rows after part of a document ----

  ghost predicate OnHandMoved(levels: Table, session: Table, es: seq<Entry>, leaving: bool, n: nat)
    requires n <= |es|
  {
    forall k :: Get(session, k) == Get(levels, k).(
                  onHand := Get(levels, k).onHand + Signed(leaving, SumTo(es, n, One(k))))
  }
}
