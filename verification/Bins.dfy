/** Which bin a document line is written against. */
module Bins {
  import opened Levels
  import opened Tables

  /** The bins of a workspace, and whether they are active.  Codes stand in their sort order. */
  type Yard = map<Bin, bool>

  function Active(yard: Yard, warehouse: nat): set<Bin> {
    set b | b in yard && yard[b] && b.warehouse == warehouse
  }

  function BinRefusal(yard: Yard, warehouse: nat, wanted: Option<Bin>): Option<Error> {
    if wanted.None? then if Active(yard, warehouse) == {} then Some(NoBin) else None
    else if wanted.value !in yard || wanted.value.warehouse != warehouse then Some(NotFound)
    else if !yard[wanted.value] then Some(BinInactive)
    else None
  }

  /** The bin that was asked for, or else the active bin of the warehouse that comes first. */
  ghost predicate Resolved(yard: Yard, warehouse: nat, wanted: Option<Bin>, bin: Bin) {
    && bin in Active(yard, warehouse)
    && if wanted.Some? then bin == wanted.value else forall b <- Active(yard, warehouse) :: bin.code <= b.code
  }

  /** A line that is not refused has exactly one bin, and a refused one has none. */
  lemma ResolvedOnce(yard: Yard, warehouse: nat, wanted: Option<Bin>)
    ensures BinRefusal(yard, warehouse, wanted) == None <==> exists bin :: Resolved(yard, warehouse, wanted, bin)
    ensures forall a, b | Resolved(yard, warehouse, wanted, a) && Resolved(yard, warehouse, wanted, b) :: a == b
  {
    if BinRefusal(yard, warehouse, wanted) == None {
      if wanted.Some? {
        assert Resolved(yard, warehouse, wanted, wanted.value);
      } else {
        var bin := FirstOf(Active(yard, warehouse));
        assert Resolved(yard, warehouse, wanted, bin);
      }
    }
  }

  /** A bin that was found is an active bin of the warehouse; and what each refusal means. */
  lemma ResolvedIsActive(yard: Yard, warehouse: nat, wanted: Option<Bin>)
    ensures forall bin | Resolved(yard, warehouse, wanted, bin) ::
              && bin in yard && yard[bin] && bin.warehouse == warehouse
              && (wanted.Some? ==> bin == wanted.value)
              && (wanted.None? ==> forall b <- yard | yard[b] && b.warehouse == warehouse :: bin.code <= b.code)
    ensures wanted.Some? ==>
              && (BinRefusal(yard, warehouse, wanted) == Some(NotFound)
                  <==> wanted.value !in yard || wanted.value.warehouse != warehouse)
              && (BinRefusal(yard, warehouse, wanted) == Some(BinInactive)
                  <==> wanted.value in yard && wanted.value.warehouse == warehouse && !yard[wanted.value])
    ensures wanted.None? ==>
              (BinRefusal(yard, warehouse, wanted) == Some(NoBin)
               <==> forall b <- yard | b.warehouse == warehouse :: !yard[b])
  {
    if wanted.None? {
      if forall b <- yard | b.warehouse == warehouse :: !yard[b] {
        assert Active(yard, warehouse) == {};
      } else {
        var b :| b in yard && b.warehouse == warehouse && yard[b];
        assert b in Active(yard, warehouse);
      }
    }
    forall bin | Resolved(yard, warehouse, wanted, bin) && wanted.None?
      ensures forall b <- yard | yard[b] && b.warehouse == warehouse :: bin.code <= b.code
    {
      assert forall b <- yard | yard[b] && b.warehouse == warehouse :: b in Active(yard, warehouse);
    }
  }

  lemma FirstOf(bins: set<Bin>) returns (first: Bin)
    requires bins != {}
    ensures first in bins && forall b <- bins :: first.code <= b.code
    decreases bins
  {
    first :| first in bins;
    var rest := bins - {first};
    assert bins == rest + {first};
    if rest != {} {
      var other := FirstOf(rest);
      if other.code < first.code {
        first := other;
      }
    }
  }

  method ResolveBin(yard: Yard, warehouse: nat, wanted: Option<Bin>) returns (r: Option<Error>, bin: Bin)
    ensures r == BinRefusal(yard, warehouse, wanted)
    ensures r.None? ==> Resolved(yard, warehouse, wanted, bin)
  {
    bin := Bin(warehouse, 0);
    if wanted.Some? {
      if wanted.value !in yard || wanted.value.warehouse != warehouse { return Some(NotFound), bin; }
      if !yard[wanted.value] { return Some(BinInactive), bin; }
      return None, wanted.value;
    }
    var rest := Active(yard, warehouse);
    if rest == {} { return Some(NoBin), bin; }
    bin :| bin in rest;
    ghost var all := rest;
    rest := rest - {bin};
    while rest != {}
      invariant rest <= all && bin in all && forall b <- all - rest :: bin.code <= b.code
      decreases rest
    {
      var b :| b in rest;
      if b.code < bin.code {
        bin := b;
      }
      rest := rest - {b};
    }
    r := None;
  }
}
