/** Quotations: expiry on read, acceptance, and the two conversions that exclude each other. */
module Quotations {
  import opened Levels

  datatype Status = DRAFT | SENT | ACCEPTED | REJECTED | EXPIRED | CONVERTED

  datatype Document = Document(id: nat, deleted: bool)

  datatype Quote = Quote(status: Status, validUntil: int, invoice: Option<Document>, lpo: Option<Document>)

  /** `freshId` is the id the database hands to a document created by the request. */
  datatype Request = Send(hasLines: bool) | Read(today: int) | Accept(today: int) | Reject(today: int)
                   | ToInvoice(today: int, freshId: nat) | ToLpo(today: int, freshId: nat)
                   | DeleteInvoice | DeleteLpo

  datatype Answer = Ok | Forbidden | Conflict | Made(id: nat) | Again(id: nat)

  function Expired(q: Quote, today: int): Quote {
    if q.status == SENT && q.validUntil < today then q.(status := EXPIRED) else q
  }

  function Deleted(d: Option<Document>): Option<Document> {
    if d.Some? then Some(d.value.(deleted := true)) else None
  }

  /** Expiry is committed before the action is judged, so it stays even when the action is refused. */
  function Serve(q: Quote, r: Request): (Answer, Quote) {
    match r
    case Send(hasLines) =>
      if q.status == DRAFT && hasLines then (Ok, q.(status := SENT)) else (Forbidden, q)
    case Read(today) => (Ok, Expired(q, today))
    case Accept(today) =>
      var e := Expired(q, today);
      if e.status == SENT then (Ok, e.(status := ACCEPTED)) else (Forbidden, e)
    case Reject(today) =>
      var e := Expired(q, today);
      if e.status == SENT then (Ok, e.(status := REJECTED)) else (Forbidden, e)
    case ToInvoice(today, id) =>
      var e := Expired(q, today);
      if e.status == CONVERTED then
        if e.lpo.Some? then (Conflict, e)
        else if e.invoice.None? || e.invoice.value.deleted then (Conflict, e)
        else (Again(e.invoice.value.id), e)
      else if e.status != ACCEPTED then (Forbidden, e)
      else (Made(id), e.(status := CONVERTED, invoice := Some(Document(id, false))))
    case ToLpo(today, id) =>
      var e := Expired(q, today);
      if e.status == CONVERTED then
        if e.lpo.Some? && !e.lpo.value.deleted then (Again(e.lpo.value.id), e) else (Conflict, e)
      else if e.status != ACCEPTED then (Forbidden, e)
      else (Made(id), e.(status := CONVERTED, lpo := Some(Document(id, false))))
    case DeleteInvoice => (Ok, q.(invoice := Deleted(q.invoice)))
    case DeleteLpo => (Ok, q.(lpo := Deleted(q.lpo)))
  }

  /** A document exists exactly when the quotation is CONVERTED, and never two. */
  predicate Exclusive(q: Quote) {
    && (q.status == CONVERTED <==> q.invoice.Some? || q.lpo.Some?)
    && (q.invoice.None? || q.lpo.None?)
  }

  function ServeAll(q: Quote, rs: seq<Request>): Quote
    decreases |rs|
  {
    if rs == [] then q else ServeAll(Serve(q, rs[0]).1, rs[1..])
  }

  /** A run serves its requests one after the other. */
  lemma {:induction false} OneMore(q: Quote, rs: seq<Request>, r: Request)
    ensures ServeAll(q, []) == q && ServeAll(q, rs + [r]) == Serve(ServeAll(q, rs), r).1
    decreases |rs|
  {
    if rs != [] {
      assert (rs + [r])[0] == rs[0] && (rs + [r])[1..] == rs[1..] + [r];
      OneMore(Serve(q, rs[0]).1, rs[1..], r);
    } else {
      assert [r][1..] == [] && ServeAll(Serve(q, r).1, []) == Serve(q, r).1;
    }
  }

  /** Final statuses are final, and a document, once there, is never replaced or brought back. */
  predicate Keeps(q: Quote, q': Quote) {
    && (q.status in {REJECTED, EXPIRED, CONVERTED} ==> q'.status == q.status)
    && SameDocument(q.invoice, q'.invoice) && SameDocument(q.lpo, q'.lpo)
    && (q.status in {REJECTED, EXPIRED} ==> q'.invoice == q.invoice && q'.lpo == q.lpo)
  }

  predicate SameDocument(d: Option<Document>, d': Option<Document>) {
    d.Some? ==> d'.Some? && d'.value.id == d.value.id && (d.value.deleted ==> d'.value.deleted)
  }

  lemma ServeKeeps(q: Quote, r: Request)
    requires Exclusive(q)
    ensures Exclusive(Serve(q, r).1) && Keeps(q, Serve(q, r).1)
  {
  }

  lemma {:induction false} RunKeeps(q: Quote, rs: seq<Request>)
    requires Exclusive(q)
    ensures Exclusive(ServeAll(q, rs)) && Keeps(q, ServeAll(q, rs))
    decreases |rs|
  {
    if rs != [] {
      ServeKeeps(q, rs[0]);
      RunKeeps(Serve(q, rs[0]).1, rs[1..]);
    }
  }

  predicate Converts(r: Request) {
    r.ToInvoice? || r.ToLpo?
  }

  /** Once a conversion has made a document, whatever happens next no conversion makes another: the
      same conversion returns the same document as long as it is not deleted, the other one is
      refused for good. */
  lemma {:induction false} OneDocumentForGood(q: Quote, r: Request, rs: seq<Request>, again: Request)
    requires Exclusive(q) && Converts(r) && Serve(q, r).0.Made? && Converts(again)
    ensures var made := Serve(q, r).0.id;
            var later := ServeAll(Serve(q, r).1, rs);
            var kept := if r.ToInvoice? then later.invoice else later.lpo;
            && kept.Some? && kept.value.id == made
            && Serve(later, again).0
            == if again.ToInvoice? == r.ToInvoice? && !kept.value.deleted then Again(made) else Conflict
  {
    ServeKeeps(q, r);
    RunKeeps(Serve(q, r).1, rs);
  }

  /** A quotation that was rejected, or seen past its date while SENT, never converts. */
  lemma {:induction false} LapsedNeverConverts(q: Quote, rs: seq<Request>, r: Request)
    requires Exclusive(q) && q.status in {REJECTED, EXPIRED} && Converts(r)
    ensures Serve(ServeAll(q, rs), r).0 == Forbidden
  {
    RunKeeps(q, rs);
  }

  /** A SENT quotation is good up to and including the day it names; reading it on a later day expires it,
      and no other status ever does. */
  lemma GoodThroughItsDate(q: Quote, today: int)
    ensures Serve(q, Read(today)).1.status == EXPIRED <==> q.status == EXPIRED || (q.status == SENT && q.validUntil < today)
    ensures q.status != SENT || today <= q.validUntil ==> Serve(q, Read(today)) == (Ok, q)
    ensures Serve(q, Accept(today)).0 == Ok <==> q.status == SENT && today <= q.validUntil
    ensures Serve(q, Reject(today)).0 == Ok <==> q.status == SENT && today <= q.validUntil
    ensures Serve(q, Accept(today)).1.status == ACCEPTED <==> q.status == ACCEPTED || (q.status == SENT && today <= q.validUntil)
    ensures Serve(q, Reject(today)).1.status == REJECTED <==> q.status == REJECTED || (q.status == SENT && today <= q.validUntil)
  {
  }

  /** Only a draft with lines is sent, and only an accepted quotation makes a document: the one that was asked
      for, under its new id. */
  lemma ConvertsOnlyAccepted(q: Quote, r: Request)
    ensures r.Send? ==> (Serve(q, r).0 == Ok <==> q.status == DRAFT && r.hasLines)
    ensures r.Send? ==> Serve(q, r).1 == if q.status == DRAFT && r.hasLines then q.(status := SENT) else q
    ensures Serve(q, r).0.Made? <==> Converts(r) && q.status == ACCEPTED
    ensures Converts(r) && q.status in {DRAFT, SENT, REJECTED, EXPIRED} ==> Serve(q, r).0 == Forbidden
    ensures (r.Accept? || r.Reject? || r.Send?) && Serve(q, r).0 != Ok ==> Serve(q, r).0 == Forbidden
    ensures r.ToInvoice? && q.status == ACCEPTED ==>
              Serve(q, r) == (Made(r.freshId), Quote(CONVERTED, q.validUntil, Some(Document(r.freshId, false)), q.lpo))
    ensures r.ToLpo? && q.status == ACCEPTED ==>
              Serve(q, r) == (Made(r.freshId), Quote(CONVERTED, q.validUntil, q.invoice, Some(Document(r.freshId, false))))
    ensures r.DeleteInvoice? ==>
              Serve(q, r).1 == q.(invoice := if q.invoice.None? then None else Some(Document(q.invoice.value.id, true)))
    ensures r.DeleteLpo? ==>
              Serve(q, r).1 == q.(lpo := if q.lpo.None? then None else Some(Document(q.lpo.value.id, true)))
  {
  }

  /** The quotation row and the documents that point at it. */
  class Quotation {
    var status: Status
    const validUntil: int
    var invoice: Option<Document>
    var lpo: Option<Document>

    ghost function View(): Quote
      reads this
    {
      Quote(status, validUntil, invoice, lpo)
    }

    constructor (validUntil: int)
      ensures View() == Quote(DRAFT, validUntil, None, None) && Exclusive(View())
    {
      this.validUntil := validUntil;
      status, invoice, lpo := DRAFT, None, None;
    }

    method ExpireIfDue(today: int)
      modifies `status
      ensures View() == Expired(old(View()), today)
    {
      if status == SENT && validUntil < today {
        status := EXPIRED;
      }
    }

    method Send(hasLines: bool) returns (r: Answer)
      requires Exclusive(View())
      modifies this
      ensures (r, View()) == Serve(old(View()), Request.Send(hasLines)) && Exclusive(View())
    {
      if status != DRAFT || !hasLines { return Forbidden; }
      status := SENT;
      return Ok;
    }

    method Decide(accept: bool, today: int) returns (r: Answer)
      requires Exclusive(View())
      modifies this
      ensures (r, View()) == Serve(old(View()), if accept then Accept(today) else Reject(today))
      ensures Exclusive(View())
    {
      ExpireIfDue(today);
      if status != SENT { return Forbidden; }
      status := if accept then ACCEPTED else REJECTED;
      return Ok;
    }

    method ConvertToInvoice(today: int, freshId: nat) returns (r: Answer)
      requires Exclusive(View())
      modifies this
      ensures (r, View()) == Serve(old(View()), ToInvoice(today, freshId)) && Exclusive(View())
    {
      ExpireIfDue(today);
      if status == CONVERTED {
        if lpo.Some? { return Conflict; }
        if invoice.None? || invoice.value.deleted { return Conflict; }
        return Again(invoice.value.id);
      }
      if status != ACCEPTED { return Forbidden; }
      invoice := Some(Document(freshId, false));
      status := CONVERTED;
      return Made(freshId);
    }

    method ConvertToLpo(today: int, freshId: nat) returns (r: Answer)
      requires Exclusive(View())
      modifies this
      ensures (r, View()) == Serve(old(View()), ToLpo(today, freshId)) && Exclusive(View())
    {
      ExpireIfDue(today);
      if status == CONVERTED {
        if lpo.Some? && !lpo.value.deleted { return Again(lpo.value.id); }
        return Conflict;
      }
      if status != ACCEPTED { return Forbidden; }
      lpo := Some(Document(freshId, false));
      status := CONVERTED;
      return Made(freshId);
    }
  }
}
