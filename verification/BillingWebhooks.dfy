/**
 Payment webhooks against the stored subscriptions and invoices.

 Any call to the database may fail transiently; `Faults` says which ones do. The provider's name is fixed,
 so a webhook is identified by its event id. Of several open invoices issued at the same instant the one
 with the largest id counts as the latest.
 */
module BillingWebhooks {
  import opened Wrappers
  import Orders

  type SubId = int
  type InvoiceId = int
  type UserId = int

  datatype SubStatus = Trialing | Active | PastDue | Canceled | Expired {
    predicate Usable() { this != Canceled && this != Expired }
  }

  datatype Subscription = Subscription(user: UserId, status: SubStatus, providerRef: Option<string>)

  datatype InvoiceStatus = Open | Paid | Void

  datatype Invoice = Invoice(subscription: Option<SubId>, status: InvoiceStatus, providerRef: Option<string>,
                             issuedAt: int, paidAt: Option<int>)

  datatype Event = Event(id: string, kind: string, providerRef: string, invoiceRef: string, paidAt: int)

  /** Which calls fail: recording the event, the two lookups and the two writes, and undoing the record. */
  datatype Faults = Faults(record: bool, getSub: bool, setStatus: bool, getInvoice: bool, pay: bool, undo: bool)

  datatype Answer = Invalid | Duplicate | Applied | Failed

  datatype Db = Db(subs: map<SubId, Subscription>, invoices: map<InvoiceId, Invoice>, seen: set<string>)

  predicate IsPayment(e: Event) { e.kind == "checkout.completed" || e.kind == "invoice.paid" }

  predicate IsCancellation(e: Event) { e.kind == "subscription.canceled" }

  /** The characters strings.TrimSpace removes, as far as ASCII goes. */
  predicate Blank(s: string) {
    forall i :: 0 <= i < |s| ==> s[i] in " \t\n\r" || s[i] == '\U{B}' || s[i] == '\U{C}'
  }

  predicate SameRef(a: Option<string>, b: Option<string>) {
    a.Some? && a == b
  }

  /** The unique indexes on the provider references (migrations/0009_billing.sql:46-47,61-62). */
  ghost predicate UniqueRefs(db: Db) {
    (forall a, b :: a in db.subs && b in db.subs && SameRef(db.subs[a].providerRef, db.subs[b].providerRef) ==> a == b) &&
    (forall a, b :: a in db.invoices && b in db.invoices && SameRef(db.invoices[a].providerRef, db.invoices[b].providerRef)
      ==> a == b)
  }

  predicate HasSub(db: Db, s: SubId, ref: string) {
    s in db.subs && db.subs[s].providerRef == Some(ref)
  }

  predicate HasInvoice(invoices: map<InvoiceId, Invoice>, i: InvoiceId, ref: string) {
    i in invoices && invoices[i].providerRef == Some(ref)
  }

  ghost function SubByRef(db: Db, ref: string): (r: Option<SubId>)
    ensures r.Some? ==> HasSub(db, r.value, ref)
    ensures r.None? ==> forall s :: !HasSub(db, s, ref)
  {
    if s :| HasSub(db, s, ref) then Some(s) else None
  }

  ghost function InvoiceByRef(invoices: map<InvoiceId, Invoice>, ref: string): (r: Option<InvoiceId>)
    ensures r.Some? ==> HasInvoice(invoices, r.value, ref)
    ensures r.None? ==> forall i :: !HasInvoice(invoices, i, ref)
  {
    if i :| HasInvoice(invoices, i, ref) then Some(i) else None
  }

  predicate OpenFor(invoices: map<InvoiceId, Invoice>, s: SubId, i: InvoiceId) {
    i in invoices && invoices[i].status == Open && invoices[i].subscription == Some(s)
  }

  predicate IssuedBefore(invoices: map<InvoiceId, Invoice>, i: InvoiceId, j: InvoiceId)
    requires i in invoices && j in invoices
  {
    invoices[i].issuedAt < invoices[j].issuedAt || (invoices[i].issuedAt == invoices[j].issuedAt && i < j)
  }

  ghost predicate IsLatestOpen(invoices: map<InvoiceId, Invoice>, s: SubId, i: InvoiceId) {
    OpenFor(invoices, s, i) && forall j :: OpenFor(invoices, s, j) && j != i ==> IssuedBefore(invoices, j, i)
  }

  ghost function LatestOpen(invoices: map<InvoiceId, Invoice>, s: SubId): (r: Option<InvoiceId>)
    ensures r.Some? ==> IsLatestOpen(invoices, s, r.value)
    ensures r.None? ==> forall i :: !IsLatestOpen(invoices, s, i)
  {
    if i :| IsLatestOpen(invoices, s, i) then Some(i) else None
  }

  /** A subscription with an open invoice has a latest one. */
  lemma LatestOpenExists(invoices: map<InvoiceId, Invoice>, s: SubId, x: InvoiceId)
    requires OpenFor(invoices, s, x)
    ensures LatestOpen(invoices, s).Some?
  {
    var open := set i | i in invoices && OpenFor(invoices, s, i);
    assert x in open;
    Orders.LeastExists(open, map i | i in invoices :: -invoices[i].issuedAt);
    var last :| last in open && forall i :: i in open ==> -invoices[last].issuedAt <= -invoices[i].issuedAt;
    var tied := set i | i in open && invoices[i].issuedAt == invoices[last].issuedAt;
    assert last in tied;
    Orders.LeastExists(tied, map i | i in invoices :: -i);
    var best :| best in tied && forall i :: i in tied ==> -best <= -i;
    forall j | OpenFor(invoices, s, j) && j != best ensures IssuedBefore(invoices, j, best) {
      assert j in open;
      if j in tied {}
    }
    assert IsLatestOpen(invoices, s, best);
  }

  function WithStatus(db: Db, s: SubId, status: SubStatus): Db
    requires s in db.subs
  {
    db.(subs := db.subs[s := db.subs[s].(status := status)])
  }

  function WithPaid(db: Db, i: InvoiceId, at: int): Db
    requires i in db.invoices
  {
    db.(invoices := db.invoices[i := db.invoices[i].(status := Paid, paidAt := Some(at))])
  }

  /** The subscription a payment or cancellation names, if it names one that exists. */
  ghost function NamedSub(db: Db, e: Event): (r: Option<SubId>)
    ensures r.Some? ==> e.providerRef != "" && HasSub(db, r.value, e.providerRef)
  {
    if e.providerRef != "" then SubByRef(db, e.providerRef) else None
  }

  predicate Wakes(status: SubStatus) {
    status.Usable() && status != Active
  }

  /** The first half of a payment: a usable subscription becomes active. None when a call failed. */
  ghost function Activated(db: Db, e: Event, f: Faults): Option<Db> {
    if e.providerRef != "" && f.getSub then None
    else
      var s := NamedSub(db, e);
      if s.Some? && Wakes(db.subs[s.value].status)
      then (if f.setStatus then None else Some(WithStatus(db, s.value, Active)))
      else Some(db)
  }

  /** The invoice a payment settles: the one it names, or else the latest open one of its subscription. */
  ghost function Settles(db: Db, e: Event): (i: Option<InvoiceId>)
    ensures i.Some? ==> i.value in db.invoices && db.invoices[i.value].status != Paid
  {
    if e.invoiceRef != "" then
      var i := InvoiceByRef(db.invoices, e.invoiceRef);
      if i.Some? && db.invoices[i.value].status != Paid then i else None
    else
      var s := NamedSub(db, e);
      if s.Some? then LatestOpen(db.invoices, s.value) else None
  }

  /** The second half of a payment. None when a call failed. */
  ghost function Settled(db: Db, e: Event, f: Faults): Option<Db> {
    if (e.invoiceRef != "" || NamedSub(db, e).Some?) && f.getInvoice then None
    else
      var i := Settles(db, e);
      if i.None? then Some(db)
      else if f.pay then None
      else Some(WithPaid(db, i.value, e.paidAt))
  }

  ghost function Ended(db: Db, e: Event, f: Faults): Option<Db> {
    if e.providerRef != "" && f.getSub then None
    else
      var s := NamedSub(db, e);
      if s.None? then Some(db) else if f.setStatus then None else Some(WithStatus(db, s.value, Canceled))
  }

  /** The rows after applyWebhook, and whether it succeeded; a failed payment may already have activated. */
  ghost function AfterApply(db: Db, e: Event, f: Faults): (Db, bool) {
    if IsPayment(e) then
      match Activated(db, e, f)
      case None => (db, false)
      case Some(active) =>
        var paid := Settled(active, e, f);
        if paid.Some? then (paid.value, true) else (active, false)
    else if IsCancellation(e) then
      var ended := Ended(db, e, f);
      if ended.Some? then (ended.value, true) else (db, false)
    else (db, true)
  }

  /** One delivery of a webhook. */
  ghost function Deliver(db: Db, e: Event, f: Faults): (Db, Answer) {
    if Blank(e.id) || Blank(e.kind) then (db, Invalid)
    else if f.record then (db, Failed)
    else if e.id in db.seen then (db, Duplicate)
    else
      var (after, ok) := AfterApply(db, e, f);
      if ok then (after.(seen := db.seen + {e.id}), Applied)
      else (after.(seen := if f.undo then db.seen + {e.id} else db.seen), Failed)
  }

  class Service {
    var subs: map<SubId, Subscription>
    var invoices: map<InvoiceId, Invoice>
    var seen: set<string>

    function Rows(): Db
      reads this
    {
      Db(subs, invoices, seen)
    }

    constructor (subs: map<SubId, Subscription>, invoices: map<InvoiceId, Invoice>)
      ensures Rows() == Db(subs, invoices, {})
    {
      this.subs, this.invoices, seen := subs, invoices, {};
    }

    method GetSubscriptionByProviderRef(ref: string) returns (s: Option<SubId>)
      requires UniqueRefs(Rows())
      ensures s == SubByRef(Rows(), ref)
    {
      if x :| x in subs && subs[x].providerRef == Some(ref) {
        assert HasSub(Rows(), x, ref);
        return Some(x);
      }
      assert forall x :: !HasSub(Rows(), x, ref);
      return None;
    }

    method GetInvoiceByProviderRef(ref: string) returns (i: Option<InvoiceId>)
      requires UniqueRefs(Rows())
      ensures i == InvoiceByRef(invoices, ref)
    {
      if x :| x in invoices && invoices[x].providerRef == Some(ref) {
        assert HasInvoice(invoices, x, ref);
        return Some(x);
      }
      assert forall x :: !HasInvoice(invoices, x, ref);
      return None;
    }

    method GetLatestOpenInvoice(s: SubId) returns (i: Option<InvoiceId>)
      ensures i == LatestOpen(invoices, s)
    {
      if x :| x in invoices && OpenFor(invoices, s, x)
              && forall j :: j in invoices && OpenFor(invoices, s, j) && j != x ==> IssuedBefore(invoices, j, x) {
        assert IsLatestOpen(invoices, s, x);
        return Some(x);
      }
      assert forall x :: !IsLatestOpen(invoices, s, x);
      return None;
    }

    /** applyWebhook; `ok` is false when a database call failed. */
    method ApplyWebhook(e: Event, f: Faults) returns (ok: bool)
      requires UniqueRefs(Rows())
      modifies this
      ensures (Rows(), ok) == AfterApply(old(Rows()), e, f)
    {
      if IsPayment(e) {
        var sub: Option<SubId> := None;
        if e.providerRef != "" {
          if f.getSub { return false; }
          sub := GetSubscriptionByProviderRef(e.providerRef);
        }
        if sub.Some? && subs[sub.value].status.Usable() && subs[sub.value].status != Active {
          if f.setStatus { return false; }
          subs := subs[sub.value := subs[sub.value].(status := Active)];
        }
        assert sub.Some? ==> HasSub(Rows(), sub.value, e.providerRef);
        ok := PayInvoice(e, sub, f);
      } else if IsCancellation(e) {
        if e.providerRef == "" { return true; }
        if f.getSub { return false; }
        var sub := GetSubscriptionByProviderRef(e.providerRef);
        if sub.None? { return true; }
        if f.setStatus { return false; }
        subs := subs[sub.value := subs[sub.value].(status := Canceled)];
        ok := true;
      } else {
        ok := true;
      }
    }

    /** The rest of a payment, once the subscription it names is known. */
    method PayInvoice(e: Event, sub: Option<SubId>, f: Faults) returns (ok: bool)
      requires UniqueRefs(Rows()) && sub == NamedSub(Rows(), e)
      modifies this
      ensures ok == Settled(old(Rows()), e, f).Some?
      ensures Rows() == if ok then Settled(old(Rows()), e, f).value else old(Rows())
    {
      if e.invoiceRef != "" {
        if f.getInvoice { return false; }
        var invoice := GetInvoiceByProviderRef(e.invoiceRef);
        if invoice.None? { return true; }
        if invoices[invoice.value].status != Paid {
          if f.pay { return false; }
          invoices := invoices[invoice.value := invoices[invoice.value].(status := Paid, paidAt := Some(e.paidAt))];
        }
        return true;
      }
      if sub.Some? {
        if f.getInvoice { return false; }
        var invoice := GetLatestOpenInvoice(sub.value);
        if invoice.None? { return true; }
        if f.pay { return false; }
        invoices := invoices[invoice.value := invoices[invoice.value].(status := Paid, paidAt := Some(e.paidAt))];
      }
      return true;
    }

    /** HandleWebhook: the record of the event is undone when applying it failed, so that it can be retried. */
    method HandleWebhook(e: Event, f: Faults) returns (answer: Answer)
      requires UniqueRefs(Rows())
      modifies this
      ensures (Rows(), answer) == Deliver(old(Rows()), e, f)
    {
      if Blank(e.id) || Blank(e.kind) { return Invalid; }
      if f.record { return Failed; }
      if e.id in seen { return Duplicate; }
      ghost var before := Rows();
      var ok := ApplyWebhook(e, f);
      ApplyIgnoresSeen(before, e, f);
      seen := seen + {e.id};
      if !ok {
        if !f.undo {
          seen := seen - {e.id};
        }
        assert seen == if f.undo then before.seen + {e.id} else before.seen;
        return Failed;
      }
      return Applied;
    }
  }

  /** Applying a webhook neither reads nor writes the record of handled events. */
  lemma ApplyIgnoresSeen(db: Db, e: Event, f: Faults)
    ensures AfterApply(db, e, f).0.seen == db.seen
  {
  }
}
