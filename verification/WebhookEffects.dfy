/**
 What one webhook does, in the kinds, statuses and references its sender and the stored rows show, whatever may have
 happened before.
 */
module WebhookEffects {
  import opened Wrappers
  import opened BillingWebhooks

  const NO_FAULTS := Faults(false, false, false, false, false, false)

  predicate Names(e: Event, ref: Option<string>) {
    e.providerRef != "" && ref == Some(e.providerRef)
  }

  ghost predicate IsApplied(db: Db, e: Event, f: Faults) {
    UniqueRefs(db) && Deliver(db, e, f).1 == Applied
  }

  ghost predicate SameRows(db: Db, after: Db) {
    after.subs.Keys == db.subs.Keys && after.invoices.Keys == db.invoices.Keys
  }

  /** An applied payment makes the subscription it names active if it was trialing, active or past due; a canceled or expired one, and every other, stays. */
  lemma PaymentActivates(db: Db, e: Event, f: Faults, s: SubId)
    requires IsApplied(db, e, f) && (e.kind == "checkout.completed" || e.kind == "invoice.paid") && s in db.subs
    ensures var after := Deliver(db, e, f).0;
            && SameRows(db, after)
            && after.subs[s].user == db.subs[s].user && after.subs[s].providerRef == db.subs[s].providerRef
            && after.subs[s].status ==
                 if Names(e, db.subs[s].providerRef) && db.subs[s].status in {Trialing, Active, PastDue} then Active else db.subs[s].status
  {
    if Names(e, db.subs[s].providerRef) {
      assert HasSub(db, s, e.providerRef);
    }
  }

  /** An applied payment that names an invoice marks it paid, at the time the event tells, unless it was paid; and no other. */
  lemma PaymentPays(db: Db, e: Event, f: Faults, i: InvoiceId)
    requires IsApplied(db, e, f) && (e.kind == "checkout.completed" || e.kind == "invoice.paid") && e.invoiceRef != "" && i in db.invoices
    ensures var after := Deliver(db, e, f).0;
            && SameRows(db, after)
            && after.invoices[i] ==
                 if db.invoices[i].providerRef == Some(e.invoiceRef) && db.invoices[i].status in {Open, Void}
                 then db.invoices[i].(status := Paid, paidAt := Some(e.paidAt)) else db.invoices[i]
  {
    if db.invoices[i].providerRef == Some(e.invoiceRef) {
      assert HasInvoice(db.invoices, i, e.invoiceRef);
    }
  }

  predicate OpenOf(db: Db, e: Event, s: SubId, i: InvoiceId) {
    s in db.subs && Names(e, db.subs[s].providerRef) && i in db.invoices && db.invoices[i].status == Open && db.invoices[i].subscription == Some(s)
  }

  predicate IssuedLater(db: Db, i: InvoiceId, j: InvoiceId)
    requires i in db.invoices && j in db.invoices
  {
    db.invoices[j].issuedAt < db.invoices[i].issuedAt || (db.invoices[j].issuedAt == db.invoices[i].issuedAt && j < i)
  }

  /** An open invoice of the subscription the event names, issued after every other open one of it (at the same instant, the one with the larger id). */
  ghost predicate PaidAsLatest(db: Db, e: Event, i: InvoiceId) {
    exists s :: OpenOf(db, e, s, i) && forall j :: OpenOf(db, e, s, j) && j != i ==> IssuedLater(db, i, j)
  }

  lemma LatestIs(db: Db, e: Event, i: InvoiceId)
    requires UniqueRefs(db) && e.invoiceRef == ""
    ensures PaidAsLatest(db, e, i) <==> Settles(db, e) == Some(i)
  {
    if PaidAsLatest(db, e, i) {
      var s :| OpenOf(db, e, s, i) && forall j :: OpenOf(db, e, s, j) && j != i ==> IssuedLater(db, i, j);
      assert HasSub(db, s, e.providerRef);
      assert forall j :: OpenFor(db.invoices, s, j) <==> OpenOf(db, e, s, j);
      assert IsLatestOpen(db.invoices, s, i);
    }
    if Settles(db, e) == Some(i) {
      var s := NamedSub(db, e).value;
      assert forall j :: OpenFor(db.invoices, s, j) <==> OpenOf(db, e, s, j);
      assert OpenOf(db, e, s, i);
    }
  }

  lemma ActivatedSettles(db: Db, e: Event, f: Faults)
    requires UniqueRefs(db) && Activated(db, e, f).Some?
    ensures Activated(db, e, f).value.invoices == db.invoices && Settles(Activated(db, e, f).value, e) == Settles(db, e)
  {
    var v := Activated(db, e, f).value;
    assert forall s :: HasSub(v, s, e.providerRef) <==> HasSub(db, s, e.providerRef);
  }

  /** One that names none pays the open invoice of its subscription that was issued last, and no other. */
  lemma PaymentPaysLatest(db: Db, e: Event, f: Faults, i: InvoiceId)
    requires IsApplied(db, e, f) && (e.kind == "checkout.completed" || e.kind == "invoice.paid") && e.invoiceRef == "" && i in db.invoices
    ensures var after := Deliver(db, e, f).0;
            && SameRows(db, after)
            && after.invoices[i] == if PaidAsLatest(db, e, i) then db.invoices[i].(status := Paid, paidAt := Some(e.paidAt)) else db.invoices[i]
  {
    LatestIs(db, e, i);
    ActivatedSettles(db, e, f);
  }

  /** An applied cancellation cancels the subscription it names, whatever its status, and touches nothing else. */
  lemma CancellationCancels(db: Db, e: Event, f: Faults, s: SubId)
    requires IsApplied(db, e, f) && e.kind == "subscription.canceled" && s in db.subs
    ensures var after := Deliver(db, e, f).0;
            && SameRows(db, after) && after.invoices == db.invoices
            && after.subs[s] == if Names(e, db.subs[s].providerRef) then db.subs[s].(status := Canceled) else db.subs[s]
  {
    if Names(e, db.subs[s].providerRef) {
      assert HasSub(db, s, e.providerRef);
    }
  }

  /** Every other kind is acknowledged and recorded, and changes no row. */
  lemma OthersIgnored(db: Db, e: Event, f: Faults)
    requires IsApplied(db, e, f) && e.kind !in {"checkout.completed", "invoice.paid", "subscription.canceled"}
    ensures Deliver(db, e, f).0 == db.(seen := db.seen + {e.id})
  {
  }

  /** The text has a character other than a blank. */
  ghost predicate HasText(s: string) {
    exists i :: 0 <= i < |s| && s[i] !in " \t\n\r\U{B}\U{C}"
  }

  /** How a delivery without faults is answered: by its id and kind and whether the id has been seen. */
  lemma FaultlessAnswer(db: Db, e: Event)
    ensures var (after, answer) := Deliver(db, e, NO_FAULTS);
            if !HasText(e.id) || !HasText(e.kind) then answer == Invalid && after == db
            else if e.id in db.seen then answer == Duplicate && after == db
            else answer == Applied && after.seen == db.seen + {e.id}
  {
    TextIsNotBlank(e.id);
    TextIsNotBlank(e.kind);
    ApplyIgnoresSeen(db, e, NO_FAULTS);
  }

  lemma TextIsNotBlank(s: string)
    ensures HasText(s) <==> !Blank(s)
  {
  }

  /** A delivery fails only when a database call fails; the event can be retried unless undoing its record failed too. */
  lemma FailureIsRetried(db: Db, e: Event, f: Faults)
    requires Deliver(db, e, f).1 == Failed
    ensures f.record || f.getSub || f.setStatus || f.getInvoice || f.pay
    ensures Deliver(db, e, f).0.seen == if f.undo && !f.record then db.seen + {e.id} else db.seen
  {
  }

  /** A failed delivery has paid nothing; at most it has activated the subscription whose invoice it then could not pay. */
  lemma FailedLeaves(db: Db, e: Event, f: Faults, s: SubId)
    requires UniqueRefs(db) && Deliver(db, e, f).1 == Failed && s in db.subs
    ensures var after := Deliver(db, e, f).0;
            && SameRows(db, after) && after.invoices == db.invoices
            && (after.subs[s] == db.subs[s] ||
                (e.kind in {"checkout.completed", "invoice.paid"} && Names(e, db.subs[s].providerRef) && db.subs[s].status in {Trialing, PastDue}
                 && after.subs[s] == db.subs[s].(status := Active) && !f.setStatus && (f.getInvoice || f.pay)))
  {
  }
}
