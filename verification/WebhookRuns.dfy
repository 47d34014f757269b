/**
 What webhook deliveries that follow one another leave behind, over a fixed set of subscriptions and invoices.
 Deliveries that overlap are the subject of `WebhookCalls` and the modules after it.
 */
module WebhookRuns {
  import opened Wrappers
  import opened BillingWebhooks

  datatype Delivery = Delivery(event: Event, faults: Faults)

  ghost function Run(db: Db, ds: seq<Delivery>): Db
    decreases |ds|
  {
    if ds == [] then db
    else Deliver(Run(db, ds[..|ds| - 1]), ds[|ds| - 1].event, ds[|ds| - 1].faults).0
  }

  /** The answer to delivery i. */
  ghost function AnswerTo(db: Db, ds: seq<Delivery>, i: nat): Answer
    requires i < |ds|
  {
    Deliver(Run(db, ds[..i]), ds[i].event, ds[i].faults).1
  }

  /** A payment that names no invoice settles whichever one is then the latest open one. */
  predicate NamesNoInvoice(e: Event) {
    IsPayment(e) && e.invoiceRef == ""
  }

  predicate Wants(e: Event, ref: Option<string>) {
    e.providerRef != "" && ref == Some(e.providerRef)
  }

  ghost predicate SomeWakes(es: set<Event>, ref: Option<string>) {
    exists e :: e in es && IsPayment(e) && Wants(e, ref)
  }

  ghost predicate SomeEnds(es: set<Event>, ref: Option<string>) {
    exists e :: e in es && IsCancellation(e) && Wants(e, ref)
  }

  ghost predicate SomePays(es: set<Event>, ref: Option<string>) {
    exists e :: e in es && IsPayment(e) && e.invoiceRef != "" && ref == Some(e.invoiceRef)
  }

  /**
   * A subscription's status once `woken` have activated and `ended` have cancelled, in whatever order: a cancellation wins;
   * a payment activates a trial, an active or a past-due one.
   */
  ghost function StatusAfter(s: Subscription, woken: set<Event>, ended: set<Event>): SubStatus {
    if SomeEnds(ended, s.providerRef) then Canceled
    else if s.status in {Trialing, Active, PastDue} && SomeWakes(woken, s.providerRef) then Active
    else s.status
  }

  ghost predicate PaidAfter(i: Invoice, paying: set<Event>) {
    i.status == Paid || SomePays(paying, i.providerRef)
  }

  /** The events whose activation, cancellation and payment have been carried out. */
  datatype Landed = Landed(woken: set<Event>, ended: set<Event>, paying: set<Event>)

  /** What a delivery that is neither invalid nor a duplicate carries out before a call fails. */
  ghost function Lands(db: Db, l: Landed, e: Event, f: Faults): Landed {
    if Blank(e.id) || Blank(e.kind) || f.record || e.id in db.seen then l
    else if IsPayment(e) then
      if Activated(db, e, f).None? then l
      else if Settled(Activated(db, e, f).value, e, f).None? then l.(woken := l.woken + {e})
      else l.(woken := l.woken + {e}, paying := l.paying + {e})
    else if IsCancellation(e) && Ended(db, e, f).Some? then l.(ended := l.ended + {e})
    else l
  }

  ghost function LandedAfter(db: Db, ds: seq<Delivery>): Landed
    decreases |ds|
  {
    if ds == [] then Landed({}, {}, {})
    else
      var init, last := ds[..|ds| - 1], ds[|ds| - 1];
      Lands(Run(db, init), LandedAfter(db, init), last.event, last.faults)
  }

  /** `now` is `start` with what has landed carried out: the statuses and payments, and nothing else of interest. */
  ghost predicate Shows(start: Db, now: Db, l: Landed) {
    now.subs.Keys == start.subs.Keys && now.invoices.Keys == start.invoices.Keys &&
    (forall s :: s in start.subs ==>
      now.subs[s] == start.subs[s].(status := StatusAfter(start.subs[s], l.woken, l.ended))) &&
    (forall i :: i in start.invoices ==>
      now.invoices[i].providerRef == start.invoices[i].providerRef
      && (now.invoices[i].status == Paid <==> PaidAfter(start.invoices[i], l.paying))
      && (now.invoices[i].status != Paid ==> now.invoices[i] == start.invoices[i]))
  }

  lemma ShowsWake(start: Db, now: Db, l: Landed, e: Event, f: Faults)
    requires UniqueRefs(start) && Shows(start, now, l) && IsPayment(e) && Activated(now, e, f).Some?
    ensures Shows(start, Activated(now, e, f).value, l.(woken := l.woken + {e}))
  {
    var v, m := Activated(now, e, f).value, l.(woken := l.woken + {e});
    forall s | s in start.subs
      ensures v.subs[s] == start.subs[s].(status := StatusAfter(start.subs[s], m.woken, m.ended))
    {
      var ref := start.subs[s].providerRef;
      assert SomeWakes(m.woken, ref) <==> SomeWakes(l.woken, ref) || Wants(e, ref);
      if Wants(e, ref) {
        assert HasSub(now, s, e.providerRef);
        assert NamedSub(now, e) == Some(s);
      }
    }
  }

  lemma ShowsEnd(start: Db, now: Db, l: Landed, e: Event, f: Faults)
    requires UniqueRefs(start) && Shows(start, now, l) && IsCancellation(e) && Ended(now, e, f).Some?
    ensures Shows(start, Ended(now, e, f).value, l.(ended := l.ended + {e}))
  {
    var v, m := Ended(now, e, f).value, l.(ended := l.ended + {e});
    forall s | s in start.subs
      ensures v.subs[s] == start.subs[s].(status := StatusAfter(start.subs[s], m.woken, m.ended))
    {
      var ref := start.subs[s].providerRef;
      assert SomeEnds(m.ended, ref) <==> SomeEnds(l.ended, ref) || Wants(e, ref);
      if Wants(e, ref) {
        assert HasSub(now, s, e.providerRef);
        assert NamedSub(now, e) == Some(s);
      }
    }
  }

  lemma ShowsPay(start: Db, now: Db, l: Landed, e: Event, f: Faults)
    requires UniqueRefs(start) && Shows(start, now, l) && IsPayment(e) && e.invoiceRef != "" && Settled(now, e, f).Some?
    ensures Shows(start, Settled(now, e, f).value, l.(paying := l.paying + {e}))
  {
    var v, m := Settled(now, e, f).value, l.(paying := l.paying + {e});
    forall i | i in start.invoices
      ensures v.invoices[i].providerRef == start.invoices[i].providerRef
              && (v.invoices[i].status == Paid <==> PaidAfter(start.invoices[i], m.paying))
              && (v.invoices[i].status != Paid ==> v.invoices[i] == start.invoices[i])
    {
      var ref := start.invoices[i].providerRef;
      assert SomePays(m.paying, ref) <==> SomePays(l.paying, ref) || ref == Some(e.invoiceRef);
      if ref == Some(e.invoiceRef) {
        assert HasInvoice(now.invoices, i, e.invoiceRef);
        assert InvoiceByRef(now.invoices, e.invoiceRef) == Some(i);
      }
    }
  }

  lemma ShowsDelivery(start: Db, now: Db, l: Landed, e: Event, f: Faults)
    requires UniqueRefs(start) && Shows(start, now, l) && !NamesNoInvoice(e)
    ensures Shows(start, Deliver(now, e, f).0, Lands(now, l, e, f))
  {
    if IsPayment(e) && Activated(now, e, f).Some? {
      var active := Activated(now, e, f).value;
      ShowsWake(start, now, l, e, f);
      if Settled(active, e, f).Some? {
        ShowsPay(start, active, l.(woken := l.woken + {e}), e, f);
      }
    } else if IsCancellation(e) && Ended(now, e, f).Some? {
      ShowsEnd(start, now, l, e, f);
    }
  }

  ghost predicate AllNamed(ds: seq<Delivery>) {
    forall i :: 0 <= i < |ds| ==> !NamesNoInvoice(ds[i].event)
  }

  lemma {:induction false} ShowsRun(db: Db, ds: seq<Delivery>)
    requires UniqueRefs(db) && AllNamed(ds)
    ensures Shows(db, Run(db, ds), LandedAfter(db, ds))
    decreases |ds|
  {
    if ds != [] {
      var init, last := ds[..|ds| - 1], ds[|ds| - 1];
      ShowsRun(db, init);
      ShowsDelivery(db, Run(db, init), LandedAfter(db, init), last.event, last.faults);
    }
  }

  ghost function EventsOf(ds: seq<Delivery>): set<Event> {
    set i | 0 <= i < |ds| :: ds[i].event
  }

  ghost predicate AppliedAt(db: Db, ds: seq<Delivery>, j: int, e: Event) {
    0 <= j < |ds| && ds[j].event == e && AnswerTo(db, ds, j) == Applied
  }

  /** Every delivered event is applied by one of its deliveries: failed ones were retried until one succeeded. */
  ghost predicate EachApplied(db: Db, ds: seq<Delivery>) {
    forall e :: e in EventsOf(ds) ==> exists j :: AppliedAt(db, ds, j, e)
  }

  ghost predicate Within(l: Landed, es: set<Event>) {
    l.woken <= es && l.ended <= es && l.paying <= es
  }

  lemma {:induction false} LandedAreDelivered(db: Db, ds: seq<Delivery>)
    ensures Within(LandedAfter(db, ds), EventsOf(ds))
    decreases |ds|
  {
    if ds != [] {
      var init, last := ds[..|ds| - 1], ds[|ds| - 1];
      LandedAreDelivered(db, init);
      assert last.event in EventsOf(ds);
      forall e | e in EventsOf(init) ensures e in EventsOf(ds) {
        var i :| 0 <= i < |init| && init[i].event == e;
        assert ds[i].event == e;
      }
    }
  }

  predicate HasLanded(l: Landed, e: Event) {
    (IsPayment(e) ==> e in l.woken && e in l.paying) && (IsCancellation(e) ==> e in l.ended)
  }

  lemma {:induction false} AppliedHasLanded(db: Db, ds: seq<Delivery>, j: nat)
    requires j < |ds| && AnswerTo(db, ds, j) == Applied
    ensures HasLanded(LandedAfter(db, ds), ds[j].event)
    decreases |ds|
  {
    var init := ds[..|ds| - 1];
    if j < |init| {
      assert init[..j] == ds[..j];
      AppliedHasLanded(db, init, j);
    }
  }

  lemma DeliveredHaveLanded(db: Db, ds: seq<Delivery>)
    requires EachApplied(db, ds)
    ensures forall e :: e in EventsOf(ds) ==> HasLanded(LandedAfter(db, ds), e)
  {
    forall e | e in EventsOf(ds) ensures HasLanded(LandedAfter(db, ds), e) {
      var j :| AppliedAt(db, ds, j, e);
      AppliedHasLanded(db, ds, j);
    }
  }

  /**
   * When every delivered event names its invoice (or is a cancellation) and is in the end applied, the
   * statuses and payments are those of carrying out each distinct event once, in no particular order.
   */
  lemma FinalState(db: Db, ds: seq<Delivery>)
    requires UniqueRefs(db) && AllNamed(ds) && EachApplied(db, ds)
    ensures var es := EventsOf(ds); Shows(db, Run(db, ds), Landed(es, es, es))
  {
    ShowsRun(db, ds);
    LandedAreDelivered(db, ds);
    DeliveredHaveLanded(db, ds);
    ShowsWhole(db, Run(db, ds), LandedAfter(db, ds), EventsOf(ds));
  }

  lemma ShowsWhole(start: Db, now: Db, l: Landed, es: set<Event>)
    requires Shows(start, now, l) && Within(l, es) && forall e :: e in es ==> HasLanded(l, e)
    ensures Shows(start, now, Landed(es, es, es))
  {
    forall ref: Option<string>
      ensures SomeWakes(l.woken, ref) == SomeWakes(es, ref) && SomeEnds(l.ended, ref) == SomeEnds(es, ref)
              && SomePays(l.paying, ref) == SomePays(es, ref)
    {
    }
  }

  lemma ShowsDetermines(start: Db, a: Db, b: Db, l: Landed)
    requires Shows(start, a, l) && Shows(start, b, l)
    ensures a.subs == b.subs && a.invoices.Keys == b.invoices.Keys
    ensures forall i :: i in a.invoices ==> (a.invoices[i].status == Paid <==> b.invoices[i].status == Paid)
  {
    assert forall s :: s in start.subs ==> a.subs[s] == b.subs[s];
    assert forall s :: s in a.subs.Keys <==> s in start.subs.Keys;
    assert forall s :: s in b.subs.Keys <==> s in start.subs.Keys;
  }

  /** Order, duplicates and failed attempts do not matter: the same set of events gives the same outcome. */
  lemma OrderDoesNotMatter(db: Db, ds: seq<Delivery>, ds': seq<Delivery>)
    requires UniqueRefs(db) && AllNamed(ds) && EachApplied(db, ds) && AllNamed(ds') && EachApplied(db, ds')
    requires EventsOf(ds) == EventsOf(ds')
    ensures Run(db, ds).subs == Run(db, ds').subs
    ensures Run(db, ds).invoices.Keys == Run(db, ds').invoices.Keys
    ensures forall i :: i in Run(db, ds).invoices ==>
              (Run(db, ds).invoices[i].status == Paid <==> Run(db, ds').invoices[i].status == Paid)
  {
    FinalState(db, ds);
    FinalState(db, ds');
    ShowsDetermines(db, Run(db, ds), Run(db, ds'), Landed(EventsOf(ds), EventsOf(ds), EventsOf(ds)));
  }

  /** A failed delivery whose record was undone can be retried: the next delivery without faults is applied. */
  lemma FailedCanBeRetried(db: Db, e: Event, f: Faults, g: Faults)
    requires Deliver(db, e, f).1 == Failed && e.id !in db.seen && !f.undo
    requires g == Faults(false, false, false, false, false, false)
    ensures Deliver(Deliver(db, e, f).0, e, g).1 == Applied
  {
  }

  lemma {:induction false} SeenStaysSeen(db: Db, ds: seq<Delivery>, k: nat)
    requires k <= |ds|
    ensures Run(db, ds[..k]).seen <= Run(db, ds).seen
    decreases |ds|
  {
    if k < |ds| {
      var init := ds[..|ds| - 1];
      assert init[..k] == ds[..k];
      SeenStaysSeen(db, init, k);
      ApplyIgnoresSeen(Run(db, init), ds[|ds| - 1].event, ds[|ds| - 1].faults);
    } else {
      assert ds[..k] == ds;
    }
  }

  /** No event id is ever applied twice. */
  lemma AppliedOnce(db: Db, ds: seq<Delivery>, j: nat, k: nat)
    requires j < k < |ds| && ds[j].event.id == ds[k].event.id && AnswerTo(db, ds, j) == Applied
    ensures AnswerTo(db, ds, k) != Applied
  {
    assert ds[..j + 1][..j] == ds[..j];
    assert ds[j].event.id in Run(db, ds[..j + 1]).seen;
    SeenStaysSeen(db, ds[..k], j + 1);
    assert ds[..k][..j + 1] == ds[..j + 1];
  }

  predicate Rivals(a: Subscription, b: Subscription) {
    a.user == b.user && a.status.Usable() && b.status.Usable()
  }

  /** The index behind "one subscription at a time" (migrations/0009_billing.sql:44-45). */
  ghost predicate OneUsablePerUser(db: Db) {
    forall a, b :: a in db.subs && b in db.subs && Rivals(db.subs[a], db.subs[b]) ==> a == b
  }

  /** No undisturbed delivery gives a user a second usable subscription or brings a finished one back. */
  lemma DeliveryRevivesNothing(db: Db, e: Event, f: Faults)
    requires OneUsablePerUser(db)
    ensures OneUsablePerUser(Deliver(db, e, f).0)
    ensures forall s :: s in db.subs && !db.subs[s].status.Usable() ==>
              s in Deliver(db, e, f).0.subs && !Deliver(db, e, f).0.subs[s].status.Usable()
  {
  }

  // ---------------------------------------------------------------- payments that name no invoice

  const NO_FAULTS := Faults(false, false, false, false, false, false)

  /** Some payment event for an invoice or subscription that has not been delivered before. */
  predicate NewPayment(db: Db, e: Event) {
    IsPayment(e) && !Blank(e.id) && e.id !in db.seen
  }

  /** Which invoice a payment settles is decided by the invoices and references, not by any status of a subscription. */
  lemma SettlesIgnoresStatus(db: Db, s: SubId, status: SubStatus, e: Event)
    requires UniqueRefs(db) && s in db.subs
    ensures Settles(WithStatus(db, s, status), e) == Settles(db, e)
  {
    var v := WithStatus(db, s, status);
    assert forall x :: HasSub(v, x, e.providerRef) <==> HasSub(db, x, e.providerRef);
    if x :| HasSub(db, x, e.providerRef) { assert HasSub(v, x, e.providerRef); }
  }

  /** What a faultless first delivery of a payment does to the invoices. */
  lemma PaymentSettles(db: Db, e: Event)
    requires UniqueRefs(db) && NewPayment(db, e)
    ensures Deliver(db, e, NO_FAULTS).0.invoices ==
            if Settles(db, e).Some? then WithPaid(db, Settles(db, e).value, e.paidAt).invoices else db.invoices
    ensures Deliver(db, e, NO_FAULTS).0.seen == db.seen + {e.id}
    ensures UniqueRefs(Deliver(db, e, NO_FAULTS).0)
    ensures forall s, ref :: HasSub(Deliver(db, e, NO_FAULTS).0, s, ref) <==> HasSub(db, s, ref)
  {
    var s := NamedSub(db, e);
    if s.Some? { SettlesIgnoresStatus(db, s.value, Active, e); }
    assert e.kind != "" && !Blank(e.kind) by { assert e.kind[0] !in " \t\n\r"; }
  }

  type Invoices = map<InvoiceId, Invoice>

  ghost function PaidSet(invoices: Invoices): set<InvoiceId> {
    set i | i in invoices && invoices[i].status == Paid
  }

  /** Paying one invoice changes which is the latest open one only if it was that one. */
  lemma LatestAfterPaying(invoices: Invoices, s: SubId, i: InvoiceId, paid: Invoice)
    requires i in invoices && paid.status == Paid
    ensures LatestOpen(invoices, s) != Some(i) ==> LatestOpen(invoices[i := paid], s) == LatestOpen(invoices, s)
    ensures LatestOpen(invoices, s) == Some(i) ==>
              (LatestOpen(invoices[i := paid], s).Some? <==> exists j :: j != i && OpenFor(invoices, s, j))
  {
    var after := invoices[i := paid];
    forall j ensures OpenFor(after, s, j) <==> OpenFor(invoices, s, j) && j != i {}
    if x :| OpenFor(after, s, x) { LatestOpenExists(after, s, x); }
    if x :| OpenFor(invoices, s, x) { LatestOpenExists(invoices, s, x); }
    if LatestOpen(invoices, s).Some? && LatestOpen(invoices, s) != Some(i) {
      assert IsLatestOpen(after, s, LatestOpen(invoices, s).value);
    }
  }

  /** The invoices after first e and then e' are delivered without faults. */
  ghost function Both(db: Db, e: Event, e': Event): Invoices {
    Deliver(Deliver(db, e, NO_FAULTS).0, e', NO_FAULTS).0.invoices
  }

  ghost function AsSet(i: Option<InvoiceId>): set<InvoiceId> {
    if i.Some? then {i.value} else {}
  }

  /** A faultless first delivery of a payment adds the invoice it settles to the paid ones. */
  lemma PaymentPays(db: Db, e: Event)
    requires UniqueRefs(db) && NewPayment(db, e)
    ensures PaidSet(Deliver(db, e, NO_FAULTS).0.invoices) == PaidSet(db.invoices) + AsSet(Settles(db, e))
  {
    PaymentSettles(db, e);
  }

  lemma NamedSettles(db: Db, e: Event, i: InvoiceId)
    requires UniqueRefs(db) && e.invoiceRef != "" && HasInvoice(db.invoices, i, e.invoiceRef)
    ensures Settles(db, e) == if db.invoices[i].status != Paid then Some(i) else None
  {
    assert InvoiceByRef(db.invoices, e.invoiceRef) == Some(i);
  }

  /**
   * A payment that names no invoice and one that names invoice i: the two orders pay the same invoices
   * unless i is the subscription's latest open invoice and it has another open one.
   */
  lemma NamelessOrderIff(db: Db, nameless: Event, named: Event, s: SubId, i: InvoiceId)
    requires UniqueRefs(db) && NewPayment(db, nameless) && NewPayment(db, named) && nameless.id != named.id
    requires nameless.invoiceRef == "" && NamedSub(db, nameless) == Some(s)
    requires named.invoiceRef != "" && HasInvoice(db.invoices, i, named.invoiceRef)
    ensures PaidSet(Both(db, nameless, named)) == PaidSet(Both(db, named, nameless)) <==>
            !(LatestOpen(db.invoices, s) == Some(i) && exists j :: j != i && OpenFor(db.invoices, s, j))
  {
    var a, b := Deliver(db, nameless, NO_FAULTS).0, Deliver(db, named, NO_FAULTS).0;
    var l := LatestOpen(db.invoices, s);
    NamelessFirst(db, a, nameless, named, s, i);
    NamedFirst(db, b, nameless, named, s, i);
    if db.invoices[i].status != Paid {
      LatestAfterPaying(db.invoices, s, i, db.invoices[i].(status := Paid, paidAt := Some(named.paidAt)));
    }
    var l' := LatestOpen(b.invoices, s);
    if l == Some(i) && l'.Some? {
      assert l'.value in PaidSet(Both(db, named, nameless));
      assert l'.value !in PaidSet(Both(db, nameless, named));
    }
  }

  lemma NamelessFirst(db: Db, a: Db, nameless: Event, named: Event, s: SubId, i: InvoiceId)
    requires UniqueRefs(db) && NewPayment(db, nameless) && NewPayment(db, named) && nameless.id != named.id
    requires nameless.invoiceRef == "" && NamedSub(db, nameless) == Some(s)
    requires named.invoiceRef != "" && HasInvoice(db.invoices, i, named.invoiceRef)
    requires a == Deliver(db, nameless, NO_FAULTS).0
    ensures PaidSet(Both(db, nameless, named)) == PaidSet(db.invoices) + AsSet(LatestOpen(db.invoices, s)) + {i}
  {
    PaymentSettles(db, nameless);
    PaymentPays(db, nameless);
    NamedSettles(a, named, i);
    PaymentPays(a, named);
  }

  lemma NamedFirst(db: Db, b: Db, nameless: Event, named: Event, s: SubId, i: InvoiceId)
    requires UniqueRefs(db) && NewPayment(db, nameless) && NewPayment(db, named) && nameless.id != named.id
    requires nameless.invoiceRef == "" && NamedSub(db, nameless) == Some(s)
    requires named.invoiceRef != "" && HasInvoice(db.invoices, i, named.invoiceRef)
    requires b == Deliver(db, named, NO_FAULTS).0
    ensures PaidSet(Both(db, named, nameless)) == PaidSet(db.invoices) + {i} + AsSet(LatestOpen(b.invoices, s))
    ensures b.invoices == if db.invoices[i].status == Paid then db.invoices
                          else db.invoices[i := db.invoices[i].(status := Paid, paidAt := Some(named.paidAt))]
  {
    PaymentSettles(db, named);
    PaymentPays(db, named);
    NamedSettles(db, named, i);
    assert HasSub(b, s, nameless.providerRef);
    assert NamedSub(b, nameless) == Some(s);
    PaymentPays(b, nameless);
  }
}
