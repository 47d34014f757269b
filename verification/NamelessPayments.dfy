/**
 Runs of payments of which some name no invoice: each of those pays whichever invoice of its subscription is then
 the latest open one. Deliveries here do not overlap and do not fail.
 */
module NamelessPayments {
  import opened Wrappers
  import opened BillingWebhooks
  import opened WebhookRuns
  import Orders

  // ---------------------------------------------------------------- the n latest of a set

  predicate IsGreatest(invoices: Invoices, open: set<InvoiceId>, g: InvoiceId)
    requires open <= invoices.Keys
  {
    g in open && forall x :: x in open && x != g ==> IssuedBefore(invoices, x, g)
  }

  lemma {:induction false} GreatestExists(invoices: Invoices, open: set<InvoiceId>)
    requires open <= invoices.Keys && open != {}
    ensures exists g :: IsGreatest(invoices, open, g)
    decreases |open|
  {
    var a := Orders.Any(open);
    var rest := open - {a};
    assert open == {a} + rest;
    if rest == {} {
      assert IsGreatest(invoices, open, a);
    } else {
      GreatestExists(invoices, rest);
      var b :| IsGreatest(invoices, rest, b);
      assert IsGreatest(invoices, open, if IssuedBefore(invoices, a, b) then b else a);
    }
  }

  ghost function Greatest(invoices: Invoices, open: set<InvoiceId>): (g: InvoiceId)
    requires open <= invoices.Keys && open != {}
    ensures IsGreatest(invoices, open, g)
  {
    GreatestExists(invoices, open);
    var g :| IsGreatest(invoices, open, g);
    g
  }

  /** The n latest of the invoices, or all of them if they are fewer. */
  ghost function Latest(invoices: Invoices, open: set<InvoiceId>, n: nat): (r: set<InvoiceId>)
    requires open <= invoices.Keys
    ensures r <= open
    decreases n
  {
    if n == 0 || open == {} then {}
    else {Greatest(invoices, open)} + Latest(invoices, open - {Greatest(invoices, open)}, n - 1)
  }

  lemma {:induction false} LatestCount(invoices: Invoices, open: set<InvoiceId>, n: nat)
    requires open <= invoices.Keys
    ensures |Latest(invoices, open, n)| == if n <= |open| then n else |open|
    ensures |open| <= n ==> Latest(invoices, open, n) == open
    decreases n
  {
    if n > 0 && open != {} {
      var g := Greatest(invoices, open);
      assert open == {g} + (open - {g});
      LatestCount(invoices, open - {g}, n - 1);
    }
  }

  /** Fewer than n invoices are later than one of the n latest. */
  lemma {:induction false} FewAreLater(invoices: Invoices, open: set<InvoiceId>, n: nat, x: InvoiceId, later: set<InvoiceId>)
    requires open <= invoices.Keys && x in Latest(invoices, open, n) && later <= open
    requires forall l :: l in later ==> l != x && IssuedBefore(invoices, x, l)
    ensures |later| < n
    decreases n
  {
    var g := Greatest(invoices, open);
    if x == g {
      assert forall l :: l in open && l != g ==> IssuedBefore(invoices, l, g) && !IssuedBefore(invoices, g, l);
      forall l ensures l !in later {
        assert l in later ==> l in open;
      }
      Orders.NoneIn(later);
    } else {
      FewAreLater(invoices, open - {g}, n - 1, x, later - {g});
      Orders.Smaller(later, later - {g} + {g});
    }
  }

  // ---------------------------------------------------------------- what a run pays

  /** New payments, each naming an invoice or else the subscription s, all with ids of their own. */
  ghost predicate NewPayments(db: Db, s: SubId, es: set<Event>) {
    UniqueRefs(db) && (forall e :: e in es ==> NewPayment(db, e) && (e.invoiceRef == "" ==> NamedSub(db, e) == Some(s))) &&
    (forall e, e' :: e in es && e' in es && e.id == e'.id ==> e == e')
  }

  /** The events of a set one after another, in some order. */
  ghost predicate Lists(list: seq<Event>, es: set<Event>) {
    (forall e :: e in es <==> e in list) && forall i, j :: 0 <= i < j < |list| ==> list[i] != list[j]
  }

  ghost function Delivered(db: Db, list: seq<Event>): Db
    decreases |list|
  {
    if list == [] then db else Deliver(Delivered(db, list[..|list| - 1]), list[|list| - 1], NO_FAULTS).0
  }

  predicate Names(db: Db, e: Event, i: InvoiceId) {
    e.invoiceRef != "" && HasInvoice(db.invoices, i, e.invoiceRef)
  }

  /** The invoices that events of the set name. */
  ghost function NamedBy(db: Db, es: set<Event>): set<InvoiceId> {
    set i, e | i in db.invoices && e in es && Names(db, e, i) :: i
  }

  ghost function Nameless(es: set<Event>): set<Event> {
    set e | e in es && e.invoiceRef == ""
  }

  function OpenOf(invoices: Invoices, s: SubId): set<InvoiceId> {
    set i | i in invoices && OpenFor(invoices, s, i)
  }

  /** Payments change nothing about an invoice but that it becomes paid. */
  ghost predicate OnlyPaid(a: Db, b: Db) {
    b.invoices.Keys == a.invoices.Keys && (forall x, ref :: HasSub(b, x, ref) <==> HasSub(a, x, ref)) && UniqueRefs(b) &&
    (forall i :: i in a.invoices ==> b.invoices[i].status == a.invoices[i].status || b.invoices[i].status == Paid) &&
    (forall i :: i in a.invoices ==> b.invoices[i].(status := Paid, paidAt := None) == a.invoices[i].(status := Paid, paidAt := None))
  }

  lemma OnlyPaidStep(a: Db, b: Db, e: Event)
    requires UniqueRefs(a) && OnlyPaid(a, b) && NewPayment(b, e)
    ensures OnlyPaid(a, Deliver(b, e, NO_FAULTS).0)
  {
    PaymentSettles(b, e);
  }

  lemma OnlyPaidKeeps(a: Db, b: Db, e: Event)
    requires UniqueRefs(a) && OnlyPaid(a, b)
    ensures NamedSub(b, e) == NamedSub(a, e) && forall i :: Names(b, e, i) <==> Names(a, e, i)
  {
    forall i ensures Names(b, e, i) <==> Names(a, e, i) {
      if i in a.invoices {
        assert b.invoices[i].providerRef == a.invoices[i].(status := Paid, paidAt := None).providerRef;
      }
    }
    if x :| HasSub(a, x, e.providerRef) { assert HasSub(b, x, e.providerRef); }
  }

  lemma {:induction false} DeliveredSteps(db: Db, s: SubId, es: set<Event>, list: seq<Event>)
    requires NewPayments(db, s, es) && Lists(list, es)
    ensures OnlyPaid(db, Delivered(db, list))
    ensures forall id :: id in Delivered(db, list).seen <==> id in db.seen || exists e :: e in es && e.id == id
    decreases |list|
  {
    if list != [] {
      var init, last := list[..|list| - 1], list[|list| - 1];
      ListsInit(list, es);
      DeliveredSteps(db, s, es - {last}, init);
      var b := Delivered(db, init);
      assert NewPayment(b, last);
      OnlyPaidStep(db, b, last);
      PaymentSettles(b, last);
    }
  }

  lemma ListsInit(list: seq<Event>, es: set<Event>)
    requires Lists(list, es) && list != []
    ensures Lists(list[..|list| - 1], es - {list[|list| - 1]}) && list[|list| - 1] in es
  {
    var init, last := list[..|list| - 1], list[|list| - 1];
    forall e ensures e in es - {last} <==> e in init {
      if e in init {
        var i :| 0 <= i < |init| && init[i] == e;
        assert list[i] != last;
      }
      if e in es && e != last {
        var i :| 0 <= i < |list| && list[i] == e;
        assert init[i] == e;
      }
    }
  }

  /**
   * What a run pays: the invoices named, and `taken`, at most one open invoice of s for each payment that names none,
   * each later than all that are left; fewer only if none is left.
   */
  ghost predicate Pays(db: Db, s: SubId, es: set<Event>, after: Invoices, taken: set<InvoiceId>) {
    Adds(db.invoices, OpenOf(db.invoices, s), PaidSet(db.invoices), NamedBy(db, es), |Nameless(es)|, PaidSet(after), taken)
  }

  ghost predicate Adds(invoices: Invoices, open: set<InvoiceId>, start: set<InvoiceId>, named: set<InvoiceId>, n: nat,
                       paid: set<InvoiceId>, taken: set<InvoiceId>) {
    open <= invoices.Keys && taken <= open && paid == start + named + taken && |taken| <= n && (|taken| < n ==> open <= paid) &&
    forall x, l :: x in open && x !in paid && l in taken ==> IssuedBefore(invoices, x, l)
  }

  lemma AddNamed(invoices: Invoices, open: set<InvoiceId>, start: set<InvoiceId>, named: set<InvoiceId>, n: nat,
                 paid: set<InvoiceId>, taken: set<InvoiceId>, more: set<InvoiceId>)
    requires Adds(invoices, open, start, named, n, paid, taken)
    ensures Adds(invoices, open, start, named + more, n, paid + more, taken)
  {
  }

  lemma AddTaken(invoices: Invoices, open: set<InvoiceId>, start: set<InvoiceId>, named: set<InvoiceId>, n: nat,
                 paid: set<InvoiceId>, taken: set<InvoiceId>, l: InvoiceId)
    requires Adds(invoices, open, start, named, n, paid, taken) && l in open && l !in paid
    requires forall x :: x in open && x !in paid && x != l ==> IssuedBefore(invoices, x, l)
    ensures Adds(invoices, open, start, named, n + 1, paid + {l}, taken + {l})
  {
  }

  lemma AddNone(invoices: Invoices, open: set<InvoiceId>, start: set<InvoiceId>, named: set<InvoiceId>, n: nat,
                paid: set<InvoiceId>, taken: set<InvoiceId>)
    requires Adds(invoices, open, start, named, n, paid, taken) && open <= paid
    ensures Adds(invoices, open, start, named, n + 1, paid, taken)
  {
  }

  lemma StillOpen(a: Db, b: Db, s: SubId)
    requires OnlyPaid(a, b)
    ensures forall i :: OpenFor(b.invoices, s, i) <==> OpenFor(a.invoices, s, i) && i !in PaidSet(b.invoices)
    ensures forall i, j :: i in a.invoices && j in a.invoices ==> IssuedBefore(b.invoices, i, j) == IssuedBefore(a.invoices, i, j)
  {
    forall i ensures OpenFor(b.invoices, s, i) <==> OpenFor(a.invoices, s, i) && i !in PaidSet(b.invoices) {
      if i in a.invoices {
        assert b.invoices[i].subscription == a.invoices[i].(status := Paid, paidAt := None).subscription;
      }
    }
    forall i | i in a.invoices ensures b.invoices[i].issuedAt == a.invoices[i].issuedAt {
      assert b.invoices[i].issuedAt == a.invoices[i].(status := Paid, paidAt := None).issuedAt;
    }
  }

  lemma NamedPaid(a: Db, b: Db, e: Event)
    requires UniqueRefs(a) && OnlyPaid(a, b) && NewPayment(b, e) && e.invoiceRef != ""
    ensures PaidSet(Deliver(b, e, NO_FAULTS).0.invoices) == PaidSet(b.invoices) + NamedBy(a, {e})
  {
    OnlyPaidKeeps(a, b, e);
    PaymentPays(b, e);
    if Settles(b, e).Some? {
      assert Names(b, e, Settles(b, e).value);
    }
    forall i | i in NamedBy(a, {e}) ensures i in PaidSet(b.invoices) || Settles(b, e) == Some(i) {
      NamedSettles(b, e, i);
    }
  }

  lemma OneNamed(db: Db, es: set<Event>, e: Event)
    requires e in es && e.invoiceRef != ""
    ensures NamedBy(db, es) == NamedBy(db, es - {e}) + NamedBy(db, {e}) && Nameless(es - {e}) == Nameless(es)
  {
  }

  lemma OneNameless(db: Db, es: set<Event>, e: Event)
    requires e in es && e.invoiceRef == ""
    ensures NamedBy(db, es) == NamedBy(db, es - {e}) && |Nameless(es)| == |Nameless(es - {e})| + 1
  {
    assert Nameless(es) == Nameless(es - {e}) + {e};
  }

  lemma PaysNamed(db: Db, s: SubId, es: set<Event>, b: Db, e: Event, taken: set<InvoiceId>)
    requires UniqueRefs(db) && e in es && e.invoiceRef != "" && OnlyPaid(db, b) && NewPayment(b, e)
    requires Pays(db, s, es - {e}, b.invoices, taken)
    ensures Pays(db, s, es, Deliver(b, e, NO_FAULTS).0.invoices, taken)
  {
    NamedPaid(db, b, e);
    OneNamed(db, es, e);
    AddNamed(db.invoices, OpenOf(db.invoices, s), PaidSet(db.invoices), NamedBy(db, es - {e}), |Nameless(es)|, PaidSet(b.invoices), taken,
             NamedBy(db, {e}));
  }

  lemma LatestLeft(a: Db, b: Db, s: SubId)
    requires OnlyPaid(a, b)
    ensures var l, open := LatestOpen(b.invoices, s), OpenOf(a.invoices, s);
            if l.Some? then l.value in open && l.value !in PaidSet(b.invoices)
                            && forall x :: x in open && x !in PaidSet(b.invoices) && x != l.value ==> IssuedBefore(a.invoices, x, l.value)
            else open <= PaidSet(b.invoices)
  {
    StillOpen(a, b, s);
    if LatestOpen(b.invoices, s).None? {
      forall i | i in OpenOf(a.invoices, s) ensures i in PaidSet(b.invoices) {
        if OpenFor(b.invoices, s, i) { LatestOpenExists(b.invoices, s, i); }
      }
    }
  }

  lemma NamelessPaid(a: Db, b: Db, s: SubId, e: Event)
    requires UniqueRefs(a) && OnlyPaid(a, b) && NewPayment(b, e) && e.invoiceRef == "" && NamedSub(a, e) == Some(s)
    ensures PaidSet(Deliver(b, e, NO_FAULTS).0.invoices) == PaidSet(b.invoices) + AsSet(LatestOpen(b.invoices, s))
  {
    OnlyPaidKeeps(a, b, e);
    PaymentPays(b, e);
  }

  lemma PaysNameless(db: Db, s: SubId, es: set<Event>, b: Db, e: Event, taken: set<InvoiceId>)
    requires UniqueRefs(db) && e in es && e.invoiceRef == "" && NamedSub(db, e) == Some(s) && OnlyPaid(db, b) && NewPayment(b, e)
    requires Pays(db, s, es - {e}, b.invoices, taken)
    ensures var l := LatestOpen(b.invoices, s);
            Pays(db, s, es, Deliver(b, e, NO_FAULTS).0.invoices, taken + AsSet(l))
  {
    LatestLeft(db, b, s);
    NamelessPaid(db, b, s, e);
    OneNameless(db, es, e);
    TakeLatest(db, s, NamedBy(db, es), |Nameless(es - {e})|, PaidSet(b.invoices), taken, LatestOpen(b.invoices, s));
  }

  lemma TakeLatest(db: Db, s: SubId, named: set<InvoiceId>, n: nat, paid: set<InvoiceId>, taken: set<InvoiceId>, l: Option<InvoiceId>)
    requires Adds(db.invoices, OpenOf(db.invoices, s), PaidSet(db.invoices), named, n, paid, taken)
    requires l.Some? ==> l.value in OpenOf(db.invoices, s) && l.value !in paid
    requires l.Some? ==> forall x :: x in OpenOf(db.invoices, s) && x !in paid && x != l.value ==> IssuedBefore(db.invoices, x, l.value)
    requires l.None? ==> OpenOf(db.invoices, s) <= paid
    ensures Adds(db.invoices, OpenOf(db.invoices, s), PaidSet(db.invoices), named, n + 1, paid + AsSet(l), taken + AsSet(l))
  {
    if l.Some? {
      AddTaken(db.invoices, OpenOf(db.invoices, s), PaidSet(db.invoices), named, n, paid, taken, l.value);
    } else {
      AddNone(db.invoices, OpenOf(db.invoices, s), PaidSet(db.invoices), named, n, paid, taken);
      assert paid + {} == paid && taken + {} == taken;
    }
  }

  lemma {:induction false} RunPays(db: Db, s: SubId, es: set<Event>, list: seq<Event>) returns (taken: set<InvoiceId>)
    requires NewPayments(db, s, es) && Lists(list, es)
    ensures Pays(db, s, es, Delivered(db, list).invoices, taken)
    decreases |list|
  {
    if list == [] {
      taken := {};
      assert forall e :: e !in es;
      Orders.NoneIn(es);
      Orders.NoneIn(Nameless(es));
      Orders.NoneIn(NamedBy(db, es));
    } else {
      var init, last := list[..|list| - 1], list[|list| - 1];
      ListsInit(list, es);
      DeliveredSteps(db, s, es - {last}, init);
      taken := RunPays(db, s, es - {last}, init);
      var b := Delivered(db, init);
      if last.invoiceRef != "" {
        PaysNamed(db, s, es, b, last, taken);
      } else {
        PaysNameless(db, s, es, b, last, taken);
        taken := taken + AsSet(LatestOpen(b.invoices, s));
      }
    }
  }

  // ---------------------------------------------------------------- when the order does not matter

  /** What is paid when the payments that name no invoice come first. */
  ghost function LatestAndNamed(db: Db, s: SubId, es: set<Event>): set<InvoiceId> {
    PaidSet(db.invoices) + NamedBy(db, es) + Latest(db.invoices, OpenOf(db.invoices, s), |Nameless(es)|)
  }

  /** No named invoice is among the n latest open ones, or these and the named ones are all the open ones. */
  ghost predicate Apart(db: Db, s: SubId, es: set<Event>) {
    var open := OpenOf(db.invoices, s);
    var latest := Latest(db.invoices, open, |Nameless(es)|);
    (forall i :: i in latest ==> i !in NamedBy(db, es)) || open <= latest + NamedBy(db, es)
  }

  lemma LatestArePaid(db: Db, s: SubId, es: set<Event>, after: Invoices, taken: set<InvoiceId>)
    requires Pays(db, s, es, after, taken)
    ensures Latest(db.invoices, OpenOf(db.invoices, s), |Nameless(es)|) <= PaidSet(after)
  {
    var open, n := OpenOf(db.invoices, s), |Nameless(es)|;
    forall x | x in Latest(db.invoices, open, n) ensures x in PaidSet(after) {
      if x !in PaidSet(after) {
        FewAreLater(db.invoices, open, n, x, taken);
      }
    }
  }

  lemma ApartPays(db: Db, s: SubId, es: set<Event>, after: Invoices, taken: set<InvoiceId>)
    requires Pays(db, s, es, after, taken) && Apart(db, s, es)
    ensures PaidSet(after) == LatestAndNamed(db, s, es)
  {
    var open, n := OpenOf(db.invoices, s), |Nameless(es)|;
    var latest := Latest(db.invoices, open, n);
    LatestArePaid(db, s, es, after, taken);
    if !(open <= latest + NamedBy(db, es)) {
      assert forall i :: i in open ==> i !in PaidSet(db.invoices);
      assert latest <= taken;
      LatestCount(db.invoices, open, n);
      Orders.Smaller(taken, open);
      SameSize(latest, taken);
    }
  }

  lemma SameSize<T>(a: set<T>, b: set<T>)
    requires a <= b && |b| <= |a|
    ensures a == b
  {
    assert b == a + (b - a);
  }

  // ---------------------------------------------------------------- two orders that tell whether it matters

  lemma {:induction false} ListExists(es: set<Event>) returns (list: seq<Event>)
    ensures Lists(list, es)
    decreases |es|
  {
    if es == {} {
      list := [];
    } else {
      var e := Orders.Any(es);
      var rest := ListExists(es - {e});
      list := rest + [e];
    }
  }

  lemma ListsJoin(a: seq<Event>, x: set<Event>, b: seq<Event>, y: set<Event>)
    requires Lists(a, x) && Lists(b, y) && forall e :: e in x ==> e !in y
    ensures Lists(a + b, x + y)
  {
    assert forall i :: 0 <= i < |a| ==> a[i] in x;
    assert forall i :: 0 <= i < |b| ==> b[i] in y;
  }

  lemma {:induction false} DeliveredJoin(db: Db, a: seq<Event>, b: seq<Event>)
    ensures Delivered(db, a + b) == Delivered(Delivered(db, a), b)
    decreases |b|
  {
    if b == [] {
      assert a + b == a;
    } else {
      DeliveredJoin(db, a, b[..|b| - 1]);
      assert (a + b)[..|a + b| - 1] == a + b[..|b| - 1];
    }
  }

  ghost function NamedOnly(es: set<Event>): set<Event> {
    es - Nameless(es)
  }

  /** After the events of one part, those of the rest are still new. */
  lemma StillNew(db: Db, s: SubId, es: set<Event>, part: set<Event>, list: seq<Event>)
    requires NewPayments(db, s, es) && part <= es && Lists(list, part)
    ensures NewPayments(db, s, part) && OnlyPaid(db, Delivered(db, list)) && NewPayments(Delivered(db, list), s, es - part)
  {
    DeliveredSteps(db, s, part, list);
    var b := Delivered(db, list);
    forall e | e in es - part ensures NewPayment(b, e) && (e.invoiceRef == "" ==> NamedSub(b, e) == Some(s)) {
      OnlyPaidKeeps(db, b, e);
    }
  }

  lemma NamedByKeeps(a: Db, b: Db, es: set<Event>)
    requires UniqueRefs(a) && OnlyPaid(a, b)
    ensures NamedBy(b, es) == NamedBy(a, es)
  {
    forall e, i ensures Names(b, e, i) <==> Names(a, e, i) {
      OnlyPaidKeeps(a, b, e);
    }
  }

  lemma Parts(db: Db, es: set<Event>)
    ensures Nameless(es) + NamedOnly(es) == es && es - Nameless(es) == NamedOnly(es) && es - NamedOnly(es) == Nameless(es)
    ensures NamedBy(db, Nameless(es)) == {} && NamedBy(db, NamedOnly(es)) == NamedBy(db, es)
    ensures Nameless(Nameless(es)) == Nameless(es) && |Nameless(NamedOnly(es))| == 0
  {
    Orders.NoneIn(NamedBy(db, Nameless(es)));
    Orders.NoneIn(Nameless(NamedOnly(es)));
    assert Nameless(Nameless(es)) == Nameless(es);
    assert NamedBy(db, NamedOnly(es)) == NamedBy(db, es);
  }

  /** Named payments alone pay what they name. */
  lemma NamedAlone(db: Db, s: SubId, es: set<Event>, list: seq<Event>)
    requires NewPayments(db, s, es) && Lists(list, es) && |Nameless(es)| == 0
    ensures PaidSet(Delivered(db, list).invoices) == PaidSet(db.invoices) + NamedBy(db, es)
  {
    var taken := RunPays(db, s, es, list);
    Orders.EmptyIsNone(taken);
  }

  /** The payments that name no invoice first: they take the n latest. */
  lemma NamelessFirst(db: Db, s: SubId, es: set<Event>) returns (list: seq<Event>)
    requires NewPayments(db, s, es)
    ensures Lists(list, es) && PaidSet(Delivered(db, list).invoices) == LatestAndNamed(db, s, es)
  {
    Parts(db, es);
    var a := ListExists(Nameless(es));
    var b := ListExists(NamedOnly(es));
    list := a + b;
    ListsJoin(a, Nameless(es), b, NamedOnly(es));
    DeliveredJoin(db, a, b);
    StillNew(db, s, es, Nameless(es), a);
    var mid := Delivered(db, a);
    var taken := RunPays(db, s, Nameless(es), a);
    ApartPays(db, s, Nameless(es), mid.invoices, taken);
    NamedAlone(mid, s, NamedOnly(es), b);
    NamedByKeeps(db, mid, NamedOnly(es));
  }

  /** The named ones first: then the others take the latest of what is left. */
  lemma NamedFirst(db: Db, s: SubId, es: set<Event>) returns (list: seq<Event>, taken: set<InvoiceId>)
    requires NewPayments(db, s, es)
    ensures Lists(list, es) && |taken| <= |Nameless(es)|
    ensures var paid := PaidSet(Delivered(db, list).invoices);
            && paid == PaidSet(db.invoices) + NamedBy(db, es) + taken
            && (forall i :: i in taken ==> i in OpenOf(db.invoices, s) && i !in NamedBy(db, es))
            && (|taken| < |Nameless(es)| ==> OpenOf(db.invoices, s) <= paid)
  {
    Parts(db, es);
    var a := ListExists(NamedOnly(es));
    var b := ListExists(Nameless(es));
    list := a + b;
    ListsJoin(a, NamedOnly(es), b, Nameless(es));
    assert NamedOnly(es) + Nameless(es) == es;
    DeliveredJoin(db, a, b);
    StillNew(db, s, es, NamedOnly(es), a);
    var mid := Delivered(db, a);
    NamedAlone(db, s, NamedOnly(es), a);
    taken := RunPays(mid, s, Nameless(es), b);
    Parts(mid, es);
    StillOpen(db, mid, s);
  }

  lemma SameIsApart(db: Db, s: SubId, es: set<Event>, taken: set<InvoiceId>)
    requires |taken| <= |Nameless(es)| && PaidSet(db.invoices) + NamedBy(db, es) + taken == LatestAndNamed(db, s, es)
    requires forall i :: i in taken ==> i in OpenOf(db.invoices, s) && i !in NamedBy(db, es)
    requires |taken| < |Nameless(es)| ==> OpenOf(db.invoices, s) <= LatestAndNamed(db, s, es)
    ensures Apart(db, s, es)
  {
    var open, n := OpenOf(db.invoices, s), |Nameless(es)|;
    var latest := Latest(db.invoices, open, n);
    assert forall i :: i in open ==> i !in PaidSet(db.invoices);
    LatestCount(db.invoices, open, n);
    if |taken| == n {
      assert taken <= latest;
      SameSize(taken, latest);
    }
  }

  /**
   * New payments of one subscription, n of them naming no invoice, pay the same invoices in every order if and only if
   * none of the invoices they name is among the n latest open ones, or these and the named ones are all the open ones.
   */
  lemma NamelessRunIff(db: Db, s: SubId, es: set<Event>)
    requires NewPayments(db, s, es)
    ensures (forall a, b :: Lists(a, es) && Lists(b, es) ==>
              PaidSet(Delivered(db, a).invoices) == PaidSet(Delivered(db, b).invoices)) <==> Apart(db, s, es)
    ensures Apart(db, s, es) ==> forall a :: Lists(a, es) ==> PaidSet(Delivered(db, a).invoices) == LatestAndNamed(db, s, es)
  {
    var first := NamelessFirst(db, s, es);
    var last, taken := NamedFirst(db, s, es);
    if Apart(db, s, es) {
      forall a | Lists(a, es) ensures PaidSet(Delivered(db, a).invoices) == LatestAndNamed(db, s, es) {
        var t := RunPays(db, s, es, a);
        ApartPays(db, s, es, Delivered(db, a).invoices, t);
      }
    } else if PaidSet(Delivered(db, first).invoices) == PaidSet(Delivered(db, last).invoices) {
      SameIsApart(db, s, es, taken);
    }
  }
}
