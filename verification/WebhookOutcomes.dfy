/** Where overlapping deliveries of a set of events end: the payments, the statuses and the records. */
module WebhookOutcomes {
  import opened Wrappers
  import opened BillingWebhooks
  import opened WebhookRuns
  import opened WebhookCalls

  // ---------------------------------------------------------------- the payments

  ghost predicate InvoiceOk(start: Db, w: World, i: InvoiceId)
    requires i in start.invoices && i in w.db.invoices
  {
    w.db.invoices[i].providerRef == start.invoices[i].providerRef &&
    (w.db.invoices[i].status == InvoiceStatus.Paid <==> PaidAfter(start.invoices[i], w.landed.paying))
  }

  ghost predicate InvoicesOk(start: Db, w: World) {
    w.db.invoices.Keys == start.invoices.Keys && forall i :: i in start.invoices ==> InvoiceOk(start, w, i)
  }

  /** A delivery that is to pay an invoice is that of a payment which names it. */
  predicate PayOk(start: Db, call: Call) {
    var Call(e, pc) := call;
    !NamesNoInvoice(e) && (pc.Waking? || pc.Settling? ==> IsPayment(e)) &&
    (pc.Paying? ==> IsPayment(e) && e.invoiceRef != "" && HasInvoice(start.invoices, pc.invoice, e.invoiceRef))
  }

  ghost predicate PaysOk(start: Db, w: World) {
    forall c :: c in w.calls ==> PayOk(start, w.calls[c])
  }

  predicate LeavesInvoices(w: World, v: World) {
    v.db.invoices == w.db.invoices && v.landed.paying == w.landed.paying
  }

  lemma LeavesInvoicesOk(start: Db, w: World, v: World)
    requires InvoicesOk(start, w) && LeavesInvoices(w, v)
    ensures InvoicesOk(start, v)
  {
    forall i | i in start.invoices ensures InvoiceOk(start, v, i) {
      assert InvoiceOk(start, w, i);
    }
  }

  lemma PaysGrow(es: set<Event>, e: Event, ref: Option<string>)
    requires IsPayment(e) && e.invoiceRef != ""
    ensures SomePays(es + {e}, ref) <==> SomePays(es, ref) || ref == Some(e.invoiceRef)
  {
    if SomePays(es, ref) {
      var x :| x in es && IsPayment(x) && x.invoiceRef != "" && ref == Some(x.invoiceRef);
      assert x in es + {e};
    }
    assert e in es + {e};
  }

  lemma SameInvoice(start: Db, w: World, e: Event)
    requires UniqueRefs(start) && InvoicesOk(start, w)
    ensures InvoiceByRef(w.db.invoices, e.invoiceRef) == InvoiceByRef(start.invoices, e.invoiceRef)
    ensures forall i :: i in start.invoices && start.invoices[i].providerRef == Some(e.invoiceRef) <==> InvoiceByRef(start.invoices, e.invoiceRef) == Some(i)
  {
    forall i ensures HasInvoice(w.db.invoices, i, e.invoiceRef) <==> HasInvoice(start.invoices, i, e.invoiceRef) {
      if i in start.invoices { assert InvoiceOk(start, w, i); }
    }
    if i :| HasInvoice(start.invoices, i, e.invoiceRef) {
      assert HasInvoice(w.db.invoices, i, e.invoiceRef);
    }
    forall i ensures i in start.invoices && start.invoices[i].providerRef == Some(e.invoiceRef) <==> InvoiceByRef(start.invoices, e.invoiceRef) == Some(i) {
      if i in start.invoices && start.invoices[i].providerRef == Some(e.invoiceRef) {
        assert HasInvoice(start.invoices, i, e.invoiceRef);
      }
    }
  }

  /** A payment whose invoice does not exist or is paid already. */
  lemma PaysQuietly(start: Db, w: World, e: Event)
    requires UniqueRefs(start) && InvoicesOk(start, w) && IsPayment(e) && e.invoiceRef != ""
    requires var i := InvoiceByRef(w.db.invoices, e.invoiceRef); i.Some? ==> w.db.invoices[i.value].status == InvoiceStatus.Paid
    ensures InvoicesOk(start, PaidBy(w, e))
  {
    SameInvoice(start, w, e);
    forall i | i in start.invoices ensures InvoiceOk(start, PaidBy(w, e), i) {
      PaysGrow(w.landed.paying, e, start.invoices[i].providerRef);
      assert InvoiceOk(start, w, i);
    }
  }

  lemma PayWritten(start: Db, w: World, e: Event, i: InvoiceId)
    requires UniqueRefs(start) && InvoicesOk(start, w) && IsPayment(e) && e.invoiceRef != "" && HasInvoice(start.invoices, i, e.invoiceRef)
    ensures InvoicesOk(start, PaidBy(w.(db := WithPaid(w.db, i, e.paidAt)), e))
  {
    SameInvoice(start, w, e);
    var v := PaidBy(w.(db := WithPaid(w.db, i, e.paidAt)), e);
    forall x | x in start.invoices ensures InvoiceOk(start, v, x) {
      PaysGrow(w.landed.paying, e, start.invoices[x].providerRef);
      assert InvoiceOk(start, w, x);
    }
  }

  lemma GoInvoices(start: Db, w: World, c: CallId, f: Faults)
    requires UniqueRefs(start) && InvoicesOk(start, w) && PaysOk(start, w) && c in w.calls
    ensures InvoicesOk(start, Next(w, Go(c, f)))
  {
    var v := Next(w, Go(c, f));
    var Call(e, pc) := w.calls[c];
    assert PayOk(start, w.calls[c]);
    if LeavesInvoices(w, v) {
      LeavesInvoicesOk(start, w, v);
    } else if pc.Settling? {
      PaysQuietly(start, w, e);
      LeavesInvoicesOk(start, PaidBy(w, e), v);
    } else if pc.Paying? {
      PayWritten(start, w, e, pc.invoice);
      LeavesInvoicesOk(start, PaidBy(w.(db := WithPaid(w.db, pc.invoice, e.paidAt)), e), v);
    }
  }

  lemma OnePay(start: Db, w: World, c: CallId, f: Faults)
    requires UniqueRefs(start) && InvoicesOk(start, w) && c in w.calls && PayOk(start, w.calls[c])
    ensures var v := Next(w, Go(c, f)); c in v.calls ==> PayOk(start, v.calls[c])
  {
    SameInvoice(start, w, w.calls[c].event);
  }

  lemma GoPays(start: Db, w: World, c: CallId, f: Faults)
    requires UniqueRefs(start) && InvoicesOk(start, w) && PaysOk(start, w) && c in w.calls
    ensures PaysOk(start, Next(w, Go(c, f)))
  {
    GoMovesOnly(w, c, f);
    OnePay(start, w, c, f);
  }

  /** Every payment that is delivered names its invoice. */
  ghost predicate AllNamed(steps: seq<Step>) {
    forall i :: 0 <= i < |steps| && steps[i].Record? ==> !NamesNoInvoice(steps[i].event)
  }

  lemma {:induction false} PaymentsAlways(db: Db, steps: seq<Step>)
    requires UniqueRefs(db) && AllNamed(steps)
    ensures InvoicesOk(db, RunCalls(Begin(db), steps)) && PaysOk(db, RunCalls(Begin(db), steps))
    decreases |steps|
  {
    if steps == [] {
      forall i | i in db.invoices ensures InvoiceOk(db, Begin(db), i) {}
    } else {
      var w, s := RunCalls(Begin(db), steps[..|steps| - 1]), steps[|steps| - 1];
      PaymentsAlways(db, steps[..|steps| - 1]);
      if s.Go? && s.call in w.calls {
        GoInvoices(db, w, s.call, s.faults);
        GoPays(db, w, s.call, s.faults);
      } else if !s.Go? {
        LeavesInvoicesOk(db, w, Next(w, s));
      }
    }
  }

  // ---------------------------------------------------------------- the whole set of events

  function EventsOf(steps: seq<Step>): set<Event> {
    set i | 0 <= i < |steps| && steps[i].Record? :: steps[i].event
  }

  /** What has landed is of delivered events, and all that an applied event asks for has landed. */
  ghost predicate LandedOk(es: set<Event>, w: World) {
    Within(w.landed, es) && (forall c :: c in w.calls ==> w.calls[c].event in es) && (forall e :: e in w.done ==> HasLanded(w.landed, e))
  }

  lemma LandedStep(start: Db, es: set<Event>, w: World, s: Step)
    requires LandedOk(es, w) && PcsOk(start, w) && (s.Record? ==> s.event in es)
    ensures LandedOk(es, Next(w, s))
  {
    if s.Go? && s.call in w.calls {
      assert PcOk(start, w, w.calls[s.call]);
      GoLands(start, es, w, s.call, s.faults);
    }
  }

  lemma LandedMore(es: set<Event>, l: Landed, m: Landed, e: Event)
    requires Within(l, es) && e in es
    requires l.woken <= m.woken <= l.woken + {e} && l.ended <= m.ended <= l.ended + {e} && l.paying <= m.paying <= l.paying + {e}
    ensures Within(m, es)
    ensures forall x :: HasLanded(l, x) ==> HasLanded(m, x)
  {
  }

  lemma GoLands(start: Db, es: set<Event>, w: World, c: CallId, f: Faults)
    requires LandedOk(es, w) && c in w.calls && PcOk(start, w, w.calls[c])
    ensures LandedOk(es, Next(w, Go(c, f)))
  {
    var v := Next(w, Go(c, f));
    var e := w.calls[c].event;
    GoMovesOnly(w, c, f);
    GoDone(start, w, c, f);
    LandedMore(es, w.landed, v.landed, e);
    GoKeepsEvent(w, c, f);
  }

  lemma GoKeepsEvent(w: World, c: CallId, f: Faults)
    requires c in w.calls
    ensures var v := Next(w, Go(c, f)); c in v.calls ==> v.calls[c].event == w.calls[c].event
  {
  }

  /** What the event of one delivery adds to what has landed. */
  ghost predicate Adds(w: World, v: World, e: Event) {
    w.landed.woken <= v.landed.woken <= w.landed.woken + {e} &&
    w.landed.ended <= v.landed.ended <= w.landed.ended + {e} &&
    w.landed.paying <= v.landed.paying <= w.landed.paying + {e} &&
    (v.done == w.done || (v.done == w.done + {e} && HasLanded(v.landed, e)))
  }

  lemma RecordedDone(w: World, c: CallId, e: Event, f: Faults)
    requires c in w.calls && w.calls[c].event == e
    ensures Adds(w, AfterRecorded(w, c, e, f), e)
  {
  }

  lemma GoDone(start: Db, w: World, c: CallId, f: Faults)
    requires c in w.calls && PcOk(start, w, w.calls[c])
    ensures Adds(w, Next(w, Go(c, f)), w.calls[c].event)
  {
    if w.calls[c].pc.Recorded? {
      RecordedDone(w, c, w.calls[c].event, f);
    }
  }

  lemma {:induction false} LandedAlways(db: Db, steps: seq<Step>, es: set<Event>)
    requires UniqueRefs(db) && EventsOf(steps) <= es
    ensures LandedOk(es, RunCalls(Begin(db), steps))
    decreases |steps|
  {
    if steps != [] {
      var before, s := steps[..|steps| - 1], steps[|steps| - 1];
      forall e | e in EventsOf(before) ensures e in es {
        var i :| 0 <= i < |before| && before[i].Record? && before[i].event == e;
        assert steps[i].event in EventsOf(steps);
      }
      assert s.Record? ==> s.event in EventsOf(steps);
      LandedAlways(db, before, es);
      StatusesAlways(db, before);
      LandedStep(db, es, RunCalls(Begin(db), before), s);
    }
  }

  /** Every delivered event has been applied by one of its deliveries. */
  ghost predicate EachApplied(db: Db, steps: seq<Step>) {
    EventsOf(steps) <= RunCalls(Begin(db), steps).done
  }

  lemma SameSums(l: Landed, es: set<Event>, ref: Option<string>)
    requires Within(l, es) && forall e :: e in es ==> HasLanded(l, e)
    ensures SomeWakes(l.woken, ref) == SomeWakes(es, ref) && SomeEnds(l.ended, ref) == SomeEnds(es, ref) && SomePays(l.paying, ref) == SomePays(es, ref)
  {
  }

  /**
   * However deliveries overlap, are repeated and fail on the way: once every event has been applied, each subscription
   * has the status the set of events calls for if and only if no late write revived it; revived, it is active.
   */
  lemma OverlappedStatuses(db: Db, steps: seq<Step>, s: SubId)
    requires UniqueRefs(db) && EachApplied(db, steps) && s in db.subs
    ensures var w, es := RunCalls(Begin(db), steps), EventsOf(steps);
            && s in w.db.subs && (w.db.subs[s].status == StatusAfter(db.subs[s], es, es) <==> s !in w.late)
            && (s in w.late ==> w.db.subs[s].status == Active)
  {
    var w, es := RunCalls(Begin(db), steps), EventsOf(steps);
    LandedAlways(db, steps, es);
    SameSums(w.landed, es, db.subs[s].providerRef);
    StatusIff(db, steps, s);
  }

  /** And when every payment names its invoice, the paid invoices are those the set of events calls for, always. */
  lemma OverlappedPayments(db: Db, steps: seq<Step>, i: InvoiceId)
    requires UniqueRefs(db) && AllNamed(steps) && EachApplied(db, steps) && i in db.invoices
    ensures var w := RunCalls(Begin(db), steps);
            i in w.db.invoices && (w.db.invoices[i].status == InvoiceStatus.Paid <==> PaidAfter(db.invoices[i], EventsOf(steps)))
  {
    var w, es := RunCalls(Begin(db), steps), EventsOf(steps);
    LandedAlways(db, steps, es);
    SameSums(w.landed, es, db.invoices[i].providerRef);
    PaymentsAlways(db, steps);
    assert InvoiceOk(db, w, i);
  }

  /** Two interleavings of the same events pay the same invoices, and leave the same status where neither revived the subscription. */
  lemma OverlapOrderDoesNotMatter(db: Db, steps: seq<Step>, steps': seq<Step>)
    requires UniqueRefs(db) && EachApplied(db, steps) && EachApplied(db, steps') && EventsOf(steps) == EventsOf(steps')
    ensures var w, w' := RunCalls(Begin(db), steps), RunCalls(Begin(db), steps');
            forall s :: s in db.subs && s !in w.late && s !in w'.late ==>
              s in w.db.subs && s in w'.db.subs && w.db.subs[s] == w'.db.subs[s]
    ensures var w, w' := RunCalls(Begin(db), steps), RunCalls(Begin(db), steps');
            AllNamed(steps) && AllNamed(steps') ==> PaidSet(w.db.invoices) == PaidSet(w'.db.invoices)
  {
    var w, w' := RunCalls(Begin(db), steps), RunCalls(Begin(db), steps');
    forall s | s in db.subs && s !in w.late && s !in w'.late
      ensures s in w.db.subs && s in w'.db.subs && w.db.subs[s] == w'.db.subs[s]
    {
      OverlappedStatuses(db, steps, s);
      OverlappedStatuses(db, steps', s);
      StatusesAlways(db, steps);
      StatusesAlways(db, steps');
      assert SubOk(db, w, s) && SubOk(db, w', s);
    }
    if AllNamed(steps) && AllNamed(steps') {
      PaymentsAlways(db, steps);
      PaymentsAlways(db, steps');
      forall i ensures i in PaidSet(w.db.invoices) <==> i in PaidSet(w'.db.invoices) {
        if i in db.invoices {
          OverlappedPayments(db, steps, i);
          OverlappedPayments(db, steps', i);
        }
      }
    }
  }

  // ---------------------------------------------------------------- a delivery that nothing overlaps

  ghost function Gos(w: World, c: CallId, f: Faults, n: nat): World
    decreases n
  {
    if n == 0 then w else Gos(Next(w, Go(c, f)), c, f, n - 1)
  }

  lemma {:induction false} GosEnded(w: World, c: CallId, f: Faults, n: nat)
    requires c !in w.calls
    ensures Gos(w, c, f, n) == w
  {
    if n > 0 {
      GosEnded(w, c, f, n - 1);
    }
  }

  /** What is left of a delivery once a statement has failed. */
  lemma UndoingLeft(w: World, c: CallId, e: Event, f: Faults, n: nat)
    requires c in w.calls && w.calls[c] == Call(e, Undoing) && n >= 1
    ensures Gos(w, c, f, n).db == w.db.(seen := if f.undo then w.db.seen else w.db.seen - {e.id})
  {
    GosEnded(Next(w, Go(c, f)), c, f, n - 1);
  }

  lemma PayingLeft(w: World, c: CallId, e: Event, i: InvoiceId, f: Faults, n: nat)
    requires c in w.calls && w.calls[c] == Call(e, Paying(i)) && n >= 2 && i in w.db.invoices
    ensures Gos(w, c, f, n).db ==
            if f.pay then w.db.(seen := if f.undo then w.db.seen else w.db.seen - {e.id}) else WithPaid(w.db, i, e.paidAt)
  {
    if f.pay {
      UndoingLeft(Next(w, Go(c, f)), c, e, f, n - 1);
    } else {
      GosEnded(Next(w, Go(c, f)), c, f, n - 1);
    }
  }

  lemma SettlingLeft(w: World, c: CallId, e: Event, f: Faults, n: nat)
    requires c in w.calls && w.calls[c] == Call(e, Settling(NamedSub(w.db, e))) && n >= 3
    ensures var paid := Settled(w.db, e, f);
            Gos(w, c, f, n).db == if paid.Some? then paid.value else w.db.(seen := if f.undo then w.db.seen else w.db.seen - {e.id})
  {
    var v := Next(w, Go(c, f));
    if c !in v.calls {
      GosEnded(v, c, f, n - 1);
    } else if v.calls[c].pc.Undoing? {
      UndoingLeft(v, c, e, f, n - 1);
    } else {
      PayingLeft(v, c, e, v.calls[c].pc.invoice, f, n - 1);
    }
  }

  lemma SameNamed(a: Db, b: Db, e: Event)
    requires UniqueRefs(a) && a.subs.Keys == b.subs.Keys && forall s :: s in a.subs ==> a.subs[s].providerRef == b.subs[s].providerRef
    ensures NamedSub(a, e) == NamedSub(b, e)
  {
    assert forall s :: HasSub(a, s, e.providerRef) <==> HasSub(b, s, e.providerRef);
    if s :| HasSub(a, s, e.providerRef) {
      assert HasSub(b, s, e.providerRef);
    }
  }

  lemma WakingLeft(w: World, c: CallId, e: Event, f: Faults, n: nat)
    requires UniqueRefs(w.db) && OneUsablePerUser(w.db) && NamedSub(w.db, e).Some? && Wakes(w.db.subs[NamedSub(w.db, e).value].status)
    requires c in w.calls && w.calls[c] == Call(e, Waking(NamedSub(w.db, e).value)) && n >= 4
    ensures var active := WithStatus(w.db, NamedSub(w.db, e).value, Active);
            var undone := if f.undo then w.db.seen else w.db.seen - {e.id};
            Gos(w, c, f, n).db == if f.setStatus then w.db.(seen := undone)
                                  else if Settled(active, e, f).Some? then Settled(active, e, f).value else active.(seen := undone)
  {
    var s := NamedSub(w.db, e).value;
    assert !Refused(w.db, s);
    if f.setStatus {
      UndoingLeft(Next(w, Go(c, f)), c, e, f, n - 1);
    } else {
      SameNamed(w.db, WithStatus(w.db, s, Active), e);
      SettlingLeft(Next(w, Go(c, f)), c, e, f, n - 1);
    }
  }

  lemma EndingLeft(w: World, c: CallId, e: Event, s: SubId, f: Faults, n: nat)
    requires c in w.calls && w.calls[c] == Call(e, Ending(s)) && n >= 2 && s in w.db.subs
    ensures Gos(w, c, f, n).db ==
            if f.setStatus then w.db.(seen := if f.undo then w.db.seen else w.db.seen - {e.id}) else WithStatus(w.db, s, Canceled)
  {
    if f.setStatus {
      UndoingLeft(Next(w, Go(c, f)), c, e, f, n - 1);
    } else {
      GosEnded(Next(w, Go(c, f)), c, f, n - 1);
    }
  }

  lemma RecordedLeft(w: World, c: CallId, e: Event, f: Faults, n: nat)
    requires UniqueRefs(w.db) && OneUsablePerUser(w.db) && c in w.calls && w.calls[c] == Call(e, Recorded) && n >= 5
    ensures var (after, ok) := AfterApply(w.db, e, f);
            Gos(w, c, f, n).db == if ok then after else after.(seen := if f.undo then w.db.seen else w.db.seen - {e.id})
  {
    var v := Next(w, Go(c, f));
    if IsPayment(e) {
      PaymentLeft(w, v, c, e, f, n);
    } else if c !in v.calls {
      GosEnded(v, c, f, n - 1);
    } else if v.calls[c].pc.Undoing? {
      UndoingLeft(v, c, e, f, n - 1);
    } else {
      EndingLeft(v, c, e, v.calls[c].pc.sub, f, n - 1);
    }
  }

  lemma PaymentLeft(w: World, v: World, c: CallId, e: Event, f: Faults, n: nat)
    requires UniqueRefs(w.db) && OneUsablePerUser(w.db) && IsPayment(e) && n >= 5
    requires c in w.calls && w.calls[c] == Call(e, Recorded) && v == AfterRecorded(w, c, e, f)
    ensures var (after, ok) := AfterApply(w.db, e, f);
            Gos(v, c, f, n - 1).db == if ok then after else after.(seen := if f.undo then w.db.seen else w.db.seen - {e.id})
  {
    if v.calls[c].pc.Undoing? {
      UndoingLeft(v, c, e, f, n - 1);
    } else if v.calls[c].pc.Waking? {
      WakingLeft(v, c, e, f, n - 1);
    } else {
      SettlingLeft(v, c, e, f, n - 1);
    }
  }

  /** A delivery whose statements follow one another undisturbed does what Deliver, and so HandleWebhook, does. */
  lemma UndisturbedIsDeliver(db: Db, c: CallId, e: Event, f: Faults)
    requires UniqueRefs(db) && OneUsablePerUser(db)
    ensures Gos(Next(Begin(db), Record(c, e, f.record)), c, f, 5).db == Deliver(db, e, f).0
  {
    var w := Begin(db);
    var v := Next(w, Record(c, e, f.record));
    if FirstAnswer(w, Record(c, e, f.record)).Some? {
      GosEnded(w, c, f, 5);
    } else {
      RecordedLeft(v, c, e, f, 5);
      ApplyIgnoresRecord(db, db.seen + {e.id}, e, f);
      assert db.seen + {e.id} - {e.id} == db.seen;
    }
  }

  lemma SettledIgnoresRecord(db: Db, seen: set<string>, e: Event, f: Faults)
    requires UniqueRefs(db)
    ensures Settled(db.(seen := seen), e, f) == if Settled(db, e, f).None? then None else Some(Settled(db, e, f).value.(seen := seen))
  {
    SameNamed(db, db.(seen := seen), e);
  }

  lemma ApplyIgnoresRecord(db: Db, seen: set<string>, e: Event, f: Faults)
    requires UniqueRefs(db)
    ensures AfterApply(db.(seen := seen), e, f) == (AfterApply(db, e, f).0.(seen := seen), AfterApply(db, e, f).1)
  {
    SameNamed(db, db.(seen := seen), e);
    if IsPayment(e) && Activated(db, e, f).Some? {
      var active := Activated(db, e, f).value;
      assert Activated(db.(seen := seen), e, f) == Some(active.(seen := seen));
      SettledIgnoresRecord(active, seen, e, f);
    }
  }

  // ---------------------------------------------------------------- two deliveries that overlap

  lemma OneMore(w: World, steps: seq<Step>, s: Step)
    ensures RunCalls(w, steps + [s]) == Next(RunCalls(w, steps), s)
  {
    assert (steps + [s])[..|steps|] == steps;
  }

  const LATE_START := Db(map[1 := Subscription(1, PastDue, Some("sub"))], map[], {})
  const LATE_PAYMENT := Event("p", "invoice.paid", "sub", "inv", 0)
  const LATE_CANCELLATION := Event("c", "subscription.canceled", "sub", "", 0)

  /** The payment reads the subscription, the cancellation is applied, and then the payment writes. */
  const LATE_READS: seq<Step> := [Record(0, LATE_PAYMENT, false), Go(0, NO_FAULTS)]
  const LATE_ENDING: seq<Step> := LATE_READS + [Record(1, LATE_CANCELLATION, false)] + [Go(1, NO_FAULTS)]
  const LATE_CANCELS: seq<Step> := LATE_ENDING + [Go(1, NO_FAULTS)]
  const LATE_WRITES: seq<Step> := LATE_CANCELS + [Go(0, NO_FAULTS)] + [Go(0, NO_FAULTS)]

  lemma LateReads()
    ensures var w := RunCalls(Begin(LATE_START), LATE_READS);
            w == Begin(LATE_START).(db := LATE_START.(seen := {"p"}), calls := map[0 := Call(LATE_PAYMENT, Waking(1))])
  {
    var w0 := Begin(LATE_START);
    var w1 := Next(w0, Record(0, LATE_PAYMENT, false));
    OneMore(w0, [], Record(0, LATE_PAYMENT, false));
    OneMore(w0, [Record(0, LATE_PAYMENT, false)], Go(0, NO_FAULTS));
    assert [] + [Record(0, LATE_PAYMENT, false)] == [Record(0, LATE_PAYMENT, false)];
    assert LATE_READS == [Record(0, LATE_PAYMENT, false)] + [Go(0, NO_FAULTS)];
    NotBlank();
    assert HasSub(w1.db, 1, "sub");
  }

  lemma NotBlank()
    ensures !Blank("p") && !Blank("c") && !Blank("invoice.paid") && !Blank("subscription.canceled")
  {
    assert "p"[0] == 'p' && "c"[0] == 'c' && "invoice.paid"[0] == 'i' && "subscription.canceled"[0] == 's';
  }

  lemma LateEnding()
    ensures var w := RunCalls(Begin(LATE_START), LATE_ENDING);
            w == Begin(LATE_START).(db := LATE_START.(seen := {"p", "c"}),
                                    calls := map[0 := Call(LATE_PAYMENT, Waking(1)), 1 := Call(LATE_CANCELLATION, Ending(1))])
  {
    LateReads();
    NotBlank();
    var r := RunCalls(Begin(LATE_START), LATE_READS);
    var w1 := Next(r, Record(1, LATE_CANCELLATION, false));
    OneMore(Begin(LATE_START), LATE_READS, Record(1, LATE_CANCELLATION, false));
    OneMore(Begin(LATE_START), LATE_READS + [Record(1, LATE_CANCELLATION, false)], Go(1, NO_FAULTS));
    assert HasSub(w1.db, 1, "sub");
    assert w1.db.seen == {"p", "c"};
  }

  lemma LateCancels()
    ensures var w := RunCalls(Begin(LATE_START), LATE_CANCELS);
            && w.db == Db(map[1 := Subscription(1, Canceled, Some("sub"))], map[], {"p", "c"})
            && w.calls == map[0 := Call(LATE_PAYMENT, Waking(1))] && w.done == {LATE_CANCELLATION}
            && w.landed == Landed({}, {LATE_CANCELLATION}, {}) && w.late == {}
  {
    LateEnding();
    var w := RunCalls(Begin(LATE_START), LATE_ENDING);
    OneMore(Begin(LATE_START), LATE_ENDING, Go(1, NO_FAULTS));
    var v := Next(w, Go(1, NO_FAULTS));
    assert v == AfterEnding(w, 1, LATE_CANCELLATION, 1, NO_FAULTS);
    assert v.calls == map[0 := Call(LATE_PAYMENT, Waking(1))];
    assert v.late == {};
  }

  /** Both events are applied, and the cancelled subscription ends active. */
  lemma LateHappens()
    ensures var w := RunCalls(Begin(LATE_START), LATE_WRITES);
            && w.done == {LATE_PAYMENT, LATE_CANCELLATION} && w.calls == map[]
            && 1 in w.db.subs && w.db.subs[1].status == Active && Expected(LATE_START, w, 1) == Canceled
  {
    LateCancels();
    var r := RunCalls(Begin(LATE_START), LATE_CANCELS);
    OneMore(Begin(LATE_START), LATE_CANCELS, Go(0, NO_FAULTS));
    OneMore(Begin(LATE_START), LATE_CANCELS + [Go(0, NO_FAULTS)], Go(0, NO_FAULTS));
    var w1 := Next(r, Go(0, NO_FAULTS));
    assert w1.db.subs[1].status == Active && w1.calls[0] == Call(LATE_PAYMENT, Settling(Some(1)));
    var w2 := Next(w1, Go(0, NO_FAULTS));
    assert w2.calls == map[];
    assert LATE_CANCELLATION in w2.landed.ended && Wants(LATE_CANCELLATION, Some("sub"));
  }

  /** Two payments that name no invoice and read it before either pays: both are applied, and one invoice is paid. */
  lemma OneInvoiceForTwo(w: World, c: CallId, d: CallId, e: Event, e': Event, s: SubId)
    requires c != d && c in w.calls && d in w.calls && w.calls[c] == Call(e, Settling(Some(s))) && w.calls[d] == Call(e', Settling(Some(s)))
    requires e.invoiceRef == "" && e'.invoiceRef == "" && LatestOpen(w.db.invoices, s).Some?
    ensures var v := Next(Next(Next(Next(w, Go(c, NO_FAULTS)), Go(d, NO_FAULTS)), Go(c, NO_FAULTS)), Go(d, NO_FAULTS));
            && v.done == w.done + {e, e'} && PaidSet(v.db.invoices) == PaidSet(w.db.invoices) + {LatestOpen(w.db.invoices, s).value}
  {
    var i := LatestOpen(w.db.invoices, s).value;
    var w1 := At(w, c, Paying(i));
    var w2 := At(w1, d, Paying(i));
    assert Next(w, Go(c, NO_FAULTS)) == w1 && Next(w1, Go(d, NO_FAULTS)) == w2;
    var w3 := AfterPaying(w2, c, e, i, NO_FAULTS);
    assert Next(w2, Go(c, NO_FAULTS)) == w3;
    assert w3.done == w.done + {e} && w3.calls[d] == Call(e', Paying(i));
    assert Next(w3, Go(d, NO_FAULTS)) == AfterPaying(w3, d, e', i, NO_FAULTS);
  }

  // ---------------------------------------------------------------- what a duplicate means

  /**
   * A delivery is answered as a duplicate when its event was recorded before the start, or has been applied, or is
   * being carried out by exactly one other delivery, or is stuck; of the last three it is only one.
   */
  lemma DuplicateMeans(db: Db, steps: seq<Step>, s: Step)
    requires s.Record? && FirstAnswer(RunCalls(Begin(db), steps), s) == Some(Duplicate) && s.event.id !in db.seen
    ensures var w, id := RunCalls(Begin(db), steps), s.event.id;
            && (id in w.applied || id in w.stuck || InProgress(w, id))
            && !(id in w.applied && id in w.stuck) && !(id in w.applied && InProgress(w, id)) && !(id in w.stuck && InProgress(w, id))
  {
    RecordsAlways(db, steps);
    var w, id := RunCalls(Begin(db), steps), s.event.id;
    if c :| Busy(w, c, id) {
      assert BusyOk(w, c);
    }
  }

  /** A duplicate may be answered while the first delivery still goes on to fail: then the event is neither applied nor recorded. */
  lemma DuplicateOfAFailure(db: Db, e: Event, f: Faults)
    requires IsPayment(e) && !Blank(e.id) && e.providerRef != "" && e.id !in db.seen && f.getSub && !f.undo
    ensures var recorded := Next(Begin(db), Record(0, e, false));
            var failed := Next(Next(recorded, Go(0, f)), Go(0, f));
            && FirstAnswer(recorded, Record(1, e, false)) == Some(Duplicate) && Next(recorded, Record(1, e, false)) == recorded
            && failed == Begin(db)
  {
    assert !Blank(e.kind) by { assert e.kind[0] == 'c' || e.kind[0] == 'i'; }
    var recorded := Next(Begin(db), Record(0, e, false));
    assert Next(recorded, Go(0, f)).calls[0] == Call(e, Undoing);
    assert db.seen + {e.id} - {e.id} == db.seen;
    var failed := Next(Next(recorded, Go(0, f)), Go(0, f));
    assert failed.calls == map[];
  }
}
