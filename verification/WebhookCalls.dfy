/**
 Webhook deliveries that overlap: each database statement of a delivery is a step of its own, and the steps of
 different deliveries may come in any order. A delivery may also stop between two statements.

 All fields but `db` and `calls` are history; no step's effect on the rows reads them.
 */
module WebhookCalls {
  import opened Wrappers
  import opened BillingWebhooks
  import opened WebhookRuns

  type CallId = nat

  /** The statement a delivery makes next. */
  datatype Pc =
    | Recorded                     // the event is recorded; the subscription it names is read next
    | Waking(sub: SubId)           // the subscription was read usable but not active; it is set active next
    | Settling(named: Option<SubId>) // the invoice is read next
    | Paying(invoice: InvoiceId)   // the invoice was read and is to be paid; it is marked paid next
    | Ending(sub: SubId)           // the subscription was read; it is set canceled next
    | Undoing                      // a statement failed; the record of the event is deleted next

  datatype Call = Call(event: Event, pc: Pc)

  /**
   * `late`: subscriptions that a payment's status write found finished, and that were not cancelled since.
   * `done` and `applied`: the events that were applied, and how often each id was.
   * `stuck`: events whose delivery stopped, or could not delete the record.
   */
  datatype World = World(db: Db, calls: map<CallId, Call>, landed: Landed, late: set<SubId>, done: set<Event>,
                         applied: multiset<string>, stuck: set<string>)

  /** Record begins a delivery; Go makes the next statement of one, which `faults` says whether it fails. */
  datatype Step = Record(call: CallId, event: Event, fails: bool) | Go(call: CallId, faults: Faults) | Stop(call: CallId)

  function Begin(db: Db): World {
    World(db, map[], Landed({}, {}, {}), {}, {}, multiset{}, {})
  }

  function At(w: World, c: CallId, pc: Pc): World
    requires c in w.calls
  {
    w.(calls := w.calls[c := w.calls[c].(pc := pc)])
  }

  function Finished(w: World, c: CallId): World
    requires c in w.calls
  {
    w.(calls := w.calls - {c}, done := w.done + {w.calls[c].event}, applied := w.applied + multiset{w.calls[c].event.id})
  }

  function WokenBy(w: World, e: Event): World {
    w.(landed := w.landed.(woken := w.landed.woken + {e}))
  }

  function EndedBy(w: World, e: Event): World {
    w.(landed := w.landed.(ended := w.landed.ended + {e}))
  }

  function PaidBy(w: World, e: Event): World {
    w.(landed := w.landed.(paying := w.landed.paying + {e}))
  }

  // ---------------------------------------------------------------- the statements

  /** The answer to a delivery before anything is applied; None when it goes on to apply the event. */
  function FirstAnswer(w: World, s: Step): Option<Answer>
    requires s.Record?
  {
    if Blank(s.event.id) || Blank(s.event.kind) then Some(Invalid)
    else if s.fails then Some(Failed)
    else if s.event.id in w.db.seen then Some(Duplicate)
    else None
  }

  ghost function AfterRecorded(w: World, c: CallId, e: Event, f: Faults): World
    requires c in w.calls
  {
    if IsPayment(e) then
      if e.providerRef != "" && f.getSub then At(w, c, Undoing)
      else
        var s := NamedSub(w.db, e);
        if s.Some? && Wakes(w.db.subs[s.value].status) then At(w, c, Waking(s.value))
        else At(WokenBy(w, e), c, Settling(s))
    else if IsCancellation(e) then
      if e.providerRef != "" && f.getSub then At(w, c, Undoing)
      else
        var s := NamedSub(w.db, e);
        if s.Some? then At(w, c, Ending(s.value)) else Finished(EndedBy(w, e), c)
    else Finished(w, c)
  }

  /** A second usable subscription of one user is refused by the database (migrations/0009_billing.sql:44-45). */
  ghost predicate Refused(db: Db, s: SubId) {
    exists x :: x in db.subs && s in db.subs && x != s && db.subs[x].user == db.subs[s].user && db.subs[x].status.Usable()
  }

  ghost function AfterWaking(w: World, c: CallId, e: Event, s: SubId, f: Faults): World
    requires c in w.calls
  {
    if s !in w.db.subs || f.setStatus || Refused(w.db, s) then At(w, c, Undoing)
    else
      var v := w.(db := WithStatus(w.db, s, Active), late := if w.db.subs[s].status.Usable() then w.late else w.late + {s});
      At(WokenBy(v, e), c, Settling(Some(s)))
  }

  function AfterEnding(w: World, c: CallId, e: Event, s: SubId, f: Faults): World
    requires c in w.calls
  {
    if s !in w.db.subs || f.setStatus then At(w, c, Undoing)
    else Finished(EndedBy(w.(db := WithStatus(w.db, s, Canceled), late := w.late - {s}), e), c)
  }

  ghost function AfterSettling(w: World, c: CallId, e: Event, sub: Option<SubId>, f: Faults): World
    requires c in w.calls
  {
    if e.invoiceRef != "" then
      if f.getInvoice then At(w, c, Undoing)
      else
        var i := InvoiceByRef(w.db.invoices, e.invoiceRef);
        if i.Some? && w.db.invoices[i.value].status != InvoiceStatus.Paid then At(w, c, Paying(i.value))
        else Finished(PaidBy(w, e), c)
    else if sub.None? then Finished(PaidBy(w, e), c)
    else if f.getInvoice then At(w, c, Undoing)
    else
      var i := LatestOpen(w.db.invoices, sub.value);
      if i.Some? then At(w, c, Paying(i.value)) else Finished(PaidBy(w, e), c)
  }

  function AfterPaying(w: World, c: CallId, e: Event, i: InvoiceId, f: Faults): World
    requires c in w.calls
  {
    if i !in w.db.invoices || f.pay then At(w, c, Undoing)
    else Finished(PaidBy(w.(db := WithPaid(w.db, i, e.paidAt)), e), c)
  }

  function AfterUndoing(w: World, c: CallId, e: Event, f: Faults): World {
    if f.undo then w.(calls := w.calls - {c}, stuck := w.stuck + {e.id})
    else w.(calls := w.calls - {c}, db := w.db.(seen := w.db.seen - {e.id}))
  }

  ghost function Next(w: World, s: Step): World {
    match s
    case Record(c, e, fails) =>
      if c in w.calls || FirstAnswer(w, s).Some? then w
      else w.(db := w.db.(seen := w.db.seen + {e.id}), calls := w.calls[c := Call(e, Recorded)])
    case Go(c, f) =>
      if c !in w.calls then w
      else
        var Call(e, pc) := w.calls[c];
        (match pc
         case Recorded => AfterRecorded(w, c, e, f)
         case Waking(sub) => AfterWaking(w, c, e, sub, f)
         case Settling(sub) => AfterSettling(w, c, e, sub, f)
         case Paying(i) => AfterPaying(w, c, e, i, f)
         case Ending(sub) => AfterEnding(w, c, e, sub, f)
         case Undoing => AfterUndoing(w, c, e, f))
    case Stop(c) =>
      if c !in w.calls then w else w.(calls := w.calls - {c}, stuck := w.stuck + {w.calls[c].event.id})
  }

  ghost function RunCalls(w: World, steps: seq<Step>): World
    decreases |steps|
  {
    if steps == [] then w else Next(RunCalls(w, steps[..|steps| - 1]), steps[|steps| - 1])
  }

  // ---------------------------------------------------------------- one event, one application

  /** Call c is carrying out the event. */
  predicate Busy(w: World, c: CallId, id: string) {
    c in w.calls && w.calls[c].event.id == id
  }

  ghost predicate InProgress(w: World, id: string) {
    exists c :: Busy(w, c, id)
  }

  ghost predicate BusyOk(w: World, c: CallId)
    requires c in w.calls
  {
    var id := w.calls[c].event.id;
    id !in w.applied && id !in w.stuck && id in w.db.seen && forall d :: Busy(w, d, id) ==> d == c
  }

  /** No two deliveries carry out the same event, and of applied, in progress and stuck an event is at most one. */
  ghost predicate OneEach(w: World) {
    (forall c :: c in w.calls ==> BusyOk(w, c)) &&
    (forall id :: id in w.applied ==> w.applied[id] == 1 && id !in w.stuck && id in w.db.seen) &&
    (forall id :: id in w.stuck ==> id in w.db.seen)
  }

  /** Every record is accounted for. */
  ghost predicate Accounted(start: set<string>, w: World) {
    forall id :: id in w.db.seen ==> id in start || id in w.applied || id in w.stuck || InProgress(w, id)
  }

  /** What a step does to the records: begins a delivery, goes on with one, or ends one in one of three ways. */
  predicate Begins(w: World, v: World, c: CallId, e: Event) {
    c !in w.calls && e.id !in w.db.seen && v.calls == w.calls[c := Call(e, Recorded)] &&
    v.db.seen == w.db.seen + {e.id} && v.applied == w.applied && v.stuck == w.stuck
  }

  predicate GoesOn(w: World, v: World) {
    v.calls.Keys == w.calls.Keys && (forall c :: c in w.calls ==> v.calls[c].event == w.calls[c].event) &&
    v.db.seen == w.db.seen && v.applied == w.applied && v.stuck == w.stuck
  }

  predicate Applies(w: World, v: World, c: CallId) {
    c in w.calls && v.calls == w.calls - {c} && v.db.seen == w.db.seen &&
    v.applied == w.applied + multiset{w.calls[c].event.id} && v.stuck == w.stuck
  }

  predicate Undoes(w: World, v: World, c: CallId) {
    c in w.calls && v.calls == w.calls - {c} && v.db.seen == w.db.seen - {w.calls[c].event.id} &&
    v.applied == w.applied && v.stuck == w.stuck
  }

  predicate Sticks(w: World, v: World, c: CallId) {
    c in w.calls && v.calls == w.calls - {c} && v.db.seen == w.db.seen &&
    v.applied == w.applied && v.stuck == w.stuck + {w.calls[c].event.id}
  }

  predicate RecordsStep(w: World, v: World, s: Step) {
    v == w || (s.Record? && Begins(w, v, s.call, s.event)) || GoesOn(w, v) || Applies(w, v, s.call) || Undoes(w, v, s.call) || Sticks(w, v, s.call)
  }

  predicate GoesOnOrEnds(w: World, v: World, c: CallId) {
    GoesOn(w, v) || Applies(w, v, c) || Undoes(w, v, c) || Sticks(w, v, c)
  }

  lemma AtGoesOn(w: World, v: World, c: CallId, pc: Pc)
    requires c in w.calls && v.calls == w.calls && v.db.seen == w.db.seen && v.applied == w.applied && v.stuck == w.stuck
    ensures GoesOnOrEnds(w, At(v, c, pc), c) && GoesOnOrEnds(w, Finished(v, c), c)
  {
  }

  lemma RecordedRecords(w: World, c: CallId, e: Event, f: Faults)
    requires c in w.calls && w.calls[c].event == e
    ensures GoesOnOrEnds(w, AfterRecorded(w, c, e, f), c)
  {
    forall p ensures GoesOnOrEnds(w, At(w, c, p), c) && GoesOnOrEnds(w, At(WokenBy(w, e), c, p), c) {
      AtGoesOn(w, w, c, p);
      AtGoesOn(w, WokenBy(w, e), c, p);
    }
    AtGoesOn(w, w, c, Undoing);
    AtGoesOn(w, EndedBy(w, e), c, Undoing);
  }

  lemma SettlingRecords(w: World, c: CallId, e: Event, named: Option<SubId>, f: Faults)
    requires c in w.calls && w.calls[c].event == e
    ensures GoesOnOrEnds(w, AfterSettling(w, c, e, named, f), c)
  {
    forall p ensures GoesOnOrEnds(w, At(w, c, p), c) {
      AtGoesOn(w, w, c, p);
    }
    AtGoesOn(w, PaidBy(w, e), c, Undoing);
  }

  lemma GoRecords(w: World, c: CallId, f: Faults)
    requires c in w.calls
    ensures GoesOnOrEnds(w, Next(w, Go(c, f)), c)
  {
    var Call(e, pc) := w.calls[c];
    match pc
    case Recorded => RecordedRecords(w, c, e, f);
    case Settling(named) => SettlingRecords(w, c, e, named, f);
    case _ =>
  }

  lemma StepRecords(w: World, s: Step)
    ensures RecordsStep(w, Next(w, s), s)
  {
    if s.Go? && s.call in w.calls {
      GoRecords(w, s.call, s.faults);
    }
  }

  lemma OneEachStep(start: set<string>, w: World, v: World, s: Step)
    requires OneEach(w) && Accounted(start, w) && RecordsStep(w, v, s)
    ensures OneEach(v) && Accounted(start, v)
  {
    if s.Record? && Begins(w, v, s.call, s.event) {
      OneEachBegins(start, w, v, s.call, s.event);
    } else if GoesOn(w, v) {
      assert forall c, id :: Busy(v, c, id) <==> Busy(w, c, id);
      assert forall c :: c in v.calls ==> BusyOk(w, c);
    } else if v != w {
      OneEachEnds(start, w, v, s.call);
    }
  }

  lemma OneEachBegins(start: set<string>, w: World, v: World, c: CallId, e: Event)
    requires OneEach(w) && Accounted(start, w) && Begins(w, v, c, e)
    ensures OneEach(v) && Accounted(start, v)
  {
    assert forall x :: x in w.calls ==> BusyOk(w, x) && w.calls[x].event.id != e.id;
    assert forall d, id :: Busy(v, d, id) <==> Busy(w, d, id) || (d == c && id == e.id);
    forall d | d in v.calls ensures BusyOk(v, d) {
      if d != c {
        assert BusyOk(w, d);
      }
    }
    assert Busy(v, c, e.id);
    forall id | id in v.db.seen && id !in start && id !in v.applied && id !in v.stuck ensures InProgress(v, id) {
      if id != e.id {
        var d :| Busy(w, d, id);
        assert Busy(v, d, id);
      }
    }
  }

  lemma OneEachEnds(start: set<string>, w: World, v: World, c: CallId)
    requires OneEach(w) && Accounted(start, w) && (Applies(w, v, c) || Undoes(w, v, c) || Sticks(w, v, c))
    ensures OneEach(v) && Accounted(start, v)
  {
    var ended := w.calls[c].event.id;
    assert BusyOk(w, c);
    assert forall d, id :: Busy(v, d, id) <==> Busy(w, d, id) && d != c;
    forall d | d in v.calls ensures BusyOk(v, d) {
      assert BusyOk(w, d) && Busy(w, d, w.calls[d].event.id);
      assert w.calls[d].event.id != ended;
    }
    forall id | id in v.db.seen && id !in start && id !in v.applied && id !in v.stuck ensures InProgress(v, id) {
      var d :| Busy(w, d, id);
      assert Busy(v, d, id);
    }
  }

  /**
   * In every interleaving each event is applied at most once, by at most one delivery at a time, and a record
   * that was not there at the start means one of three things: the event was applied, a delivery of it is still
   * in progress, or its delivery stopped before it could be applied or undone.
   */
  lemma {:induction false} RecordsAlways(db: Db, steps: seq<Step>)
    ensures OneEach(RunCalls(Begin(db), steps)) && Accounted(db.seen, RunCalls(Begin(db), steps))
    decreases |steps|
  {
    if steps != [] {
      var before := RunCalls(Begin(db), steps[..|steps| - 1]);
      RecordsAlways(db, steps[..|steps| - 1]);
      StepRecords(before, steps[|steps| - 1]);
      OneEachStep(db.seen, before, Next(before, steps[|steps| - 1]), steps[|steps| - 1]);
    }
  }

  // ---------------------------------------------------------------- the statuses

  ghost function Shown(start: Db, w: World, s: SubId): SubStatus
    requires s in start.subs
  {
    if s in w.late then Active else Expected(start, w, s)
  }

  /** The status that what has landed leads to when deliveries do not overlap. */
  ghost function Expected(start: Db, w: World, s: SubId): SubStatus
    requires s in start.subs
  {
    StatusAfter(start.subs[s], w.landed.woken, w.landed.ended)
  }

  ghost predicate SubOk(start: Db, w: World, s: SubId)
    requires s in start.subs && s in w.db.subs
  {
    w.db.subs[s] == start.subs[s].(status := Shown(start, w, s)) &&
    (s in w.late ==> Wakes(start.subs[s].status) && SomeEnds(w.landed.ended, start.subs[s].providerRef))
  }

  ghost predicate SubsOk(start: Db, w: World) {
    w.db.subs.Keys == start.subs.Keys && forall s :: s in start.subs ==> SubOk(start, w, s)
  }

  /** What a delivery in progress has read still holds of the start. */
  ghost predicate PcOk(start: Db, w: World, call: Call) {
    var Call(e, pc) := call;
    match pc
    case Recorded => true
    case Waking(s) => IsPayment(e) && HasSub(start, s, e.providerRef) && e.providerRef != "" && Wakes(start.subs[s].status)
    case Settling(_) => IsPayment(e) && e in w.landed.woken
    case Paying(_) => IsPayment(e) && e in w.landed.woken
    case Ending(s) => IsCancellation(e) && HasSub(start, s, e.providerRef) && e.providerRef != ""
    case Undoing => true
  }

  ghost predicate PcsOk(start: Db, w: World) {
    forall c :: c in w.calls ==> PcOk(start, w, w.calls[c])
  }

  lemma WakesGrow(es: set<Event>, e: Event, ref: Option<string>)
    requires IsPayment(e)
    ensures SomeWakes(es + {e}, ref) <==> SomeWakes(es, ref) || Wants(e, ref)
  {
    if SomeWakes(es, ref) {
      var x :| x in es && IsPayment(x) && Wants(x, ref);
      assert x in es + {e};
    }
    assert e in es + {e};
  }

  lemma EndsGrow(es: set<Event>, e: Event, ref: Option<string>)
    requires IsCancellation(e)
    ensures SomeEnds(es + {e}, ref) <==> SomeEnds(es, ref) || Wants(e, ref)
  {
    if SomeEnds(es, ref) {
      var x :| x in es && IsCancellation(x) && Wants(x, ref);
      assert x in es + {e};
    }
    assert e in es + {e};
  }

  /** The references are those of the start. */
  lemma SameSub(start: Db, w: World, e: Event)
    requires UniqueRefs(start) && SubsOk(start, w)
    ensures NamedSub(w.db, e) == NamedSub(start, e)
    ensures forall s :: s in start.subs && Wants(e, start.subs[s].providerRef) <==> NamedSub(start, e) == Some(s)
  {
    assert forall s :: HasSub(w.db, s, e.providerRef) <==> HasSub(start, s, e.providerRef);
    if s :| HasSub(start, s, e.providerRef) {
      assert HasSub(w.db, s, e.providerRef);
    }
    forall s ensures s in start.subs && Wants(e, start.subs[s].providerRef) <==> NamedSub(start, e) == Some(s) {
      if s in start.subs && Wants(e, start.subs[s].providerRef) {
        assert HasSub(start, s, e.providerRef);
      }
    }
  }

  /** A payment that finds nothing to activate. */
  lemma WakesQuietly(start: Db, w: World, e: Event)
    requires UniqueRefs(start) && SubsOk(start, w) && IsPayment(e)
    requires NamedSub(w.db, e).Some? ==> !Wakes(w.db.subs[NamedSub(w.db, e).value].status)
    ensures SubsOk(start, WokenBy(w, e))
  {
    SameSub(start, w, e);
    forall s | s in start.subs ensures SubOk(start, WokenBy(w, e), s) {
      WakesGrow(w.landed.woken, e, start.subs[s].providerRef);
      assert SubOk(start, w, s);
    }
  }

  /** A cancellation that names no subscription. */
  lemma EndsQuietly(start: Db, w: World, e: Event)
    requires UniqueRefs(start) && SubsOk(start, w) && IsCancellation(e) && NamedSub(w.db, e).None?
    ensures SubsOk(start, EndedBy(w, e))
  {
    SameSub(start, w, e);
    forall s | s in start.subs ensures SubOk(start, EndedBy(w, e), s) {
      EndsGrow(w.landed.ended, e, start.subs[s].providerRef);
      assert SubOk(start, w, s);
    }
  }

  lemma WakeWritten(start: Db, w: World, e: Event, s: SubId)
    requires UniqueRefs(start) && SubsOk(start, w) && IsPayment(e)
    requires e.providerRef != "" && HasSub(start, s, e.providerRef) && Wakes(start.subs[s].status)
    ensures var v := w.(db := WithStatus(w.db, s, Active), late := if w.db.subs[s].status.Usable() then w.late else w.late + {s});
            SubsOk(start, WokenBy(v, e))
  {
    var v := w.(db := WithStatus(w.db, s, Active), late := if w.db.subs[s].status.Usable() then w.late else w.late + {s});
    SameSub(start, w, e);
    assert NamedSub(start, e) == Some(s);
    forall x | x in start.subs ensures SubOk(start, WokenBy(v, e), x) {
      WakesGrow(w.landed.woken, e, start.subs[x].providerRef);
      assert SubOk(start, w, x);
    }
  }

  lemma EndWritten(start: Db, w: World, e: Event, s: SubId)
    requires UniqueRefs(start) && SubsOk(start, w) && IsCancellation(e) && e.providerRef != "" && HasSub(start, s, e.providerRef)
    ensures SubsOk(start, EndedBy(w.(db := WithStatus(w.db, s, Canceled), late := w.late - {s}), e))
  {
    var v := w.(db := WithStatus(w.db, s, Canceled), late := w.late - {s});
    SameSub(start, w, e);
    assert NamedSub(start, e) == Some(s);
    forall x | x in start.subs ensures SubOk(start, EndedBy(v, e), x) {
      EndsGrow(w.landed.ended, e, start.subs[x].providerRef);
      assert SubOk(start, w, x);
    }
  }

  /** A step that leaves alone what the statuses depend on. */
  ghost predicate LeavesSubs(w: World, v: World) {
    v.db.subs == w.db.subs && v.landed.woken == w.landed.woken && v.landed.ended == w.landed.ended && v.late == w.late
  }

  lemma LeavesSubsOk(start: Db, w: World, v: World)
    requires SubsOk(start, w) && LeavesSubs(w, v)
    ensures SubsOk(start, v)
  {
    forall s | s in start.subs ensures SubOk(start, v, s) {
      assert SubOk(start, w, s);
    }
  }

  lemma GoSubs(start: Db, w: World, c: CallId, f: Faults)
    requires UniqueRefs(start) && SubsOk(start, w) && PcsOk(start, w) && c in w.calls
    ensures SubsOk(start, Next(w, Go(c, f)))
  {
    var v := Next(w, Go(c, f));
    var Call(e, pc) := w.calls[c];
    assert PcOk(start, w, w.calls[c]);
    if LeavesSubs(w, v) {
      LeavesSubsOk(start, w, v);
    } else if pc.Recorded? && IsPayment(e) {
      WakesQuietly(start, w, e);
      LeavesSubsOk(start, WokenBy(w, e), v);
    } else if pc.Recorded? {
      EndsQuietly(start, w, e);
      LeavesSubsOk(start, EndedBy(w, e), v);
    } else if pc.Waking? {
      WakeWritten(start, w, e, pc.sub);
      LeavesSubsOk(start, WokenBy(w.(db := WithStatus(w.db, pc.sub, Active), late := v.late), e), v);
    } else if pc.Ending? {
      EndWritten(start, w, e, pc.sub);
      LeavesSubsOk(start, EndedBy(w.(db := WithStatus(w.db, pc.sub, Canceled), late := v.late), e), v);
    }
  }

  /** Only call c has moved, and what has landed still has. */
  ghost predicate MovesOnly(w: World, v: World, c: CallId) {
    v.calls.Keys <= w.calls.Keys && (forall d :: d in v.calls && d != c ==> v.calls[d] == w.calls[d]) &&
    w.landed.woken <= v.landed.woken
  }

  lemma RecordedMovesOnly(w: World, c: CallId, e: Event, f: Faults)
    requires c in w.calls
    ensures MovesOnly(w, AfterRecorded(w, c, e, f), c)
  {
  }

  lemma GoMovesOnly(w: World, c: CallId, f: Faults)
    requires c in w.calls
    ensures MovesOnly(w, Next(w, Go(c, f)), c)
  {
    if w.calls[c].pc.Recorded? {
      RecordedMovesOnly(w, c, w.calls[c].event, f);
    }
  }

  lemma RecordedPc(start: Db, w: World, c: CallId, e: Event, f: Faults)
    requires UniqueRefs(start) && SubsOk(start, w) && c in w.calls && w.calls[c] == Call(e, Recorded)
    ensures var v := AfterRecorded(w, c, e, f); c in v.calls ==> PcOk(start, v, v.calls[c])
  {
    SameSub(start, w, e);
    var s := NamedSub(w.db, e);
    if s.Some? && Wakes(w.db.subs[s.value].status) {
      assert SubOk(start, w, s.value);
    }
  }

  lemma GoPcs(start: Db, w: World, c: CallId, f: Faults)
    requires UniqueRefs(start) && SubsOk(start, w) && PcsOk(start, w) && c in w.calls
    ensures PcsOk(start, Next(w, Go(c, f)))
  {
    var v := Next(w, Go(c, f));
    var Call(e, pc) := w.calls[c];
    GoMovesOnly(w, c, f);
    assert PcOk(start, w, w.calls[c]);
    if pc.Recorded? {
      RecordedPc(start, w, c, e, f);
    } else {
      LaterPc(start, w, c, f);
    }
    forall d | d in v.calls ensures PcOk(start, v, v.calls[d]) {
      if d != c {
        assert PcOk(start, w, w.calls[d]);
      }
    }
  }

  lemma LaterPc(start: Db, w: World, c: CallId, f: Faults)
    requires c in w.calls && !w.calls[c].pc.Recorded? && PcOk(start, w, w.calls[c])
    ensures var v := Next(w, Go(c, f)); c in v.calls ==> PcOk(start, v, v.calls[c])
  {
  }

  lemma RecordKeeps(start: Db, w: World, s: Step)
    requires SubsOk(start, w) && PcsOk(start, w) && !s.Go?
    ensures SubsOk(start, Next(w, s)) && PcsOk(start, Next(w, s))
  {
    var v := Next(w, s);
    LeavesSubsOk(start, w, v);
    forall d | d in v.calls ensures PcOk(start, v, v.calls[d]) {
      if d in w.calls {
        assert PcOk(start, w, w.calls[d]);
      }
    }
  }

  lemma {:induction false} StatusesAlways(db: Db, steps: seq<Step>)
    requires UniqueRefs(db)
    ensures SubsOk(db, RunCalls(Begin(db), steps)) && PcsOk(db, RunCalls(Begin(db), steps))
    decreases |steps|
  {
    if steps == [] {
      forall s | s in db.subs ensures SubOk(db, Begin(db), s) {}
    } else {
      var w, s := RunCalls(Begin(db), steps[..|steps| - 1]), steps[|steps| - 1];
      StatusesAlways(db, steps[..|steps| - 1]);
      if s.Go? && s.call in w.calls {
        GoSubs(db, w, s.call, s.faults);
        GoPcs(db, w, s.call, s.faults);
      } else if !s.Go? {
        RecordKeeps(db, w, s);
      }
    }
  }

  /**
   * In every interleaving a subscription has the status that undisturbed deliveries would leave, in any order,
   * if and only if it is not one that a payment's late write brought back; then it is active again.
   */
  lemma StatusIff(db: Db, steps: seq<Step>, s: SubId)
    requires UniqueRefs(db) && s in db.subs
    ensures var w := RunCalls(Begin(db), steps);
            && s in w.db.subs && (w.db.subs[s].status == Expected(db, w, s) <==> s !in w.late)
            && (s in w.late ==> w.db.subs[s].status == Active && Expected(db, w, s) == Canceled)
  {
    StatusesAlways(db, steps);
    assert SubOk(db, RunCalls(Begin(db), steps), s);
  }

  // ---------------------------------------------------------------- when that happens

  /** A payment sets a subscription active. */
  ghost predicate Activates(w: World, s: Step, sub: SubId) {
    s.Go? && s.call in w.calls && w.calls[s.call].pc == Waking(sub) && sub in w.db.subs && !s.faults.setStatus && !Refused(w.db, sub)
  }

  /** A cancellation sets it canceled. */
  predicate Cancels(w: World, s: Step, sub: SubId) {
    s.Go? && s.call in w.calls && w.calls[s.call].pc == Ending(sub) && sub in w.db.subs && !s.faults.setStatus
  }

  /** The world after the first k steps. */
  ghost function After(db: Db, steps: seq<Step>, k: nat): World
    requires k <= |steps|
  {
    RunCalls(Begin(db), steps[..k])
  }

  lemma AfterNext(db: Db, steps: seq<Step>, k: nat)
    requires k < |steps|
    ensures After(db, steps, k + 1) == Next(After(db, steps, k), steps[k])
  {
    assert steps[..k + 1][..k] == steps[..k];
  }

  /** Call c has read the subscription usable, and is still to set it active, after each of the steps j to k. */
  ghost predicate Waits(db: Db, steps: seq<Step>, c: CallId, sub: SubId, j: nat, k: nat)
    requires k <= |steps|
  {
    forall m :: j <= m <= k ==> WaitsAt(After(db, steps, m), c, sub)
  }

  predicate WaitsAt(w: World, c: CallId, sub: SubId) {
    c in w.calls && w.calls[c].pc == Waking(sub)
  }

  ghost predicate OvertakenBy(db: Db, steps: seq<Step>, k: nat, j: nat, sub: SubId) {
    j < k < |steps| && Cancels(After(db, steps, j), steps[j], sub) &&
    Activates(After(db, steps, k), steps[k], sub) && Waits(db, steps, steps[k].call, sub, j, k)
  }

  /** Step k is a payment's status write, and a cancellation of the same subscription came after its read. */
  ghost predicate Overtaken(db: Db, steps: seq<Step>, k: nat) {
    exists j, sub :: OvertakenBy(db, steps, k, j, sub)
  }

  ghost predicate AsExpected(db: Db, w: World) {
    forall s :: s in db.subs && s in w.db.subs ==> w.db.subs[s].status == Expected(db, w, s)
  }
}
