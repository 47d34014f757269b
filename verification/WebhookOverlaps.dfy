/** What overlapping webhook deliveries leave behind, and exactly when they leave what undisturbed ones would. */
module WebhookOverlaps {
  import opened Wrappers
  import opened BillingWebhooks
  import opened WebhookRuns
  import opened WebhookCalls

  // ---------------------------------------------------------------- the statuses

  /** A usable subscription is finished only by a cancellation. */
  lemma FinishedByCancel(w: World, s: Step, sub: SubId)
    requires sub in w.db.subs && w.db.subs[sub].status.Usable()
    ensures sub in Next(w, s).db.subs
    ensures !Next(w, s).db.subs[sub].status.Usable() ==> Cancels(w, s, sub)
  {
  }

  /** A delivery comes to wait for its status write by reading the subscription usable. */
  lemma WaitBegins(w: World, s: Step, c: CallId, sub: SubId)
    requires !WaitsAt(w, c, sub) && WaitsAt(Next(w, s), c, sub)
    ensures Next(w, s).db == w.db && sub in w.db.subs && w.db.subs[sub].status.Usable()
  {
  }

  /** A finished subscription is revived exactly by a payment's status write. */
  lemma RevivedByWrite(w: World, s: Step, sub: SubId)
    requires sub in w.db.subs && !w.db.subs[sub].status.Usable()
    ensures sub in Next(w, s).db.subs
    ensures Next(w, s).db.subs[sub].status.Usable() <==> Activates(w, s, sub)
  {
  }

  lemma LateByWrite(w: World, s: Step, sub: SubId)
    requires sub !in w.late && sub in Next(w, s).late
    ensures Activates(w, s, sub) && !w.db.subs[sub].status.Usable()
  {
  }

  lemma EndsStay(w: World, s: Step)
    ensures w.landed.ended <= Next(w, s).landed.ended
  {
  }

  lemma SubsStay(w: World, s: Step)
    ensures Next(w, s).db.subs.Keys == w.db.subs.Keys
  {
  }

  lemma WaitingBefore(w: World, s: Step, c: CallId, sub: SubId)
    requires WaitsAt(Next(w, s), c, sub) && sub in w.db.subs && sub in Next(w, s).db.subs && !Next(w, s).db.subs[sub].status.Usable()
    ensures WaitsAt(w, c, sub) && (w.db.subs[sub].status.Usable() ==> Cancels(w, s, sub))
  {
    if !WaitsAt(w, c, sub) {
      WaitBegins(w, s, c, sub);
    }
    if w.db.subs[sub].status.Usable() {
      FinishedByCancel(w, s, sub);
    }
  }

  ghost predicate FinishedAt(w: World, sub: SubId) {
    sub in w.db.subs && !w.db.subs[sub].status.Usable()
  }

  lemma StepBack(db: Db, steps: seq<Step>, c: CallId, sub: SubId, k: nat)
    requires k < |steps| && WaitsAt(After(db, steps, k + 1), c, sub) && FinishedAt(After(db, steps, k + 1), sub)
    ensures WaitsAt(After(db, steps, k), c, sub)
    ensures FinishedAt(After(db, steps, k), sub) || Cancels(After(db, steps, k), steps[k], sub)
  {
    AfterNext(db, steps, k);
    SubsStay(After(db, steps, k), steps[k]);
    WaitingBefore(After(db, steps, k), steps[k], c, sub);
  }

  lemma NoneWaitsAtFirst(db: Db, steps: seq<Step>, c: CallId, sub: SubId)
    ensures !WaitsAt(After(db, steps, 0), c, sub)
  {
    assert After(db, steps, 0) == Begin(db);
  }

  lemma WaitsLonger(db: Db, steps: seq<Step>, c: CallId, sub: SubId, j: nat, k: nat)
    requires k < |steps| && Waits(db, steps, c, sub, j, k) && WaitsAt(After(db, steps, k + 1), c, sub)
    ensures Waits(db, steps, c, sub, j, k + 1)
  {
  }

  /** While a delivery waits to set a finished subscription active, there was a cancellation during its wait. */
  lemma {:induction false} CancelFound(db: Db, steps: seq<Step>, c: CallId, sub: SubId, k: nat) returns (j: nat)
    requires k <= |steps| && WaitsAt(After(db, steps, k), c, sub) && FinishedAt(After(db, steps, k), sub)
    ensures j < k && Cancels(After(db, steps, j), steps[j], sub) && Waits(db, steps, c, sub, j, k)
    decreases k
  {
    NoneWaitsAtFirst(db, steps, c, sub);
    StepBack(db, steps, c, sub, k - 1);
    if FinishedAt(After(db, steps, k - 1), sub) {
      j := CancelFound(db, steps, c, sub, k - 1);
      WaitsLonger(db, steps, c, sub, j, k - 1);
    } else {
      j := k - 1;
      WaitsLonger(db, steps, c, sub, j, j);
    }
  }

  /** A write that revives a finished subscription was overtaken by its cancellation. */
  lemma RevivingIsOvertaken(db: Db, steps: seq<Step>, k: nat, sub: SubId)
    requires k < |steps| && Activates(After(db, steps, k), steps[k], sub) && FinishedAt(After(db, steps, k), sub)
    ensures Overtaken(db, steps, k)
  {
    var j := CancelFound(db, steps, steps[k].call, sub, k);
    assert OvertakenBy(db, steps, k, j, sub);
  }

  /** In any run a finished subscription becomes usable again exactly when a payment's late write, overtaken by a cancellation, finds it. */
  lemma RevivedIff(db: Db, steps: seq<Step>, k: nat, sub: SubId)
    requires k < |steps| && FinishedAt(After(db, steps, k), sub)
    ensures !FinishedAt(After(db, steps, k + 1), sub) <==> exists j :: OvertakenBy(db, steps, k, j, sub)
  {
    AfterNext(db, steps, k);
    SubsStay(After(db, steps, k), steps[k]);
    RevivedByWrite(After(db, steps, k), steps[k], sub);
    if Activates(After(db, steps, k), steps[k], sub) {
      var j := CancelFound(db, steps, steps[k].call, sub, k);
      assert OvertakenBy(db, steps, k, j, sub);
    }
  }

  // ---------------------------------------------------------------- the statuses are right exactly when nothing is overtaken

  lemma {:induction false} NoneLate(db: Db, steps: seq<Step>, n: nat)
    requires n <= |steps| && forall k :: 0 <= k < n ==> !Overtaken(db, steps, k)
    ensures forall sub :: sub !in After(db, steps, n).late
  {
    if n == 0 {
      assert After(db, steps, 0) == Begin(db);
    } else {
      NoneLate(db, steps, n - 1);
      AfterNext(db, steps, n - 1);
      var w, s := After(db, steps, n - 1), steps[n - 1];
      forall sub ensures sub !in After(db, steps, n).late {
        if sub in Next(w, s).late {
          LateByWrite(w, s, sub);
          RevivingIsOvertaken(db, steps, n - 1, sub);
        }
      }
    }
  }

  ghost function EndedAfter(db: Db, steps: seq<Step>, k: nat): set<Event>
    requires k <= |steps|
  {
    After(db, steps, k).landed.ended
  }

  lemma EndedGrows(db: Db, steps: seq<Step>, k: nat)
    requires k < |steps|
    ensures EndedAfter(db, steps, k) <= EndedAfter(db, steps, k + 1)
  {
    AfterNext(db, steps, k);
    EndsStay(After(db, steps, k), steps[k]);
  }

  /** The cancellations that have landed after each step. */
  lemma EndedSets(db: Db, steps: seq<Step>) returns (sets: seq<set<Event>>)
    ensures |sets| == |steps| + 1
    ensures forall m :: 0 <= m <= |steps| ==> sets[m] == EndedAfter(db, steps, m)
    ensures forall m :: 0 <= m < |steps| ==> sets[m] <= sets[m + 1]
  {
    sets := seq(|steps| + 1, m requires 0 <= m <= |steps| => EndedAfter(db, steps, m));
    forall m | 0 <= m < |steps| ensures sets[m] <= sets[m + 1] {
      EndedGrows(db, steps, m);
    }
  }

  lemma {:induction false} SetsGrow<T>(sets: seq<set<T>>, j: nat, k: nat)
    requires j <= k < |sets| && forall m :: 0 <= m < |sets| - 1 ==> sets[m] <= sets[m + 1]
    ensures sets[j] <= sets[k]
    decreases k
  {
    if j < k {
      SetsGrow(sets, j, k - 1);
      assert sets[k - 1] <= sets[k - 1 + 1];
    }
  }

  lemma EndedStays(db: Db, steps: seq<Step>, j: nat, k: nat, ref: Option<string>)
    requires j <= k <= |steps| && SomeEnds(EndedAfter(db, steps, j), ref)
    ensures SomeEnds(EndedAfter(db, steps, k), ref)
  {
    var sets := EndedSets(db, steps);
    SetsGrow(sets, j, k);
    SomeEndsGrows(sets[j], sets[k], ref);
  }

  lemma CancelLands(db: Db, w: World, s: Step, sub: SubId)
    requires PcsOk(db, w) && sub in db.subs && Cancels(w, s, sub)
    ensures SomeEnds(Next(w, s).landed.ended, db.subs[sub].providerRef)
  {
    var e := w.calls[s.call].event;
    assert PcOk(db, w, w.calls[s.call]);
    assert e in Next(w, s).landed.ended && IsCancellation(e) && Wants(e, db.subs[sub].providerRef);
  }

  lemma SomeEndsGrows(a: set<Event>, b: set<Event>, ref: Option<string>)
    requires a <= b && SomeEnds(a, ref)
    ensures SomeEnds(b, ref)
  {
  }

  lemma OvertakenShows(db: Db, steps: seq<Step>, k: nat, j: nat, sub: SubId)
    requires UniqueRefs(db) && OvertakenBy(db, steps, k, j, sub)
    ensures !AsExpected(db, After(db, steps, k + 1))
  {
    StatusesAlways(db, steps[..j]);
    StatusesAlways(db, steps[..k + 1]);
    AfterNext(db, steps, j);
    AfterNext(db, steps, k);
    CancelLands(db, After(db, steps, j), steps[j], sub);
    EndedStays(db, steps, j + 1, k + 1, db.subs[sub].providerRef);
    ActivatesActive(After(db, steps, k), steps[k], sub);
  }

  lemma ActivatesActive(w: World, s: Step, sub: SubId)
    requires Activates(w, s, sub)
    ensures sub in Next(w, s).db.subs && Next(w, s).db.subs[sub].status == Active
  {
  }

  /**
   * For every interleaving: the statuses are at all times those of undisturbed deliveries of what has landed, if and
   * only if no payment's status write lands after a cancellation of the same subscription that came after its read.
   */
  lemma StatusesThroughoutIff(db: Db, steps: seq<Step>)
    requires UniqueRefs(db)
    ensures (forall k: nat :: k <= |steps| ==> AsExpected(db, After(db, steps, k))) <==>
            (forall k: nat :: k < |steps| ==> !Overtaken(db, steps, k))
  {
    if k: nat :| k < |steps| && Overtaken(db, steps, k) {
      var j, sub :| OvertakenBy(db, steps, k, j, sub);
      OvertakenShows(db, steps, k, j, sub);
    } else {
      forall k: nat | k <= |steps| ensures AsExpected(db, After(db, steps, k)) {
        NoneLate(db, steps, k);
        StatusesAlways(db, steps[..k]);
        forall s | s in db.subs ensures After(db, steps, k).db.subs[s].status == Expected(db, After(db, steps, k), s) {
          StatusIff(db, steps[..k], s);
        }
      }
    }
  }

  /** The unique index keeps one usable subscription to a user in every interleaving. */
  lemma OneUsableStep(w: World, s: Step)
    requires OneUsablePerUser(w.db)
    ensures OneUsablePerUser(Next(w, s).db)
  {
  }

  /** So does every run. */
  lemma {:induction false} OneUsableAlways(db: Db, steps: seq<Step>)
    requires OneUsablePerUser(db)
    ensures OneUsablePerUser(RunCalls(Begin(db), steps).db)
    decreases |steps|
  {
    if steps != [] {
      OneUsableAlways(db, steps[..|steps| - 1]);
      OneUsableStep(RunCalls(Begin(db), steps[..|steps| - 1]), steps[|steps| - 1]);
    }
  }
}
