/**
 What each call to the queue does to the rows, in the statuses, times and amounts of its statement, and how often a job
 runs.
 */
module QueueSteps {
  import opened Wrappers
  import opened JobQueue
  import opened QueueProtocol

  const ONE_SECOND := 1_000_000_000

  /** A failed job waits 1, 2, 4, … and 256 seconds after its first nine failures, and five minutes after every later one. */
  lemma WaitsAre(attempts: int)
    ensures attempts <= 1 ==> Backoff(attempts) == ONE_SECOND
    ensures Backoff(2) == 2 * ONE_SECOND && Backoff(3) == 4 * ONE_SECOND && Backoff(4) == 8 * ONE_SECOND && Backoff(5) == 16 * ONE_SECOND
    ensures Backoff(6) == 32 * ONE_SECOND && Backoff(7) == 64 * ONE_SECOND && Backoff(8) == 128 * ONE_SECOND
    ensures Backoff(9) == 256 * ONE_SECOND
    ensures attempts > 9 ==> Backoff(attempts) == 300 * ONE_SECOND
  {
    assert ShiftLeftOne(3) == 8 && ShiftLeftOne(4) == 16;
    assert ShiftLeftOne(5) == 32 && ShiftLeftOne(6) == 64;
    assert ShiftLeftOne(7) == 128 && ShiftLeftOne(8) == 256;
  }

  /** A job of this kind is waiting or running. */
  ghost predicate Busy(jobs: Jobs, kind: string) {
    exists x :: x in jobs && jobs[x].kind == kind && jobs[x].status in {Pending, Running}
  }

  /** A new job is pending, has five attempts, and may run at once. */
  lemma EnqueueMakes(w: World, id: JobId, kind: string)
    requires id !in w.jobs && id !in w.history
    ensures Next(w, Enqueue(id, kind)).jobs == w.jobs[id := Job(kind, Pending, 0, 5, w.now, None, None)]
  {
  }

  /** EnqueueUnique adds such a job exactly when none of its kind is waiting or running. */
  lemma UniqueEnqueuesIff(w: World, id: JobId, kind: string)
    requires id !in w.jobs && id !in w.history
    ensures Next(w, EnqueueUnique(id, kind)).jobs ==
              if Busy(w.jobs, kind) then w.jobs else w.jobs[id := Job(kind, Pending, 0, 5, w.now, None, None)]
  {
    if Busy(w.jobs, kind) {
      var x :| x in w.jobs && w.jobs[x].kind == kind && w.jobs[x].status in {Pending, Running};
      assert Unfinished(w.jobs, x, kind);
    }
  }

  /** In a reachable world a free goroutine claims a job exactly when it is pending and due. */
  lemma ClaimsIff(w: World, g: Goroutine, id: JobId, worker: WorkerName)
    requires JobsOk(w) && g !in w.holding && id in w.jobs
    ensures var v := Next(w, Claim(g, id, worker));
            if w.jobs[id].status == Pending && w.jobs[id].runAt <= w.now then
              v.jobs == w.jobs[id := w.jobs[id].(status := Running, lockedBy := Some(worker))] && v.holding == w.holding[g := id]
            else v == w
  {
    assert id in w.history;
  }

  /** The holder of a job ends it: done … */
  lemma CompletionEnds(w: World, g: Goroutine)
    requires HoldersOk(w) && g in w.holding
    ensures var v, id := Next(w, Complete(g)), w.holding[g];
            v.jobs == w.jobs[id := w.jobs[id].(status := Done, lockedBy := None, lastError := None)] && v.holding == w.holding - {g}
  {
  }

  /** … given back as it was, with its attempts … */
  lemma ReleaseReturns(w: World, g: Goroutine)
    requires HoldersOk(w) && g in w.holding
    ensures var v, id := Next(w, Release(g)), w.holding[g];
            v.jobs == w.jobs[id := w.jobs[id].(status := Pending, lockedBy := None)] && v.holding == w.holding - {g}
  {
  }

  /** … or failed: it is tried again after the wait if an attempt is left, and is failed for good if not. */
  lemma FailureRetriesIff(w: World, g: Goroutine, cause: string)
    requires HoldersOk(w) && g in w.holding
    ensures var v, id := Next(w, Fail(g, cause)), w.holding[g];
            var j := w.jobs[id];
            v.holding == w.holding - {g} &&
            v.jobs == w.jobs[id :=
              if j.attempts + 1 < j.maxAttempts
              then Job(j.kind, Pending, j.attempts + 1, j.maxAttempts, w.now + Backoff(j.attempts + 1), None, Some(cause))
              else Job(j.kind, JobQueue.Failed, j.attempts + 1, j.maxAttempts, j.runAt, None, Some(cause))]
  {
  }

  /** In every run each job has five attempts; so it is dispatched five times at most, releases apart. */
  lemma {:induction false} FiveAttempts(steps: seq<Step>, id: JobId)
    requires id in Run(EMPTY_WORLD, steps).jobs
    ensures Run(EMPTY_WORLD, steps).jobs[id].maxAttempts == 5
    ensures id in Run(EMPTY_WORLD, steps).history
    ensures Run(EMPTY_WORLD, steps).history[id].dispatches <= 5 + Run(EMPTY_WORLD, steps).history[id].releases
    decreases |steps|
  {
    var before := steps[..|steps| - if steps == [] then 0 else 1];
    if steps != [] && id in Run(EMPTY_WORLD, before).jobs {
      FiveAttempts(before, id);
      AttemptsStay(Run(EMPTY_WORLD, before), steps[|steps| - 1], id);
    }
    ReachableWorlds(steps);
  }

  lemma AttemptsStay(w: World, s: Step, id: JobId)
    requires id in w.jobs
    ensures id in Next(w, s).jobs && Next(w, s).jobs[id].maxAttempts == w.jobs[id].maxAttempts
  {
  }
}
