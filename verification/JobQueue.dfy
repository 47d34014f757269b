/**
 The PostgreSQL job queue and the poller's use of it.

 `Jobs` gives one function per SQL transaction. Durations are in nanoseconds, as in Go's time.Duration.
 */
module JobQueue {
  import opened Wrappers
  import Orders

  type JobId = int
  type WorkerName = string

  const SECOND := 1_000_000_000
  const MAX_BACKOFF := 300 * SECOND

  /** The column default of jobs.max_attempts. */
  const DEFAULT_MAX_ATTEMPTS := 5

  datatype Status = Pending | Running | Done | Failed

  datatype Job = Job(kind: string, status: Status, attempts: int, maxAttempts: int, runAt: int,
                     lockedBy: Option<WorkerName>, lastError: Option<string>)

  function ShiftLeftOne(n: nat): (p: nat)
    ensures 1 <= p
  {
    if n == 0 then 1 else 2 * ShiftLeftOne(n - 1)
  }

  function Backoff(attempts: int): (d: int)
    ensures SECOND <= d <= MAX_BACKOFF
  {
    var a := if attempts < 1 then 1 else attempts;
    if a > 9 then MAX_BACKOFF
    else
      var d := ShiftLeftOne(a - 1) * SECOND;
      if d > MAX_BACKOFF then MAX_BACKOFF else d
  }

  /** The wait doubles with every attempt until it reaches five minutes, for any number of attempts. */
  lemma BackoffIsCappedDoubling(k: nat)
    requires 1 <= k
    ensures Backoff(k) == (if ShiftLeftOne(k - 1) * SECOND <= MAX_BACKOFF then ShiftLeftOne(k - 1) * SECOND else MAX_BACKOFF)
    ensures Backoff(k) <= Backoff(k + 1) <= 2 * Backoff(k)
  {
    if k >= 10 {
      ShiftGrows(9, k - 1);
    }
    if k >= 9 {
      ShiftGrows(9, k);
    }
  }

  lemma {:induction false} ShiftGrows(m: nat, n: nat)
    requires m <= n
    ensures ShiftLeftOne(m) <= ShiftLeftOne(n)
  {
    if m < n { ShiftGrows(m, n - 1); }
  }

  type Jobs = map<JobId, Job>

  predicate Ready(jobs: Jobs, id: JobId, now: int) {
    id in jobs && jobs[id].status == Pending && jobs[id].runAt <= now
  }

  predicate Unfinished(jobs: Jobs, id: JobId, kind: string) {
    id in jobs && jobs[id].kind == kind && (jobs[id].status == Pending || jobs[id].status == Running)
  }

  predicate InFlight(jobs: Jobs, kind: string) {
    exists id :: id in jobs && Unfinished(jobs, id, kind)
  }

  function Enqueued(jobs: Jobs, id: JobId, kind: string, now: int): Jobs {
    jobs[id := Job(kind, Pending, 0, DEFAULT_MAX_ATTEMPTS, now, None, None)]
  }

  function Claimed(jobs: Jobs, id: JobId, worker: WorkerName): Jobs
    requires id in jobs
  {
    jobs[id := jobs[id].(status := Running, lockedBy := Some(worker))]
  }

  function Completed(jobs: Jobs, id: JobId): Jobs {
    if id in jobs then jobs[id := jobs[id].(status := Done, lockedBy := None, lastError := None)] else jobs
  }

  /** The new rows, and whether a retry is scheduled; None when there is no such job. */
  function AfterFailure(jobs: Jobs, id: JobId, cause: string, now: int): (Jobs, Option<bool>) {
    if id !in jobs then (jobs, None)
    else
      var job := jobs[id].(attempts := jobs[id].attempts + 1, lastError := Some(cause), lockedBy := None);
      if job.attempts >= job.maxAttempts then (jobs[id := job.(status := Failed)], Some(false))
      else (jobs[id := job.(status := Pending, runAt := now + Backoff(job.attempts))], Some(true))
  }

  function Released(jobs: Jobs, id: JobId): Jobs {
    if id in jobs && jobs[id].status == Running
    then jobs[id := jobs[id].(status := Pending, lockedBy := None)] else jobs
  }

  class PostgresQueue {
    var jobs: Jobs

    constructor ()
      ensures jobs == map[]
    {
      jobs := map[];
    }

    method Enqueue(id: JobId, kind: string, now: int)
      requires id !in jobs
      modifies this
      ensures jobs == Enqueued(old(jobs), id, kind, now)
    {
      jobs := jobs[id := Job(kind, Pending, 0, DEFAULT_MAX_ATTEMPTS, now, None, None)];
    }

    /** Enqueues unless a job of the kind is pending or running. */
    method EnqueueUnique(id: JobId, kind: string, now: int) returns (enqueued: bool)
      requires id !in jobs
      modifies this
      ensures enqueued <==> forall x :: x in old(jobs) && old(jobs)[x].kind == kind ==> old(jobs)[x].status in {Done, Failed}
      ensures jobs == if enqueued then Enqueued(old(jobs), id, kind, now) else old(jobs)
    {
      if exists x :: x in jobs && Unfinished(jobs, x, kind) {
        return false;
      }
      jobs := jobs[id := Job(kind, Pending, 0, DEFAULT_MAX_ATTEMPTS, now, None, None)];
      return true;
    }

    /** Claims a ready job with the earliest run time, if any is ready. */
    method Claim(worker: WorkerName, now: int) returns (id: Option<JobId>)
      modifies this
      ensures id.None? ==> jobs == old(jobs) && forall x :: x in jobs && jobs[x].status == Pending ==> now < jobs[x].runAt
      ensures id.Some? ==> id.value in old(jobs) && old(jobs)[id.value].status == Pending && old(jobs)[id.value].runAt <= now
      ensures id.Some? ==> forall x :: x in old(jobs) && old(jobs)[x].status == Pending ==> old(jobs)[id.value].runAt <= old(jobs)[x].runAt
      ensures id.Some? ==> jobs == Claimed(old(jobs), id.value, worker)
    {
      var ready := set x | x in jobs && Ready(jobs, x, now);
      if ready == {} {
        assert forall x :: x in jobs && Ready(jobs, x, now) ==> x in ready;
        return None;
      }
      Orders.LeastExists(ready, map x | x in jobs :: jobs[x].runAt);
      var first :| first in ready && forall x :: x in ready ==> jobs[first].runAt <= jobs[x].runAt;
      jobs := jobs[first := jobs[first].(status := Running, lockedBy := Some(worker))];
      return Some(first);
    }

    method Complete(id: JobId)
      modifies this
      ensures jobs == Completed(old(jobs), id)
    {
      if id in jobs {
        jobs := jobs[id := jobs[id].(status := Done, lockedBy := None, lastError := None)];
      }
    }

    method Fail(id: JobId, cause: string, now: int) returns (retry: Option<bool>)
      modifies this
      ensures (jobs, retry) == AfterFailure(old(jobs), id, cause, now)
    {
      if id !in jobs {
        return None;
      }
      jobs := jobs[id := jobs[id].(attempts := jobs[id].attempts + 1, lastError := Some(cause))];
      if jobs[id].attempts >= jobs[id].maxAttempts {
        jobs := jobs[id := jobs[id].(status := Failed, lockedBy := None)];
        assert jobs == AfterFailure(old(jobs), id, cause, now).0;
        return Some(false);
      }
      jobs := jobs[id := jobs[id].(status := Pending, runAt := now + Backoff(jobs[id].attempts), lockedBy := None)];
      assert jobs == AfterFailure(old(jobs), id, cause, now).0;
      return Some(true);
    }

    method Release(id: JobId)
      modifies this
      ensures jobs == Released(old(jobs), id)
    {
      if id in jobs && jobs[id].status == Running {
        jobs := jobs[id := jobs[id].(status := Pending, lockedBy := None)];
      }
    }
  }

  /** How the handler of a job ended. */
  datatype Dispatched = Succeeded | Canceled | Errored(cause: string)

  /** The outcome the poller reports; NoReport when the queue could not record one. */
  datatype Outcome = OutcomeDone | OutcomeReleased | OutcomeRetry | OutcomeFailed | NoReport

  class Poller {
    const queue: PostgresQueue

    constructor (queue: PostgresQueue)
      ensures this.queue == queue
    {
      this.queue := queue;
    }

    /**
     * What one claimed job leads to. A cancelled handler releases the job only when the poller itself is
     * shutting down. `queueOk` says whether the queue could carry out the call; Complete, unlike the other
     * two, runs under the poller's own context, so a shutdown can make it fail. A release is reported even if
     * it failed; then the job is still running.
     */
    method Handle(id: JobId, result: Dispatched, shutdown: bool, queueOk: bool, now: int) returns (outcome: Outcome)
      modifies queue
      ensures queue.jobs ==
              if !queueOk then old(queue.jobs)
              else if result.Succeeded? then Completed(old(queue.jobs), id)
              else if result.Canceled? && shutdown then Released(old(queue.jobs), id)
              else AfterFailure(old(queue.jobs), id, Cause(result), now).0
      ensures outcome == OutcomeDone <==> result.Succeeded? && queueOk
      ensures outcome == OutcomeReleased <==> result.Canceled? && shutdown
      ensures outcome == OutcomeFailed || outcome == OutcomeRetry <==>
              !result.Succeeded? && !(result.Canceled? && shutdown) && queueOk && id in old(queue.jobs)
      ensures outcome == OutcomeDone && id in queue.jobs ==> queue.jobs[id].status == Done
      ensures outcome == OutcomeReleased && id in old(queue.jobs) && old(queue.jobs)[id].status == Running ==>
              id in queue.jobs && queue.jobs[id].status == (if queueOk then Pending else Running)
      ensures outcome == OutcomeFailed ==> id in queue.jobs && queue.jobs[id].status == Failed
      ensures outcome == OutcomeRetry ==> id in queue.jobs && queue.jobs[id].status == Pending && queue.jobs[id].runAt > now
    {
      if result.Succeeded? {
        if !queueOk {
          return NoReport;
        }
        queue.Complete(id);
        return OutcomeDone;
      }
      if result.Canceled? && shutdown {
        if queueOk {
          queue.Release(id);
        }
        return OutcomeReleased;
      }
      if !queueOk {
        return NoReport;
      }
      var retry := queue.Fail(id, Cause(result), now);
      if retry.None? {
        return NoReport;
      }
      return if retry.value then OutcomeRetry else OutcomeFailed;
    }
  }

  function Cause(result: Dispatched): string {
    match result
    case Errored(cause) => cause
    case _ => "context canceled"
  }
}
