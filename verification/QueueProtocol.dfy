/**
 Any number of poller goroutines, crashes and releases over one queue.

 A goroutine holds a job from the commit of Claim until it carries out Complete, Fail or Release, or until
 it loses the job: it crashes, or the queue call fails and the poller goes on. Claim may take any ready
 job, since rows locked by other claims are skipped. A step that is not enabled changes nothing.
 */
module QueueProtocol {
  import opened Wrappers
  import opened JobQueue

  type Goroutine = int

  /** What happened to a job: how often it was dispatched and released, its last holder and its last failure. */
  datatype History = History(dispatches: nat, releases: nat, holder: Goroutine, enqueuedAt: int, failedAt: int)

  datatype World = World(jobs: Jobs, holding: map<Goroutine, JobId>, history: map<JobId, History>, now: int)

  datatype Step =
    | Enqueue(job: JobId, kind: string)
    | EnqueueUnique(job: JobId, kind: string)
    | Claim(g: Goroutine, job: JobId, worker: WorkerName)
    | Complete(g: Goroutine)
    | Fail(g: Goroutine, cause: string)
    | Release(g: Goroutine)
    | Lose(g: Goroutine)
    | Tick(delay: nat)

  const EMPTY_WORLD := World(map[], map[], map[], 0)

  predicate MayClaim(w: World, s: Step)
    requires s.Claim?
  {
    s.g !in w.holding && Ready(w.jobs, s.job, w.now) && s.job in w.history
  }

  function Drop(w: World, g: Goroutine): World {
    w.(holding := w.holding - {g})
  }

  function WithJob(w: World, id: JobId, kind: string): World {
    if id in w.history || id in w.jobs then w
    else w.(jobs := Enqueued(w.jobs, id, kind, w.now), history := w.history[id := History(0, 0, 0, w.now, w.now)])
  }

  function Next(w: World, s: Step): World {
    match s
    case Enqueue(id, kind) => WithJob(w, id, kind)
    case EnqueueUnique(id, kind) => if InFlight(w.jobs, kind) then w else WithJob(w, id, kind)
    case Claim(g, id, worker) =>
      if !MayClaim(w, s) then w
      else w.(jobs := Claimed(w.jobs, id, worker), holding := w.holding[g := id],
              history := w.history[id := w.history[id].(dispatches := w.history[id].dispatches + 1, holder := g)])
    case Complete(g) =>
      if g !in w.holding then w else Drop(w, g).(jobs := Completed(w.jobs, w.holding[g]))
    case Fail(g, cause) =>
      if g !in w.holding || w.holding[g] !in w.history then w
      else Drop(w, g).(jobs := AfterFailure(w.jobs, w.holding[g], cause, w.now).0,
                       history := w.history[w.holding[g] := w.history[w.holding[g]].(failedAt := w.now)])
    case Release(g) =>
      if g !in w.holding || w.holding[g] !in w.history then w
      else
        var h := w.history[w.holding[g]];
        Drop(w, g).(jobs := Released(w.jobs, w.holding[g]),
                    history := w.history[w.holding[g] := h.(releases := h.releases + 1)])
    case Lose(g) => Drop(w, g)
    case Tick(d) => w.(now := w.now + d)
  }

  function Run(w: World, steps: seq<Step>): World
    decreases |steps|
  {
    if steps == [] then w else Next(Run(w, steps[..|steps| - 1]), steps[|steps| - 1])
  }

  /** The least total wait before the k-th retry. */
  function TotalBackoff(k: nat): int {
    if k == 0 then 0 else TotalBackoff(k - 1) + Backoff(k)
  }

  /** One job and its history, in every reachable world. */
  predicate JobOk(j: Job, h: History, now: int) {
    1 <= j.maxAttempts && 0 <= j.attempts
    && (if j.status == Failed then j.attempts == j.maxAttempts else j.attempts < j.maxAttempts)
    && h.dispatches == j.attempts + h.releases + (if j.status == Running || j.status == Done then 1 else 0)
    && h.failedAt <= now
    && (j.status != Failed ==> j.runAt >= h.enqueuedAt + TotalBackoff(j.attempts))
    && (j.status != Failed && 1 <= j.attempts ==> j.runAt == h.failedAt + Backoff(j.attempts))
    && (j.status == Running ==> j.runAt <= now)
  }

  ghost predicate JobsOk(w: World) {
    w.jobs.Keys == w.history.Keys && forall id :: id in w.jobs ==> JobOk(w.jobs[id], w.history[id], w.now)
  }

  /** A held job is running, and the history names its one holder. */
  ghost predicate HoldersOk(w: World) {
    forall g :: g in w.holding ==>
      w.holding[g] in w.jobs && w.holding[g] in w.history
      && w.jobs[w.holding[g]].status == Running && w.history[w.holding[g]].holder == g
  }

  lemma JobsOkStep(w: World, s: Step)
    requires JobsOk(w) && HoldersOk(w)
    ensures JobsOk(Next(w, s))
  {
    if s.Fail? && s.g in w.holding {
      var j := w.jobs[w.holding[s.g]];
      assert TotalBackoff(j.attempts + 1) == TotalBackoff(j.attempts) + Backoff(j.attempts + 1);
    }
  }

  lemma HoldersOkStep(w: World, s: Step)
    requires JobsOk(w) && HoldersOk(w)
    ensures HoldersOk(Next(w, s))
  {
  }

  lemma {:induction false} ReachableWorlds(steps: seq<Step>)
    ensures JobsOk(Run(EMPTY_WORLD, steps)) && HoldersOk(Run(EMPTY_WORLD, steps))
    decreases |steps|
  {
    if steps != [] {
      ReachableWorlds(steps[..|steps| - 1]);
      JobsOkStep(Run(EMPTY_WORLD, steps[..|steps| - 1]), steps[|steps| - 1]);
      HoldersOkStep(Run(EMPTY_WORLD, steps[..|steps| - 1]), steps[|steps| - 1]);
    }
  }

  /** No interleaving lets two goroutines hold the same job. */
  lemma HeldByAtMostOne(steps: seq<Step>, g: Goroutine, h: Goroutine)
    requires g in Run(EMPTY_WORLD, steps).holding && h in Run(EMPTY_WORLD, steps).holding
    requires Run(EMPTY_WORLD, steps).holding[g] == Run(EMPTY_WORLD, steps).holding[h]
    ensures g == h
  {
    ReachableWorlds(steps);
  }

  /** Done and failed are final, for every step anyone can take. */
  lemma FinalStatesStay(steps: seq<Step>, s: Step, id: JobId)
    requires var w := Run(EMPTY_WORLD, steps); id in w.jobs && (w.jobs[id].status == Done || w.jobs[id].status == JobQueue.Failed)
    ensures var w := Run(EMPTY_WORLD, steps); id in Next(w, s).jobs && Next(w, s).jobs[id] == w.jobs[id]
  {
    ReachableWorlds(steps);
  }

  /** An unfinished job has attempts left, and every dispatch is paid for by an attempt or a release. */
  lemma DispatchesAreBounded(steps: seq<Step>, id: JobId)
    requires id in Run(EMPTY_WORLD, steps).history
    ensures id in Run(EMPTY_WORLD, steps).jobs
    ensures var w := Run(EMPTY_WORLD, steps); var j, h := w.jobs[id], w.history[id];
            && (j.status == Pending || j.status == Running ==> j.attempts < j.maxAttempts)
            && (j.status == JobQueue.Failed <==> j.attempts == j.maxAttempts)
            && h.dispatches <= j.maxAttempts + h.releases
  {
    ReachableWorlds(steps);
  }

  /**
   * The k-th retry of a job waits at least Backoff(k) after the failure before it, and the waits add up:
   * no k-th retry happens before the k backoffs since the job was enqueued have all passed.
   */
  lemma RetriesWait(steps: seq<Step>, s: Step)
    requires s.Claim? && MayClaim(Run(EMPTY_WORLD, steps), s)
    ensures var w := Run(EMPTY_WORLD, steps); var j, h := w.jobs[s.job], w.history[s.job];
            && (1 <= j.attempts ==> h.failedAt + Backoff(j.attempts) <= w.now)
            && 0 <= j.attempts && h.enqueuedAt + TotalBackoff(j.attempts) <= w.now
  {
    ReachableWorlds(steps);
  }

  /** A running job that its holder lost stays running through any further steps: nothing reclaims it. */
  lemma {:induction false} LostJobsStayRunning(w: World, steps: seq<Step>, id: JobId)
    requires JobsOk(w) && HoldersOk(w) && id in w.jobs && w.jobs[id].status == Running
    requires forall g :: g in w.holding ==> w.holding[g] != id
    ensures JobsOk(Run(w, steps)) && HoldersOk(Run(w, steps))
    ensures id in Run(w, steps).jobs && Run(w, steps).jobs[id] == w.jobs[id]
    ensures forall g :: g in Run(w, steps).holding ==> Run(w, steps).holding[g] != id
    decreases |steps|
  {
    if steps != [] {
      var v, s := Run(w, steps[..|steps| - 1]), steps[|steps| - 1];
      LostJobsStayRunning(w, steps[..|steps| - 1], id);
      JobsOkStep(v, s);
      HoldersOkStep(v, s);
      LostStep(v, s, id);
    }
  }

  lemma LostStep(w: World, s: Step, id: JobId)
    requires JobsOk(w) && HoldersOk(w) && id in w.jobs && w.jobs[id].status == Running
    requires forall g :: g in w.holding ==> w.holding[g] != id
    ensures id in Next(w, s).jobs && Next(w, s).jobs[id] == w.jobs[id]
    ensures forall g :: g in Next(w, s).holding ==> Next(w, s).holding[g] != id
  {
  }

  // ---------------------------------------------------------------- scheduled jobs

  /** No job of the kind is enqueued otherwise than by EnqueueUnique. */
  predicate OnlyUnique(steps: seq<Step>, kind: string) {
    forall i :: 0 <= i < |steps| ==> steps[i].Enqueue? ==> steps[i].kind != kind
  }

  ghost predicate OneInFlight(jobs: Jobs, kind: string) {
    forall a, b :: Unfinished(jobs, a, kind) && Unfinished(jobs, b, kind) ==> a == b
  }

  /** A job becomes unfinished only by being enqueued: nothing brings one back, and no step changes a job's kind. */
  ghost predicate NoneRevived(w: World, v: World, s: Step, kind: string) {
    forall id :: Unfinished(v.jobs, id, kind) && !Unfinished(w.jobs, id, kind) ==>
      id !in w.jobs && (s.Enqueue? || (s.EnqueueUnique? && !InFlight(w.jobs, kind))) && s.job == id && s.kind == kind
  }

  lemma StepRevivesNone(w: World, s: Step, kind: string)
    requires JobsOk(w) && HoldersOk(w)
    ensures NoneRevived(w, Next(w, s), s, kind)
  {
  }

  /** A kind of job that only the scheduler enqueues has at most one instance in flight, through every failure, retry and release. */
  lemma {:induction false} ScheduledOneAtATime(steps: seq<Step>, kind: string)
    requires OnlyUnique(steps, kind)
    ensures OneInFlight(Run(EMPTY_WORLD, steps).jobs, kind)
    decreases |steps|
  {
    if steps != [] {
      var before, s := steps[..|steps| - 1], steps[|steps| - 1];
      var w := Run(EMPTY_WORLD, before);
      ReachableWorlds(before);
      ScheduledOneAtATime(before, kind);
      StepRevivesNone(w, s, kind);
    }
  }

  /** Once a scheduled job's holder is lost, the job counts as in flight for ever, and no job of its kind is enqueued again. */
  lemma {:induction false} LostJobStopsSchedule(w: World, steps: seq<Step>, id: JobId, other: JobId)
    requires JobsOk(w) && HoldersOk(w) && id in w.jobs && w.jobs[id].status == Running
    requires forall g :: g in w.holding ==> w.holding[g] != id
    requires OnlyUnique(steps, w.jobs[id].kind) && other !in w.jobs
    ensures other in Run(w, steps).jobs ==> Run(w, steps).jobs[other].kind != w.jobs[id].kind
    decreases |steps|
  {
    if steps != [] {
      var before, s := steps[..|steps| - 1], steps[|steps| - 1];
      LostJobsStayRunning(w, before, id);
      LostJobStopsSchedule(w, before, id, other);
      assert Unfinished(Run(w, before).jobs, id, w.jobs[id].kind);
      if other in Run(w, steps).jobs {
        KindsStay(Run(w, before), s, other);
      }
    }
  }

  lemma KindsStay(w: World, s: Step, id: JobId)
    requires JobsOk(w) && HoldersOk(w) && id in Next(w, s).jobs
    ensures id in w.jobs ==> Next(w, s).jobs[id].kind == w.jobs[id].kind
    ensures id !in w.jobs ==> (s.Enqueue? || (s.EnqueueUnique? && !InFlight(w.jobs, s.kind))) && Next(w, s).jobs[id].kind == s.kind
  {
  }
}
