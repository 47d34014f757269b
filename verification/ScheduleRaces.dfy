/**
 Two schedulers at once: EnqueueUnique looks for an instance of its kind and inserts one, and statements that overlap
 do not see each other's rows. Looking and inserting are two steps here; every other step is one of QueueProtocol's.
 */
module ScheduleRaces {
  import opened JobQueue
  import Induction
  import Q = QueueProtocol

  /** `looking` are the statements that have found no instance of their kind and are to insert one. */
  datatype World = World(queue: Q.World, looking: map<int, string>, started: set<int>)

  datatype Step = Look(c: int, kind: string) | Insert(c: int, job: JobId) | Other(step: Q.Step)

  const EMPTY: World := World(Q.EMPTY_WORLD, map[], {})

  function Next(w: World, s: Step): World {
    match s
    case Look(c, kind) =>
      if c in w.started || InFlight(w.queue.jobs, kind) then w else w.(looking := w.looking[c := kind], started := w.started + {c})
    case Insert(c, id) => if c in w.looking then w.(queue := Q.WithJob(w.queue, id, w.looking[c]), looking := w.looking - {c}) else w
    case Other(q) => if q.EnqueueUnique? then w else w.(queue := Q.Next(w.queue, q))
  }

  function Run(w: World, steps: seq<Step>): World
    decreases |steps|
  {
    if steps == [] then w else Next(Run(w, steps[..|steps| - 1]), steps[|steps| - 1])
  }

  function After(steps: seq<Step>, k: nat): World
    requires k <= |steps|
  {
    Run(EMPTY, steps[..k])
  }

  lemma AfterNext(steps: seq<Step>, k: nat)
    requires k < |steps|
    ensures After(steps, k + 1) == Next(After(steps, k), steps[k])
  {
    assert steps[..k + 1][..k] == steps[..k];
  }

  ghost predicate Inv(w: World) {
    Q.JobsOk(w.queue) && Q.HoldersOk(w.queue) && w.looking.Keys <= w.started
  }

  /** What the step does to the queue. */
  function QueueStep(w: World, s: Step): Q.Step {
    match s
    case Insert(c, id) => if c in w.looking then Q.Enqueue(id, w.looking[c]) else Q.Tick(0)
    case Other(q) => if q.EnqueueUnique? then Q.Tick(0) else q
    case Look(_, _) => Q.Tick(0)
  }

  lemma QueueStepIs(w: World, s: Step)
    ensures Next(w, s).queue == Q.Next(w.queue, QueueStep(w, s))
  {
  }

  lemma InvStep(w: World, s: Step)
    requires Inv(w)
    ensures Inv(Next(w, s))
  {
    QueueStepIs(w, s);
    Q.JobsOkStep(w.queue, QueueStep(w, s));
    Q.HoldersOkStep(w.queue, QueueStep(w, s));
  }

  lemma {:induction false} InvAlways(steps: seq<Step>, k: nat)
    requires k <= |steps|
    ensures Inv(After(steps, k))
    decreases k
  {
    if k == 0 {
      assert After(steps, 0) == EMPTY;
    } else {
      InvAlways(steps, k - 1);
      AfterNext(steps, k - 1);
      InvStep(After(steps, k - 1), steps[k - 1]);
    }
  }

  /** No job of the kind is enqueued otherwise than by EnqueueUnique. */
  predicate OnlyUnique(steps: seq<Step>, kind: string) {
    forall i :: 0 <= i < |steps| ==> NotPlain(steps[i], kind)
  }

  predicate NotPlain(s: Step, kind: string) {
    s.Other? && s.step.Enqueue? ==> s.step.kind != kind
  }

  /** The step inserts an instance of the kind. */
  predicate Inserts(w: World, s: Step, kind: string) {
    s.Insert? && s.c in w.looking && w.looking[s.c] == kind && s.job !in w.queue.history && s.job !in w.queue.jobs
  }

  /** An unfinished instance comes only from an insertion. */
  lemma AppearsByInsert(w: World, s: Step, kind: string, id: JobId)
    requires Inv(w) && NotPlain(s, kind)
    requires Unfinished(Next(w, s).queue.jobs, id, kind) && !Unfinished(w.queue.jobs, id, kind)
    ensures Inserts(w, s, kind) && s.job == id
  {
    QueueStepIs(w, s);
    Q.StepRevivesNone(w.queue, QueueStep(w, s), kind);
    assert id !in w.queue.jobs;
  }

  lemma InsertedIsUnfinished(w: World, s: Step, kind: string)
    requires Inv(w) && Inserts(w, s, kind)
    ensures Unfinished(Next(w, s).queue.jobs, s.job, kind)
    ensures forall id :: Unfinished(w.queue.jobs, id, kind) ==> id != s.job && Unfinished(Next(w, s).queue.jobs, id, kind)
  {
  }

  lemma OneInFlightStep(w: World, s: Step, kind: string)
    requires Inv(w) && NotPlain(s, kind) && Q.OneInFlight(w.queue.jobs, kind)
    ensures Q.OneInFlight(Next(w, s).queue.jobs, kind) <==> !(Inserts(w, s, kind) && InFlight(w.queue.jobs, kind))
  {
    var v := Next(w, s);
    if Inserts(w, s, kind) && InFlight(w.queue.jobs, kind) {
      var id :| Unfinished(w.queue.jobs, id, kind);
      InsertedIsUnfinished(w, s, kind);
      assert Unfinished(v.queue.jobs, id, kind) && Unfinished(v.queue.jobs, s.job, kind) && id != s.job;
    } else {
      forall a, b | Unfinished(v.queue.jobs, a, kind) && Unfinished(v.queue.jobs, b, kind) ensures a == b {
        if !Unfinished(w.queue.jobs, a, kind) { AppearsByInsert(w, s, kind, a); }
        if !Unfinished(w.queue.jobs, b, kind) { AppearsByInsert(w, s, kind, b); }
      }
    }
  }

  /**
   * Step k inserts an instance for a statement that had looked before step i inserted one, and that one is still unfinished.
   */
  ghost predicate Overtaken(steps: seq<Step>, i: nat, k: nat, kind: string) {
    i < k < |steps| && Inserts(After(steps, i), steps[i], kind) && Inserts(After(steps, k), steps[k], kind)
    && steps[k].c in After(steps, i).looking && Unfinished(After(steps, k).queue.jobs, steps[i].job, kind)
  }

  /** While a statement is between looking and inserting, every unfinished instance has been inserted since it looked. */
  lemma {:induction false} InsertedSince(steps: seq<Step>, k: nat, c: int, id: JobId, kind: string) returns (i: nat)
    requires OnlyUnique(steps, kind) && k <= |steps| && c in After(steps, k).looking && After(steps, k).looking[c] == kind
    requires Unfinished(After(steps, k).queue.jobs, id, kind)
    ensures i < k && Inserts(After(steps, i), steps[i], kind) && steps[i].job == id && c in After(steps, i).looking
    decreases k
  {
    assert After(steps, 0) == EMPTY;
    var w, s := After(steps, k - 1), steps[k - 1];
    AfterNext(steps, k - 1);
    InvAlways(steps, k - 1);
    LookedBefore(w, s, c, id, kind);
    if Unfinished(w.queue.jobs, id, kind) {
      i := InsertedSince(steps, k - 1, c, id, kind);
    } else {
      AppearsByInsert(w, s, kind, id);
      i := k - 1;
    }
  }

  lemma LookedBefore(w: World, s: Step, c: int, id: JobId, kind: string)
    requires Inv(w) && c in Next(w, s).looking && Next(w, s).looking[c] == kind && Unfinished(Next(w, s).queue.jobs, id, kind)
    ensures c in w.looking && w.looking[c] == kind
  {
    assert s.Look? ==> (Unfinished(w.queue.jobs, id, kind) <==> Unfinished(Next(w, s).queue.jobs, id, kind));
  }

  lemma OvertakenIff(steps: seq<Step>, k: nat, kind: string)
    requires OnlyUnique(steps, kind) && k < |steps|
    ensures Inserts(After(steps, k), steps[k], kind) && InFlight(After(steps, k).queue.jobs, kind) <==> exists i :: Overtaken(steps, i, k, kind)
  {
    if Inserts(After(steps, k), steps[k], kind) && InFlight(After(steps, k).queue.jobs, kind) {
      var id :| Unfinished(After(steps, k).queue.jobs, id, kind);
      var i := InsertedSince(steps, k, steps[k].c, id, kind);
      assert Overtaken(steps, i, k, kind);
    }
  }

  ghost predicate OneAt(steps: seq<Step>, k: nat, kind: string) {
    k <= |steps| && Q.OneInFlight(After(steps, k).queue.jobs, kind)
  }

  ghost predicate OvertakenAt(steps: seq<Step>, k: nat, kind: string) {
    exists i :: Overtaken(steps, i, k, kind)
  }

  lemma OneNext(steps: seq<Step>, k: nat, kind: string)
    requires OnlyUnique(steps, kind) && k < |steps| && OneAt(steps, k, kind)
    ensures OneAt(steps, k + 1, kind) <==> !OvertakenAt(steps, k, kind)
  {
    AfterNext(steps, k);
    InvAlways(steps, k);
    OneInFlightStep(After(steps, k), steps[k], kind);
    OvertakenIff(steps, k, kind);
  }

  /**
   * However the statements of schedulers overlap, a scheduled kind has at most one instance in flight at all times if and only
   * if no statement inserts one after another that it could not see has inserted one that is still unfinished.
   */
  lemma OneAtATimeIff(steps: seq<Step>, kind: string)
    requires OnlyUnique(steps, kind)
    ensures (forall k: nat :: k <= |steps| ==> OneAt(steps, k, kind)) <==> (forall k: nat :: k < |steps| ==> !OvertakenAt(steps, k, kind))
  {
    var good := (k: nat) => OneAt(steps, k, kind);
    var breaks := (k: nat) => OvertakenAt(steps, k, kind);
    assert After(steps, 0) == EMPTY;
    assert good(0);
    forall k: nat | k < |steps| && good(k) ensures good(k + 1) <==> !breaks(k) {
      OneNext(steps, k, kind);
    }
    Induction.ThroughoutIff(good, breaks, 0, |steps|);
    assert forall k: nat :: k <= |steps| ==> (good(k) <==> OneAt(steps, k, kind));
    assert forall k: nat :: k < |steps| ==> (breaks(k) <==> OvertakenAt(steps, k, kind));
  }

  /** Two schedulers that start together enqueue the job twice. */
  lemma TwoHappen(kind: string)
    ensures var looked := Next(Next(EMPTY, Look(0, kind)), Look(1, kind));
            !Q.OneInFlight(Next(Next(looked, Insert(0, 0)), Insert(1, 1)).queue.jobs, kind)
  {
    var looked := Next(Next(EMPTY, Look(0, kind)), Look(1, kind));
    assert looked.looking == map[0 := kind, 1 := kind];
    var v := Next(Next(looked, Insert(0, 0)), Insert(1, 1));
    assert Unfinished(v.queue.jobs, 0, kind) && Unfinished(v.queue.jobs, 1, kind);
  }
}
