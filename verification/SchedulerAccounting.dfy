/** What the scheduler's runs add up to: one-shot tasks drain, and periodic jobs are never lost. */
module SchedulerAccounting {
  import opened TaskScheduler

  // ---------------------------------------------------------------- sums over tasks

  ghost function Sum(ts: seq<Task>, f: Task -> int): int {
    if ts == [] then 0 else Sum(ts[..|ts| - 1], f) + f(ts[|ts| - 1])
  }

  lemma SumAppend(ts: seq<Task>, t: Task, f: Task -> int)
    ensures Sum(ts + [t], f) == Sum(ts, f) + f(t)
  {
    assert (ts + [t])[..|ts|] == ts;
  }

  lemma SumUpdate(ts: seq<Task>, i: nat, t: Task, f: Task -> int)
    requires i < |ts|
    ensures Sum(ts[i := t], f) == Sum(ts, f) - f(ts[i]) + f(t)
  {
    if i == |ts| - 1 {
      assert ts[i := t][..i] == ts[..i];
    } else {
      assert ts[i := t][..|ts| - 1] == ts[..|ts| - 1][i := t];
      SumUpdate(ts[..|ts| - 1], i, t, f);
    }
  }

  // ---------------------------------------------------------------- one-shot tasks drain

  ghost function PotentialOf(): Task -> int { (t: Task) => if t.job.OneShot? then Remaining(t) else 0 }

  /** How many executions the live one-shot tasks may still take. */
  ghost function Potential(s: State): int { Sum(s.tasks, PotentialOf()) }

  ghost predicate EndsOneShot(s: State, e: Event) {
    && e.Finish? && e.w < |s.workers| && s.workers[e.w].Returned?
    && s.workers[e.w].id < |s.tasks| && s.tasks[s.workers[e.w].id].job.OneShot?
  }

  /** Every execution of a one-shot task costs at least one unit of potential; only a submission
      adds any, and nothing else changes it. */
  lemma {:induction false} PotentialStep(s: State, e: Event)
    requires Inv(s)
    ensures EndsOneShot(s, e) ==> Potential(Apply(s, e)) < Potential(s)
    ensures e.Submit? ==>
      Potential(Apply(s, e)) == Potential(s) + if e.retryCount < e.maxRetries then e.maxRetries - e.retryCount + 1 else 1
    ensures !EndsOneShot(s, e) && !e.Submit? ==> Potential(Apply(s, e)) == Potential(s)
    ensures 0 <= Potential(s)
  {
    SumNonNegative(s.tasks, PotentialOf());
    match e
    case Tick(d) =>
    case Submit(l, r, m, due) => SumAppend(s.tasks, NewTask(OneShot, l, r, m, due), PotentialOf());
    case StartJob(job) => SumAppend(s.tasks, FirstCopy(job, s.now), PotentialOf());
    case _ => if e.w < |s.workers| { PotentialWorkerStep(s, e.w, e); }
  }

  /** The steps of a worker that neither end a task function nor report an outcome. */
  lemma QuietStep(s: State, w: nat, e: Event) returns (k: Worker)
    requires w < |s.workers| && (e.Begin? || e.Test? || e.Pop? || e.Decide?)
    ensures
      var s' := ApplyWorker(s, w, e);
      && s'.tasks == s.tasks && s'.started == s.started && s'.workers == s.workers[w := k]
      && (k == s.workers[w] || (!k.Returned? && !s.workers[w].Returned?))
  {
    k := ApplyWorker(s, w, e).workers[w];
  }

  lemma PotentialWorkerStep(s: State, w: nat, e: Event)
    requires Inv(s) && w < |s.workers|
    requires e.Begin? || e.Test? || e.Pop? || e.Decide? || e.Body? || e.Finish?
    requires e.w == w
    ensures EndsOneShot(s, e) ==> Potential(ApplyWorker(s, w, e)) < Potential(s)
    ensures !EndsOneShot(s, e) ==> Potential(ApplyWorker(s, w, e)) == Potential(s)
  {
    var k := s.workers[w];
    if e.Body? {
      if k.Executing? && k.id < |s.tasks| {
        SumAppend(s.tasks, NextCopy(s.tasks[k.id].job, s.now), PotentialOf());
      }
    } else if e.Finish? {
      if k.Returned? && k.id < |s.tasks| {
        PotentialFinish(s, w, k.id, k.start, e.raised);
      }
    } else {
      var _ := QuietStep(s, w, e);
    }
  }

  lemma PotentialFinish(s: State, w: nat, id: nat, start: int, raised: bool)
    requires Inv(s) && w < |s.workers| && s.workers[w] == Returned(id, start) && id < |s.tasks|
    ensures s.tasks[id].job.OneShot? ==> Potential(FinishTask(s, w, id, start, raised)) < Potential(s)
    ensures !s.tasks[id].job.OneShot? ==> Potential(FinishTask(s, w, id, start, raised)) == Potential(s)
  {
    HeldIsPending(s, w, id);
    var t := s.tasks[id];
    var t' := if raised then Failed(t, start, s.now) else Completed(t, start, s.now);
    SumUpdate(s.tasks, id, t', PotentialOf());
    assert FinishTask(s, w, id, start, raised).tasks == s.tasks[id := t'];
  }

  lemma SumNonNegative(ts: seq<Task>, f: Task -> int)
    requires forall i: nat :: i < |ts| ==> 0 <= f(ts[i])
    ensures 0 <= Sum(ts, f)
  {}

  ghost function RunsOf(): Task -> int { (t: Task) => if t.job.OneShot? then |t.runs| else 0 }
  ghost function OneShotsOf(): Task -> int { (t: Task) => if t.job.OneShot? then 1 else 0 }

  /** How often a one-shot task was allowed to be executed when it was submitted. */
  ghost function AllowanceOf(): Task -> int { (t: Task) => if t.job.OneShot? then Allowance(t) else 0 }

  /** In every run the executions of one-shot tasks, with those still possible, stay within what the
      tasks were submitted with, whatever fails. */
  lemma DrainsWithinAllowance(workers: nat, now: int, es: seq<Event>)
    ensures
      var s := Run(workers, now, es);
      Sum(s.tasks, RunsOf()) + Potential(s) <= Sum(s.tasks, AllowanceOf())
  {
    var s := Run(workers, now, es);
    RunInv(workers, now, es);
    forall i: nat | i < |s.tasks| ensures RunsOf()(s.tasks[i]) + PotentialOf()(s.tasks[i]) <= AllowanceOf()(s.tasks[i]) {
      assert HistoryOk(s.tasks[i]);
    }
    SumBound(s.tasks, RunsOf(), PotentialOf(), AllowanceOf());
  }

  /** With the default settings, N one-shot tasks take at most 4N executions in all. */
  lemma DrainsWithinFourEach(workers: nat, now: int, es: seq<Event>)
    requires forall i: nat :: i < |es| && es[i].Submit? ==> es[i].retryCount == 0 && es[i].maxRetries == 3
    ensures
      var s := Run(workers, now, es);
      Sum(s.tasks, RunsOf()) + Potential(s) <= 4 * Sum(s.tasks, OneShotsOf())
  {
    DrainsWithinAllowance(workers, now, es);
    DefaultsKept(workers, now, es);
    SumOfFours(Run(workers, now, es).tasks);
  }

  lemma {:induction false} SumBound(ts: seq<Task>, f: Task -> int, g: Task -> int, h: Task -> int)
    requires forall i: nat :: i < |ts| ==> f(ts[i]) + g(ts[i]) <= h(ts[i])
    ensures Sum(ts, f) + Sum(ts, g) <= Sum(ts, h)
  {
    if ts != [] {
      SumBound(ts[..|ts| - 1], f, g, h);
    }
  }

  lemma {:induction false} SumOfFours(ts: seq<Task>)
    requires forall t :: t in ts ==> t.firstRetry == 0 && t.maxRetries == 3
    ensures Sum(ts, AllowanceOf()) == 4 * Sum(ts, OneShotsOf())
  {
    if ts != [] {
      assert ts[|ts| - 1] in ts;
      SumOfFours(ts[..|ts| - 1]);
    }
  }

  lemma {:induction false} DefaultsKept(workers: nat, now: int, es: seq<Event>)
    requires forall i: nat :: i < |es| && es[i].Submit? ==> es[i].retryCount == 0 && es[i].maxRetries == 3
    ensures forall t :: t in Run(workers, now, es).tasks ==> t.firstRetry == 0 && t.maxRetries == 3
  {
    if es != [] {
      var es0 := es[..|es| - 1];
      forall i: nat | i < |es0| && es0[i].Submit? ensures es0[i].retryCount == 0 && es0[i].maxRetries == 3 {
        assert es[i] == es0[i];
      }
      DefaultsKept(workers, now, es0);
    }
  }

  // ---------------------------------------------------------------- periodic jobs are never lost

  function EndedCopy(k: Worker, ts: seq<Task>, job: Job): nat {
    if k.Returned? && k.id < |ts| && ts[k.id].job == job then 1 else 0
  }

  /** Copies whose task function has ended, so that their `finally` has run. */
  function EndedCopies(ks: seq<Worker>, ts: seq<Task>, job: Job): nat {
    if ks == [] then 0 else EndedCopies(ks[..|ks| - 1], ts, job) + EndedCopy(ks[|ks| - 1], ts, job)
  }

  ghost function PendingOf(job: Job): Task -> int { (t: Task) => if t.job == job && t.outcome.Pending? then 1 else 0 }
  ghost function RetriesOf(job: Job): Task -> int { (t: Task) => if t.job == job then t.retryCount else 0 }

  /** Copies of `job` that are queued, or in a worker's hands with their `finally` still to come. */
  ghost function LiveCopies(s: State, job: Job): int {
    Sum(s.tasks, PendingOf(job)) - EndedCopies(s.workers, s.tasks, job)
  }

  /** Failed executions of `job` that were retried. */
  ghost function RetriedFailures(s: State, job: Job): int { Sum(s.tasks, RetriesOf(job)) }

  ghost predicate CopiesBalance(s: State, job: Job) {
    LiveCopies(s, job) == (if job in s.started then 1 else 0) + RetriedFailures(s, job)
  }

  lemma EndedUpdate(ks: seq<Worker>, ts: seq<Task>, job: Job, w: nat, k: Worker)
    requires w < |ks|
    ensures EndedCopies(ks[w := k], ts, job) == EndedCopies(ks, ts, job) - EndedCopy(ks[w], ts, job) + EndedCopy(k, ts, job)
  {
    if w == |ks| - 1 {
      assert ks[w := k][..w] == ks[..w];
    } else {
      assert ks[w := k][..|ks| - 1] == ks[..|ks| - 1][w := k];
      EndedUpdate(ks[..|ks| - 1], ts, job, w, k);
    }
  }

  /** Only the jobs of the tasks matter, and those of the objects the workers hold never change. */
  lemma EndedSameJobs(ks: seq<Worker>, ts: seq<Task>, ts': seq<Task>, job: Job)
    requires |ts| <= |ts'| && forall i: nat :: i < |ts| ==> ts'[i].job == ts[i].job
    requires forall k :: k in ks && k.Returned? ==> k.id < |ts|
    ensures EndedCopies(ks, ts', job) == EndedCopies(ks, ts, job)
  {}

  lemma AddTaskBalance(s: State, t: Task, job: Job)
    requires Inv(s) && t.retryCount == 0 && t.outcome.Pending?
    ensures LiveCopies(AddTask(s, t), job) == LiveCopies(s, job) + if t.job == job then 1 else 0
    ensures RetriedFailures(AddTask(s, t), job) == RetriedFailures(s, job)
  {
    SumAppend(s.tasks, t, PendingOf(job));
    SumAppend(s.tasks, t, RetriesOf(job));
    ReturnedAreTasks(s);
    EndedSameJobs(s.workers, s.tasks, s.tasks + [t], job);
  }

  lemma SetWorkerBalance(s: State, w: nat, k: Worker, job: Job)
    requires w < |s.workers| && EndedCopy(k, s.tasks, job) == EndedCopy(s.workers[w], s.tasks, job)
    ensures LiveCopies(SetWorker(s, w, k), job) == LiveCopies(s, job)
    ensures RetriedFailures(SetWorker(s, w, k), job) == RetriedFailures(s, job)
  {
    EndedUpdate(s.workers, s.tasks, job, w, k);
  }

  lemma BodyBalance(s: State, w: nat, id: nat, start: int, job: Job)
    requires Inv(s) && w < |s.workers| && s.workers[w] == Executing(id, start) && id < |s.tasks|
    requires !job.OneShot? && CopiesBalance(s, job)
    ensures CopiesBalance(RunBody(s, w, id, start), job)
  {
    var s1 := SetWorker(s, w, Returned(id, start));
    assert WorkerOk(s, s.workers[w]);
    MoveInv(s, w, Returned(id, start));
    EndedUpdate(s.workers, s.tasks, job, w, Returned(id, start));
    if !s.tasks[id].job.OneShot? {
      AddTaskBalance(s1, NextCopy(s.tasks[id].job, s.now), job);
    }
  }

  /** Task object `id` leaves the hands of worker `w` with record `t`. */
  lemma ReplaceBalance(s: State, w: nat, id: nat, t: Task, job: Job)
    requires Inv(s) && w < |s.workers| && s.workers[w].Returned? && s.workers[w].id == id && id < |s.tasks|
    requires t.job == s.tasks[id].job
    ensures EndedCopies(s.workers[w := Idle], s.tasks[id := t], job)
         == EndedCopies(s.workers, s.tasks, job) - if t.job == job then 1 else 0
    ensures Sum(s.tasks[id := t], PendingOf(job))
         == Sum(s.tasks, PendingOf(job)) - PendingOf(job)(s.tasks[id]) + PendingOf(job)(t)
    ensures Sum(s.tasks[id := t], RetriesOf(job))
         == Sum(s.tasks, RetriesOf(job)) - RetriesOf(job)(s.tasks[id]) + RetriesOf(job)(t)
  {
    SumUpdate(s.tasks, id, t, PendingOf(job));
    SumUpdate(s.tasks, id, t, RetriesOf(job));
    EndedUpdate(s.workers, s.tasks, job, w, Idle);
    ReturnedAreTasks(s);
    EndedSameJobs(s.workers[w := Idle], s.tasks, s.tasks[id := t], job);
  }

  lemma FinishBalance(s: State, w: nat, id: nat, start: int, raised: bool, job: Job)
    requires Inv(s) && w < |s.workers| && s.workers[w] == Returned(id, start) && id < |s.tasks|
    requires CopiesBalance(s, job)
    ensures CopiesBalance(FinishTask(s, w, id, start, raised), job)
  {
    HeldIsPending(s, w, id);
    var t := s.tasks[id];
    var t' := if raised then Failed(t, start, s.now) else Completed(t, start, s.now);
    ReplaceBalance(s, w, id, t', job);
    var s' := FinishTask(s, w, id, start, raised);
    assert s'.tasks == s.tasks[id := t'] && s'.workers == s.workers[w := Idle] && s'.started == s.started;
  }

  lemma ReturnedAreTasks(s: State)
    requires Inv(s)
    ensures forall k :: k in s.workers && k.Returned? ==> k.id < |s.tasks|
  {
    forall k | k in s.workers && k.Returned? ensures k.id < |s.tasks| {
      var w: nat :| w < |s.workers| && s.workers[w] == k;
      assert WorkerOk(s, s.workers[w]);
    }
  }

  lemma ApplyBalance(s: State, e: Event, job: Job)
    requires Inv(s) && !job.OneShot? && CopiesBalance(s, job)
    ensures CopiesBalance(Apply(s, e), job)
  {
    match e
    case Tick(d) =>
    case Submit(l, r, m, due) => SubmitBalance(s, NewTask(OneShot, l, r, m, due), job);
    case StartJob(j) => if !(j.OneShot? || j in s.started) { StartBalance(s, j, job); }
    case _ =>
      if e.w < |s.workers| { WorkerBalance(s, e.w, e, job); }
  }

  lemma StartBalance(s: State, j: Job, job: Job)
    requires Inv(s) && !j.OneShot? && j !in s.started && CopiesBalance(s, job)
    ensures CopiesBalance(Apply(s, StartJob(j)), job)
  {
    var s1 := s.(started := s.started + {j});
    SamePlaces(s, s1);
    OtherWorkersOk(s, s1, |s.workers|);
    AddTaskBalance(s1, FirstCopy(j, s.now), job);
  }

  lemma WorkerBalance(s: State, w: nat, e: Event, job: Job)
    requires Inv(s) && !job.OneShot? && CopiesBalance(s, job) && w < |s.workers|
    requires e.Begin? || e.Test? || e.Pop? || e.Decide? || e.Body? || e.Finish?
    ensures CopiesBalance(ApplyWorker(s, w, e), job)
  {
    var k := s.workers[w];
    if e.Body? {
      if k.Executing? && k.id < |s.tasks| {
        BodyBalance(s, w, k.id, k.start, job);
      }
    } else if e.Finish? {
      if k.Returned? && k.id < |s.tasks| {
        FinishBalance(s, w, k.id, k.start, e.raised, job);
      }
    } else {
      var k' := QuietStep(s, w, e);
      SetWorkerBalance(s, w, k', job);
    }
  }

  lemma SubmitBalance(s: State, t: Task, job: Job)
    requires Inv(s) && t.job.OneShot? && !job.OneShot? && CopiesBalance(s, job)
    ensures CopiesBalance(AddTask(s, t), job)
  {
    SumAppend(s.tasks, t, PendingOf(job));
    SumAppend(s.tasks, t, RetriesOf(job));
    ReturnedAreTasks(s);
    EndedSameJobs(s.workers, s.tasks, s.tasks + [t], job);
  }

  /** After every run, the live copies of a periodic job that was started number one plus its
      failed executions that were retried: the job is never lost, and every retried failure
      leaves one more copy for good. */
  lemma {:induction false} CopiesOfPeriodicJob(workers: nat, now: int, es: seq<Event>, job: Job)
    requires !job.OneShot?
    ensures
      var s := Run(workers, now, es);
      LiveCopies(s, job) == (if job in s.started then 1 else 0) + RetriedFailures(s, job)
  {
    if es == [] {
      NoneEnded(Initial(workers, now).workers, [], job);
    } else {
      CopiesOfPeriodicJob(workers, now, es[..|es| - 1], job);
      RunInv(workers, now, es[..|es| - 1]);
      ApplyBalance(Run(workers, now, es[..|es| - 1]), es[|es| - 1], job);
    }
  }

  lemma NoneEnded(ks: seq<Worker>, ts: seq<Task>, job: Job)
    requires forall w: nat :: w < |ks| ==> ks[w] == Idle
    ensures EndedCopies(ks, ts, job) == 0
  {}

  /** The job is never lost; without a failure there is exactly one copy. */
  lemma PeriodicJobNeverLost(workers: nat, now: int, es: seq<Event>, job: Job)
    requires !job.OneShot? && job in Run(workers, now, es).started
    ensures LiveCopies(Run(workers, now, es), job) >= 1
    ensures (forall i: nat :: i < |es| && es[i].Finish? ==> !es[i].raised) ==> LiveCopies(Run(workers, now, es), job) == 1
  {
    var s := Run(workers, now, es);
    CopiesOfPeriodicJob(workers, now, es, job);
    RunInv(workers, now, es);
    forall i: nat | i < |s.tasks| ensures 0 <= RetriesOf(job)(s.tasks[i]) {
      assert HistoryOk(s.tasks[i]);
    }
    SumNonNegative(s.tasks, RetriesOf(job));
    if forall i: nat :: i < |es| && es[i].Finish? ==> !es[i].raised {
      NoRetries(workers, now, es, job);
    }
  }

  lemma {:induction false} NoRetries(workers: nat, now: int, es: seq<Event>, job: Job)
    requires !job.OneShot?
    requires forall i: nat :: i < |es| && es[i].Finish? ==> !es[i].raised
    ensures RetriedFailures(Run(workers, now, es), job) == 0
  {
    if es != [] {
      var es0, e := es[..|es| - 1], es[|es| - 1];
      forall i: nat | i < |es0| && es0[i].Finish? ensures !es0[i].raised { assert es[i] == es0[i]; }
      NoRetries(workers, now, es0, job);
      NoRetryStep(Run(workers, now, es0), e, job);
    }
  }

  lemma NoRetryStep(s: State, e: Event, job: Job)
    requires !job.OneShot? && (e.Finish? ==> !e.raised)
    ensures RetriedFailures(Apply(s, e), job) == RetriedFailures(s, job)
  {
    match e
    case Tick(d) =>
    case Submit(l, r, m, due) => SumAppend(s.tasks, NewTask(OneShot, l, r, m, due), RetriesOf(job));
    case StartJob(j) => SumAppend(s.tasks, FirstCopy(j, s.now), RetriesOf(job));
    case _ => if e.w < |s.workers| { NoRetryWorkerStep(s, e.w, e, job); }
  }

  lemma NoRetryWorkerStep(s: State, w: nat, e: Event, job: Job)
    requires !job.OneShot? && (e.Finish? ==> !e.raised) && w < |s.workers|
    requires e.Begin? || e.Test? || e.Pop? || e.Decide? || e.Body? || e.Finish?
    ensures RetriedFailures(ApplyWorker(s, w, e), job) == RetriedFailures(s, job)
  {
    var k := s.workers[w];
    if e.Body? {
      if k.Executing? && k.id < |s.tasks| {
        SumAppend(s.tasks, NextCopy(s.tasks[k.id].job, s.now), RetriesOf(job));
      }
    } else if e.Finish? {
      if k.Returned? && k.id < |s.tasks| {
        SumUpdate(s.tasks, k.id, Completed(s.tasks[k.id], k.start, s.now), RetriesOf(job));
      }
    } else {
      var _ := QuietStep(s, w, e);
    }
  }
}
