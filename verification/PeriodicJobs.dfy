/** The copies of the two periodic jobs: at which priority each is queued, and when it is first due. */
module PeriodicJobs {
  import opened TaskScheduler

  /** At event `n` of the run a worker ends the task function of copy `p` of a job. */
  ghost predicate EndsBody(workers: nat, now: int, es: seq<Event>, n: nat, p: nat)
    requires n < |es|
  {
    var s := Run(workers, now, es[..n]);
    && es[n].Body? && es[n].w < |s.workers|
    && s.workers[es[n].w].Executing? && s.workers[es[n].w].id == p < |s.tasks|
  }

  /** What never changes about a task object. */
  predicate SameObject(t: Task, t': Task) {
    && t'.job == t.job && t'.level == t.level && t'.maxRetries == t.maxRetries
    && t'.firstRetry == t.firstRetry && t'.firstDue == t.firstDue
  }

  lemma ObjectsStay(s: State, e: Event)
    ensures |s.tasks| <= |Apply(s, e).tasks| <= |s.tasks| + 1
    ensures forall i: nat :: i < |s.tasks| ==> SameObject(s.tasks[i], Apply(s, e).tasks[i])
  {}

  /** Ending a task function of collection indexing queues one new copy last at HIGH, due in fifteen minutes;
      ending one of the transaction retry queues one last at MEDIUM, due in thirty; ending any other task
      function queues nothing. */
  lemma BodyAddsCopy(s: State, w: nat)
    requires w < |s.workers| && s.workers[w].Executing? && s.workers[w].id < |s.tasks|
    ensures
      var s', job := Apply(s, Body(w)), s.tasks[s.workers[w].id].job;
      && (job.OneShot? ==> s'.tasks == s.tasks && s'.queues == s.queues)
      && (!job.OneShot? ==>
            && |s'.tasks| == |s.tasks| + 1 && s'.tasks[..|s.tasks|] == s.tasks
            && s'.tasks[|s.tasks|].job == job && s'.tasks[|s.tasks|].outcome.Pending?
            && s'.tasks[|s.tasks|].retryCount == 0 && s'.tasks[|s.tasks|].maxRetries == 3)
      && (job.CollectionIndexing? ==>
            && s'.queues == s.queues[1 := s.queues[1] + [|s.tasks|]]
            && s'.tasks[|s.tasks|].scheduledFor == s.now + 900_000_000)
      && (job.FailedTransactionRetry? ==>
            && s'.queues == s.queues[2 := s.queues[2] + [|s.tasks|]]
            && s'.tasks[|s.tasks|].scheduledFor == s.now + 1_800_000_000)
  {}

  /** Starting the manager queues the first copies: indexing is due at once, transaction retry in ten minutes. */
  lemma StartAddsCopies(s: State)
    requires s.started == {}
    ensures
      var s' := Apply(Apply(s, StartJob(CollectionIndexing)), StartJob(FailedTransactionRetry));
      var i, r := |s.tasks|, |s.tasks| + 1;
      && |s'.tasks| == |s.tasks| + 2 && s'.tasks[..|s.tasks|] == s.tasks
      && s'.tasks[i].job.CollectionIndexing? && s'.tasks[i].scheduledFor == s.now
      && s'.tasks[r].job.FailedTransactionRetry? && s'.tasks[r].scheduledFor == s.now + 600_000_000
      && s'.tasks[i].maxRetries == s'.tasks[r].maxRetries == 3 && s'.tasks[i].retryCount == s'.tasks[r].retryCount == 0
      && s'.queues == s.queues[1 := s.queues[1] + [i]][2 := s.queues[2] + [r]]
  {}

  /** A task that is executed again is due no earlier than it first was. */
  lemma {:induction false} NeverEarlier(t: Task, k: nat)
    requires forall i: nat :: i < |t.runs| ==> EarliestStart(t, i) <= t.runs[i].start <= t.runs[i].end
    requires 0 <= t.firstRetry && k <= |t.runs|
    ensures t.firstDue <= EarliestStart(t, k)
  {
    if k > 0 {
      NeverEarlier(t, k - 1);
      BackoffPositive(t.firstRetry + k);
    }
  }

  lemma BackoffPositive(k: int)
    requires 0 <= k
    ensures 0 <= Backoff(k)
  {}

  /** Where a copy comes from: event `n` of the run, and for all but the first ones copy `p`. */
  ghost predicate Origin(workers: nat, now: int, es: seq<Event>, t: Task, n: nat, p: nat)
    requires n < |es|
  {
    var clock := Run(workers, now, es[..n]).now;
    if t.job.CollectionIndexing? then
      || (es[n] == StartJob(t.job) && t.firstDue == clock)
      || (EndsBody(workers, now, es, n, p) && Run(workers, now, es[..n]).tasks[p].job == t.job && t.firstDue == clock + 900_000_000)
    else
      || (es[n] == StartJob(t.job) && t.firstDue == clock + 600_000_000)
      || (EndsBody(workers, now, es, n, p) && Run(workers, now, es[..n]).tasks[p].job == t.job && t.firstDue == clock + 1_800_000_000)
  }

  lemma OriginKept(workers: nat, now: int, es: seq<Event>, e: Event, t: Task, t': Task, n: nat, p: nat)
    requires n < |es| && Origin(workers, now, es, t, n, p) && SameObject(t, t')
    ensures Origin(workers, now, es + [e], t', n, p)
  {
    assert (es + [e])[..n] == es[..n] && (es + [e])[n] == es[n];
  }

  lemma NewestOrigin(s: State, e: Event)
    requires |Apply(s, e).tasks| == |s.tasks| + 1 && !Apply(s, e).tasks[|s.tasks|].job.OneShot?
    ensures
      var t := Apply(s, e).tasks[|s.tasks|];
      var p := if e.Body? && e.w < |s.workers| && s.workers[e.w].Executing? then s.workers[e.w].id else 0;
      && (e == StartJob(t.job) || (e.Body? && e.w < |s.workers| && s.workers[e.w].Executing? && p < |s.tasks| && s.tasks[p].job == t.job))
      && t.firstDue == s.now + (if t.job.CollectionIndexing? then (if e.Body? then 900_000_000 else 0)
                                else (if e.Body? then 1_800_000_000 else 600_000_000))
  {}

  /** In every run each copy of a periodic job was added either by the start of the manager, and is then due at
      once or in ten minutes, or when the task function of a copy of the same job ended, and is then due fifteen
      or thirty minutes after that. */
  lemma {:induction false} CopyOrigin(workers: nat, now: int, es: seq<Event>, id: nat) returns (n: nat, p: nat)
    requires id < |Run(workers, now, es).tasks| && !Run(workers, now, es).tasks[id].job.OneShot?
    ensures n < |es| && |Run(workers, now, es[..n]).tasks| <= id
    ensures Origin(workers, now, es, Run(workers, now, es).tasks[id], n, p)
  {
    var es0, e := es[..|es| - 1], es[|es| - 1];
    var s, s' := Run(workers, now, es0), Run(workers, now, es);
    assert es0 + [e] == es;
    ObjectsStay(s, e);
    if id < |s.tasks| {
      n, p := CopyOrigin(workers, now, es0, id);
      assert es0[..n] == es[..n];
      OriginKept(workers, now, es0, e, s.tasks[id], s'.tasks[id], n, p);
    } else {
      NewestOrigin(s, e);
      n := |es| - 1;
      p := if e.Body? && e.w < |s.workers| && s.workers[e.w].Executing? then s.workers[e.w].id else 0;
    }
  }

  /** Copies of indexing are of level HIGH, those of the transaction retry of level MEDIUM, and all have the default
      of three retries. */
  predicate LevelOk(t: Task) {
    && (t.job.CollectionIndexing? ==> t.level == 1)
    && (t.job.FailedTransactionRetry? ==> t.level == 2)
    && (!t.job.OneShot? ==> t.firstRetry == 0 && t.maxRetries == 3)
  }

  ghost predicate LevelsOk(s: State) { forall i: nat :: i < |s.tasks| ==> LevelOk(s.tasks[i]) }

  lemma NewestLevel(s: State, e: Event)
    requires |Apply(s, e).tasks| == |s.tasks| + 1
    ensures LevelOk(Apply(s, e).tasks[|s.tasks|])
  {}

  lemma LevelsKept(s: State, e: Event)
    requires LevelsOk(s)
    ensures LevelsOk(Apply(s, e))
  {
    ObjectsStay(s, e);
    if |Apply(s, e).tasks| > |s.tasks| {
      NewestLevel(s, e);
    }
  }

  lemma {:induction false} LevelsInRun(workers: nat, now: int, es: seq<Event>)
    ensures LevelsOk(Run(workers, now, es))
  {
    if es != [] {
      LevelsInRun(workers, now, es[..|es| - 1]);
      LevelsKept(Run(workers, now, es[..|es| - 1]), es[|es| - 1]);
    }
  }

  /** In every run a copy of indexing waits in the queue of HIGH and a copy of the transaction retry in that of
      MEDIUM, whenever it waits, retries included. */
  lemma CopiesWaitAtTheirLevel(workers: nat, now: int, es: seq<Event>, l: Level, i: nat)
    requires i < |Run(workers, now, es).queues[l]|
    ensures
      var s := Run(workers, now, es);
      && s.queues[l][i] < |s.tasks|
      && (s.tasks[s.queues[l][i]].job.CollectionIndexing? ==> l == 1)
      && (s.tasks[s.queues[l][i]].job.FailedTransactionRetry? ==> l == 2)
  {
    RunInv(workers, now, es);
    LevelsInRun(workers, now, es);
    var s := Run(workers, now, es);
    assert LevelOk(s.tasks[s.queues[l][i]]);
  }

  /** Copies keep their distance: in every run, a copy that was not added by the start of the manager is first due
      at least fifteen minutes (transaction retry: thirty) after an earlier copy of the same job first was, and
      so is every execution of it. */
  lemma {:induction false} CopiesApart(workers: nat, now: int, es: seq<Event>, id: nat) returns (n: nat, p: nat)
    requires id < |Run(workers, now, es).tasks| && !Run(workers, now, es).tasks[id].job.OneShot?
    ensures
      var ts := Run(workers, now, es).tasks;
      && n < |es|
      && (es[n] == StartJob(ts[id].job)
          || (&& p < id && ts[p].job == ts[id].job
              && ts[p].firstDue + (if ts[id].job.CollectionIndexing? then 900_000_000 else 1_800_000_000) <= ts[id].firstDue))
      && forall k: nat :: k < |ts[id].runs| ==> ts[id].firstDue <= ts[id].runs[k].start
  {
    n, p := CopyOrigin(workers, now, es, id);
    var s, s0 := Run(workers, now, es), Run(workers, now, es[..n]);
    RunInv(workers, now, es);
    RunInv(workers, now, es[..n]);
    LevelsInRun(workers, now, es);
    assert HistoryOk(s.tasks[id]) && LevelOk(s.tasks[id]);
    forall k: nat | k < |s.tasks[id].runs| ensures s.tasks[id].firstDue <= s.tasks[id].runs[k].start {
      NeverEarlier(s.tasks[id], k);
      assert EarliestStart(s.tasks[id], k) <= s.tasks[id].runs[k].start;
    }
    if es[n] != StartJob(s.tasks[id].job) {
      ObjectsStayInRun(workers, now, es, n, p);
      ExecutedWhenDue(s0, es[n].w);
    }
  }

  lemma ExecutedWhenDue(s: State, w: nat)
    requires Inv(s) && LevelsOk(s) && w < |s.workers| && s.workers[w].Executing? && s.workers[w].id < |s.tasks|
    requires !s.tasks[s.workers[w].id].job.OneShot?
    ensures s.tasks[s.workers[w].id].firstDue <= s.now
  {
    var t := s.tasks[s.workers[w].id];
    assert WorkerOk(s, s.workers[w]) && HistoryOk(t) && LevelOk(t);
    HeldIsPending(s, w, s.workers[w].id);
    NeverEarlier(t, |t.runs|);
  }

  lemma {:induction false} ObjectsStayInRun(workers: nat, now: int, es: seq<Event>, n: nat, p: nat)
    requires n <= |es| && p < |Run(workers, now, es[..n]).tasks|
    ensures p < |Run(workers, now, es).tasks| && SameObject(Run(workers, now, es[..n]).tasks[p], Run(workers, now, es).tasks[p])
    ensures LevelsOk(Run(workers, now, es[..n]))
    decreases |es|
  {
    LevelsInRun(workers, now, es[..n]);
    if n == |es| {
      assert es[..n] == es;
    } else {
      var es0 := es[..|es| - 1];
      assert es0[..n] == es[..n];
      ObjectsStayInRun(workers, now, es0, n, p);
      ObjectsStay(Run(workers, now, es0), es[|es| - 1]);
    }
  }
}
