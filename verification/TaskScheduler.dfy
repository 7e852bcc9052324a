/** The priority task scheduler as worker threads interleave on it.

    Every worker loop is cut at the points where another thread can run: the
    emptiness test, `popleft`, the due check with `appendleft`, the task
    function, and the handling of its outcome.  A run is any list of events; an
    event that the state does not allow changes nothing. */
module TaskScheduler {

  /** Microseconds, the resolution of a Python `datetime`. */
  const MINUTE := 60_000_000

  /** Queues in the order they are scanned: 0 is CRITICAL and 3 is LOW. */
  type Level = l: nat | l < 4
  const HIGH: Level := 1
  const MEDIUM: Level := 2

  type Queues = qs: seq<seq<nat>> | |qs| == 4 witness [[], [], [], []]

  datatype Job = OneShot | CollectionIndexing | FailedTransactionRetry

  datatype Outcome = Pending | Succeeded | Exhausted

  datatype Execution = Execution(start: int, end: int)

  /** One task object.  `firstRetry` and `firstDue` are the values it was created
      with and `runs` is the history of its executions. */
  datatype Task = Task(
    job: Job, level: Level, maxRetries: int,
    firstRetry: int, firstDue: int,
    retryCount: int, scheduledFor: int,
    outcome: Outcome, runs: seq<Execution>)

  datatype Worker =
    | Idle
    | Scanning(level: Level)
    | SawTask(level: Level)
    | Holding(level: Level, id: nat)
    | Executing(id: nat, start: int)
    | Returned(id: nat, start: int)

  /** `tasks` lists every task object ever created; its index is its identity. */
  datatype State = State(now: int, tasks: seq<Task>, queues: Queues, workers: seq<Worker>, started: set<Job>)

  datatype Event =
    | Tick(elapsed: nat)
    | Submit(level: Level, retryCount: int, maxRetries: int, due: int)
    | StartJob(job: Job)
    | Begin(w: nat)
    | Test(w: nat)
    | Pop(w: nat)
    | Decide(w: nat)
    | Body(w: nat)
    | Finish(w: nat, raised: bool)

  // ---------------------------------------------------------------- transitions

  function NewTask(job: Job, level: Level, retryCount: int, maxRetries: int, due: int): Task {
    Task(job, level, maxRetries, retryCount, due, retryCount, due, Pending, [])
  }

  /** The first copy of a periodic job, as `start` schedules it. */
  function FirstCopy(job: Job, now: int): Task {
    if job.CollectionIndexing? then NewTask(job, HIGH, 0, 3, now)
    else NewTask(job, MEDIUM, 0, 3, now + 10 * MINUTE)
  }

  /** The copy that the `finally` block of a periodic job adds. */
  function NextCopy(job: Job, now: int): Task {
    if job.CollectionIndexing? then NewTask(job, HIGH, 0, 3, now + 15 * MINUTE)
    else NewTask(job, MEDIUM, 0, 3, now + 30 * MINUTE)
  }

  /** How long retry number `k` waits: two minutes more than the one before. */
  function Backoff(k: int): int { k * 2 * 60_000_000 }

  predicate WillRetry(t: Task) { t.retryCount < t.maxRetries }

  function Failed(t: Task, start: int, now: int): Task {
    var t' := t.(runs := t.runs + [Execution(start, now)]);
    if WillRetry(t) then
      t'.(retryCount := t.retryCount + 1, scheduledFor := now + Backoff(t.retryCount + 1))
    else
      t'.(outcome := Exhausted)
  }

  function Completed(t: Task, start: int, now: int): Task {
    t.(runs := t.runs + [Execution(start, now)], outcome := Succeeded)
  }

  function Append(qs: Queues, l: Level, id: nat): Queues { qs[l := qs[l] + [id]] }

  function AddTask(s: State, t: Task): State {
    s.(tasks := s.tasks + [t], queues := Append(s.queues, t.level, |s.tasks|))
  }

  function NextLevel(l: Level): Worker { if l == 3 then Idle else Scanning(l + 1) }

  function SetWorker(s: State, w: nat, k: Worker): State
    requires w < |s.workers|
  {
    s.(workers := s.workers[w := k])
  }

  /** The emptiness test of `_get_next_task`. */
  function TestQueue(s: State, w: nat, l: Level): State
    requires w < |s.workers|
  {
    SetWorker(s, w, if s.queues[l] != [] then SawTask(l) else NextLevel(l))
  }

  /** `popleft`.  On a queue another worker has emptied it raises and the loop starts over. */
  function PopHead(s: State, w: nat, l: Level): State
    requires w < |s.workers|
  {
    if s.queues[l] == [] then SetWorker(s, w, Idle)
    else SetWorker(s, w, Holding(l, s.queues[l][0])).(queues := s.queues[l := s.queues[l][1..]])
  }

  /** Execute the popped task if it is due, else put it back and look at the next queue. */
  function DecideTask(s: State, w: nat, l: Level, id: nat): State
    requires w < |s.workers| && id < |s.tasks|
  {
    if s.tasks[id].scheduledFor <= s.now then SetWorker(s, w, Executing(id, s.now))
    else SetWorker(s, w, NextLevel(l)).(queues := s.queues[l := [id] + s.queues[l]])
  }

  /** The task function ends, by returning or raising; a periodic job has then added its next copy. */
  function RunBody(s: State, w: nat, id: nat, start: int): State
    requires w < |s.workers| && id < |s.tasks|
  {
    var s' := SetWorker(s, w, Returned(id, start));
    if s.tasks[id].job.OneShot? then s' else AddTask(s', NextCopy(s.tasks[id].job, s.now))
  }

  /** The success record, or the retry logic of the `except` clause. */
  function FinishTask(s: State, w: nat, id: nat, start: int, raised: bool): State
    requires w < |s.workers| && id < |s.tasks|
  {
    var s' := SetWorker(s, w, Idle);
    var t := s.tasks[id];
    if !raised then s'.(tasks := s.tasks[id := Completed(t, start, s.now)])
    else if WillRetry(t) then
      s'.(tasks := s.tasks[id := Failed(t, start, s.now)], queues := Append(s.queues, t.level, id))
    else s'.(tasks := s.tasks[id := Failed(t, start, s.now)])
  }

  function Apply(s: State, e: Event): State {
    match e
    case Tick(d) => s.(now := s.now + d)
    case Submit(l, r, m, due) => AddTask(s, NewTask(OneShot, l, r, m, due))
    case StartJob(job) =>
      if job.OneShot? || job in s.started then s
      else AddTask(s.(started := s.started + {job}), FirstCopy(job, s.now))
    case _ => if e.w < |s.workers| then ApplyWorker(s, e.w, e) else s
  }

  function ApplyWorker(s: State, w: nat, e: Event): State
    requires w < |s.workers|
  {
    var k := s.workers[w];
    if e.Begin? && k.Idle? then SetWorker(s, w, Scanning(0))
    else if e.Test? && k.Scanning? then TestQueue(s, w, k.level)
    else if e.Pop? && k.SawTask? then PopHead(s, w, k.level)
    else if e.Decide? && k.Holding? && k.id < |s.tasks| then DecideTask(s, w, k.level, k.id)
    else if e.Body? && k.Executing? && k.id < |s.tasks| then RunBody(s, w, k.id, k.start)
    else if e.Finish? && k.Returned? && k.id < |s.tasks| then FinishTask(s, w, k.id, k.start, e.raised)
    else s
  }

  function Initial(workers: nat, now: int): State {
    State(now, [], [[], [], [], []], seq(workers, _ => Idle), {})
  }

  function Run(workers: nat, now: int, es: seq<Event>): State {
    if es == [] then Initial(workers, now)
    else Apply(Run(workers, now, es[..|es| - 1]), es[|es| - 1])
  }

  // ---------------------------------------------------------------- where tasks are

  function Holds(k: Worker, id: nat): nat {
    if (k.Holding? || k.Executing? || k.Returned?) && k.id == id then 1 else 0
  }

  function InHands(ks: seq<Worker>, id: nat): nat {
    if ks == [] then 0 else InHands(ks[..|ks| - 1], id) + Holds(ks[|ks| - 1], id)
  }

  function InQueue(q: seq<nat>, id: nat): nat { multiset(q)[id] }

  function InQueues(qs: Queues, id: nat): nat {
    InQueue(qs[0], id) + InQueue(qs[1], id) + InQueue(qs[2], id) + InQueue(qs[3], id)
  }

  /** In how many queue slots and workers' hands the task object `id` is. */
  function Places(s: State, id: nat): nat { InQueues(s.queues, id) + InHands(s.workers, id) }

  /** Each pending task object is in exactly one place and no other object is anywhere. */
  ghost predicate OnePlaceEach(s: State) {
    forall id: nat :: Places(s, id) == if id < |s.tasks| && s.tasks[id].outcome.Pending? then 1 else 0
  }

  /** A task waits in the queue of its own priority, and runs only once it is due. */
  ghost predicate RightQueues(s: State) {
    forall l: Level, i: nat :: i < |s.queues[l]| ==> s.queues[l][i] < |s.tasks| && s.tasks[s.queues[l][i]].level == l
  }

  predicate WorkerOk(s: State, k: Worker) {
    match k
    case Holding(l, id) => id < |s.tasks| && s.tasks[id].level == l
    case Executing(id, start) => id < |s.tasks| && s.tasks[id].scheduledFor <= start <= s.now
    case Returned(id, start) => id < |s.tasks| && s.tasks[id].scheduledFor <= start <= s.now
    case _ => true
  }

  ghost predicate WorkersOk(s: State) {
    forall w: nat :: w < |s.workers| ==> WorkerOk(s, s.workers[w])
  }

  /** How often a task may still be executed. */
  function Remaining(t: Task): nat {
    if !t.outcome.Pending? then 0
    else if t.retryCount < t.maxRetries then t.maxRetries - t.retryCount + 1
    else 1
  }

  function Allowance(t: Task): nat {
    if t.firstRetry < t.maxRetries then t.maxRetries - t.firstRetry + 1 else 1
  }

  /** The earliest instant at which execution number `k` of `t` may start. */
  function EarliestStart(t: Task, k: nat): int
    requires k <= |t.runs|
  {
    if k == 0 then t.firstDue else t.runs[k - 1].end + Backoff(t.firstRetry + k)
  }

  ghost predicate HistoryOk(t: Task) {
    && (forall k: nat :: k < |t.runs| ==> EarliestStart(t, k) <= t.runs[k].start <= t.runs[k].end)
    && |t.runs| + Remaining(t) <= Allowance(t)
    && (t.outcome.Pending? ==>
          && t.retryCount == t.firstRetry + |t.runs|
          && t.scheduledFor == EarliestStart(t, |t.runs|))
    && (t.outcome.Exhausted? ==> t.maxRetries <= t.retryCount)
    && (!t.job.OneShot? ==> t.firstRetry == 0)
    && (!t.outcome.Pending? ==> t.runs != [] && t.retryCount == t.firstRetry + |t.runs| - 1)
  }

  ghost predicate Histories(s: State) {
    forall id: nat :: id < |s.tasks| ==> HistoryOk(s.tasks[id])
  }

  ghost predicate Inv(s: State) {
    OnePlaceEach(s) && RightQueues(s) && WorkersOk(s) && Histories(s)
  }

  // ---------------------------------------------------------------- the invariant over every run

  lemma InHandsUpdate(ks: seq<Worker>, w: nat, k: Worker, id: nat)
    requires w < |ks|
    ensures Holds(ks[w], id) <= InHands(ks, id)
    ensures InHands(ks[w := k], id) == InHands(ks, id) - Holds(ks[w], id) + Holds(k, id)
  {
    var ks' := ks[w := k];
    if w == |ks| - 1 {
      assert ks'[..|ks| - 1] == ks[..|ks| - 1];
    } else {
      assert ks'[..|ks| - 1] == ks[..|ks| - 1][w := k];
      InHandsUpdate(ks[..|ks| - 1], w, k, id);
    }
  }

  lemma InQueuesUpdate(qs: Queues, l: Level, q: seq<nat>, id: nat)
    ensures InQueues(qs[l := q], id) == InQueues(qs, id) - InQueue(qs[l], id) + InQueue(q, id)
  {}

  lemma InQueueEnds(q: seq<nat>, x: nat, id: nat)
    ensures InQueue(q + [x], id) == InQueue([x] + q, id) == InQueue(q, id) + if x == id then 1 else 0
  {}

  lemma PlacesUpdate(s: State, s': State, w: nat, k: Worker, l: Level, q: seq<nat>, id: nat)
    requires w < |s.workers| && s'.workers == s.workers[w := k] && s'.queues == s.queues[l := q]
    ensures Places(s', id)
         == Places(s, id) - Holds(s.workers[w], id) + Holds(k, id) - InQueue(s.queues[l], id) + InQueue(q, id)
  {
    InHandsUpdate(s.workers, w, k, id);
    InQueuesUpdate(s.queues, l, q, id);
  }

  /** A task object in some worker's hands is pending and in no other worker's hands. */
  lemma HeldIsPending(s: State, w: nat, id: nat)
    requires OnePlaceEach(s) && w < |s.workers| && Holds(s.workers[w], id) == 1
    ensures id < |s.tasks| && s.tasks[id].outcome.Pending?
    ensures forall v: nat :: v < |s.workers| && v != w ==> Holds(s.workers[v], id) == 0
    ensures forall l: Level :: id !in s.queues[l]
  {
    InHandsUpdate(s.workers, w, Idle, id);
    assert Places(s, id) == 1;
    forall v: nat | v < |s.workers| && v != w ensures Holds(s.workers[v], id) == 0 {
      InHandsUpdate(s.workers[w := Idle], v, Idle, id);
    }
    forall l: Level ensures id !in s.queues[l] {
      assert InQueue(s.queues[l], id) == 0;
    }
  }

  lemma AddTaskInv(s: State, t: Task)
    requires Inv(s) && HistoryOk(t) && t.outcome.Pending?
    ensures Inv(AddTask(s, t))
  {
    var s' := AddTask(s, t);
    var n := |s.tasks|;
    forall id: nat ensures Places(s', id) == Places(s, id) + if id == n then 1 else 0 {
      InQueuesUpdate(s.queues, t.level, s.queues[t.level] + [n], id);
      InQueueEnds(s.queues[t.level], n, id);
    }
    assert Places(s, n) == 0;
    forall id: nat
      ensures Places(s', id) == if id < |s'.tasks| && s'.tasks[id].outcome.Pending? then 1 else 0
    {
      assert Places(s, id) == if id < n && s.tasks[id].outcome.Pending? then 1 else 0;
    }
    forall w: nat | w < |s'.workers| ensures WorkerOk(s', s'.workers[w]) {
      assert WorkerOk(s, s.workers[w]);
    }
  }

  lemma SamePlaces(s: State, s': State)
    requires OnePlaceEach(s) && s'.tasks == s.tasks
    requires forall id: nat :: Places(s', id) == Places(s, id)
    ensures OnePlaceEach(s')
  {
    forall id: nat
      ensures Places(s', id) == if id < |s'.tasks| && s'.tasks[id].outcome.Pending? then 1 else 0
    {
      assert Places(s', id) == Places(s, id);
    }
  }

  /** The workers other than `w` are as they were; time may have passed. */
  lemma OtherWorkersOk(s: State, s': State, w: nat)
    requires WorkersOk(s) && s.now <= s'.now && |s'.workers| == |s.workers|
    requires forall v: nat :: v < |s.workers| && v != w ==> s'.workers[v] == s.workers[v]
    requires forall v: nat, id: nat :: v < |s.workers| && v != w && Holds(s.workers[v], id) == 1 && id < |s.tasks| ==>
               id < |s'.tasks| && s'.tasks[id] == s.tasks[id]
    requires w < |s.workers| ==> WorkerOk(s', s'.workers[w])
    ensures WorkersOk(s')
  {
    forall v: nat | v < |s'.workers| ensures WorkerOk(s', s'.workers[v]) {
      if v != w {
        var k := s.workers[v];
        assert WorkerOk(s, k);
        if k.Holding? || k.Executing? || k.Returned? {
          assert Holds(k, k.id) == 1;
        }
      }
    }
  }

  /** A worker that moves without touching a queue and keeps what it holds. */
  lemma MoveInv(s: State, w: nat, k: Worker)
    requires Inv(s) && w < |s.workers| && WorkerOk(s, k)
    requires forall id :: Holds(k, id) == Holds(s.workers[w], id)
    ensures Inv(SetWorker(s, w, k))
  {
    var s' := SetWorker(s, w, k);
    forall id: nat ensures Places(s', id) == Places(s, id) {
      InHandsUpdate(s.workers, w, k, id);
    }
    SamePlaces(s, s');
    OtherWorkersOk(s, s', w);
  }

  lemma PopPlaces(s: State, w: nat, l: Level, id: nat)
    requires w < |s.workers| && s.workers[w] == SawTask(l) && s.queues[l] != []
    ensures Places(PopHead(s, w, l), id) == Places(s, id)
  {
    var q, x := s.queues[l], s.queues[l][0];
    PlacesUpdate(s, PopHead(s, w, l), w, Holding(l, x), l, q[1..], id);
    assert q == [x] + q[1..];
    InQueueEnds(q[1..], x, id);
  }

  lemma PopQueues(s: State, l: Level)
    requires RightQueues(s) && s.queues[l] != []
    ensures RightQueues(s.(queues := s.queues[l := s.queues[l][1..]]))
  {
    var q := s.queues[l][1..];
    forall i: nat | i < |q| ensures q[i] < |s.tasks| && s.tasks[q[i]].level == l {
      assert q[i] == s.queues[l][i + 1];
    }
  }

  lemma PopInv(s: State, w: nat, l: Level)
    requires Inv(s) && w < |s.workers| && s.workers[w] == SawTask(l) && s.queues[l] != []
    ensures Inv(PopHead(s, w, l))
  {
    var s' := PopHead(s, w, l);
    forall id: nat ensures Places(s', id) == Places(s, id) {
      PopPlaces(s, w, l, id);
    }
    SamePlaces(s, s');
    PopQueues(s, l);
    assert RightQueues(s');
    OtherWorkersOk(s, s', w);
  }

  lemma PutBackPlaces(s: State, w: nat, l: Level, x: nat, id: nat)
    requires w < |s.workers| && s.workers[w] == Holding(l, x) && x < |s.tasks|
    requires s.now < s.tasks[x].scheduledFor
    ensures Places(DecideTask(s, w, l, x), id) == Places(s, id)
  {
    PlacesUpdate(s, DecideTask(s, w, l, x), w, NextLevel(l), l, [x] + s.queues[l], id);
    InQueueEnds(s.queues[l], x, id);
  }

  lemma PutBackQueues(s: State, l: Level, x: nat)
    requires RightQueues(s) && x < |s.tasks| && s.tasks[x].level == l
    ensures RightQueues(s.(queues := s.queues[l := [x] + s.queues[l]]))
  {
    var q := [x] + s.queues[l];
    forall i: nat | i < |q| ensures q[i] < |s.tasks| && s.tasks[q[i]].level == l {
      assert i > 0 ==> q[i] == s.queues[l][i - 1];
    }
  }

  lemma PutBackInv(s: State, w: nat, l: Level, x: nat)
    requires Inv(s) && w < |s.workers| && s.workers[w] == Holding(l, x) && x < |s.tasks|
    requires s.now < s.tasks[x].scheduledFor
    ensures Inv(DecideTask(s, w, l, x))
  {
    var s' := DecideTask(s, w, l, x);
    assert WorkerOk(s, s.workers[w]);
    forall id: nat ensures Places(s', id) == Places(s, id) {
      PutBackPlaces(s, w, l, x, id);
    }
    SamePlaces(s, s');
    PutBackQueues(s, l, x);
    assert RightQueues(s');
    OtherWorkersOk(s, s', w);
  }

  lemma LongerHistory(t: Task, t': Task, start: int, now: int)
    requires HistoryOk(t) && t.outcome.Pending? && t.scheduledFor <= start <= now
    requires t'.runs == t.runs + [Execution(start, now)] && t'.firstDue == t.firstDue && t'.firstRetry == t.firstRetry
    ensures forall k: nat :: k < |t'.runs| ==> EarliestStart(t', k) <= t'.runs[k].start <= t'.runs[k].end
  {
    forall k: nat | k < |t'.runs| ensures EarliestStart(t', k) <= t'.runs[k].start <= t'.runs[k].end {
      assert EarliestStart(t', k) == EarliestStart(t, k);
      if k < |t.runs| {
        assert t'.runs[k] == t.runs[k];
      }
    }
  }

  lemma OutcomeHistory(t: Task, start: int, now: int, raised: bool)
    requires HistoryOk(t) && t.outcome.Pending? && t.scheduledFor <= start <= now
    ensures HistoryOk(if raised then Failed(t, start, now) else Completed(t, start, now))
  {
    LongerHistory(t, if raised then Failed(t, start, now) else Completed(t, start, now), start, now);
  }

  /** The task leaves the worker: it is requeued, or it is finished and is nowhere. */
  lemma FinishPlaces(s: State, w: nat, x: nat, start: int, raised: bool, id: nat)
    requires w < |s.workers| && s.workers[w] == Returned(x, start) && x < |s.tasks|
    requires s.tasks[x].outcome.Pending?
    ensures
      var s' := FinishTask(s, w, x, start, raised);
      Places(s', id) == Places(s, id) - if id == x && !s'.tasks[x].outcome.Pending? then 1 else 0
  {
    var l := s.tasks[x].level;
    var q := if raised && WillRetry(s.tasks[x]) then s.queues[l] + [x] else s.queues[l];
    PlacesUpdate(s, FinishTask(s, w, x, start, raised), w, Idle, l, q, id);
    InQueueEnds(s.queues[l], x, id);
  }

  lemma FinishOnePlace(s: State, w: nat, x: nat, start: int, raised: bool)
    requires OnePlaceEach(s) && w < |s.workers| && s.workers[w] == Returned(x, start) && x < |s.tasks|
    requires s.tasks[x].outcome.Pending?
    ensures OnePlaceEach(FinishTask(s, w, x, start, raised))
  {
    var s' := FinishTask(s, w, x, start, raised);
    assert forall i: nat :: i < |s.tasks| && i != x ==> s'.tasks[i] == s.tasks[i];
    forall id: nat
      ensures Places(s', id) == if id < |s'.tasks| && s'.tasks[id].outcome.Pending? then 1 else 0
    {
      assert Places(s, id) == if id < |s.tasks| && s.tasks[id].outcome.Pending? then 1 else 0;
      FinishPlaces(s, w, x, start, raised, id);
    }
  }

  lemma AppendQueues(s: State, s': State, x: nat)
    requires RightQueues(s) && x < |s.tasks| == |s'.tasks|
    requires forall i: nat :: i < |s.tasks| ==> s'.tasks[i].level == s.tasks[i].level
    requires s'.queues == s.queues || s'.queues == Append(s.queues, s.tasks[x].level, x)
    ensures RightQueues(s')
  {
    forall m: Level, i: nat | i < |s'.queues[m]|
      ensures s'.queues[m][i] < |s'.tasks| && s'.tasks[s'.queues[m][i]].level == m
    {
      if i < |s.queues[m]| {
        assert s'.queues[m][i] == s.queues[m][i];
      }
    }
  }

  lemma FinishHistories(s: State, w: nat, x: nat, start: int, raised: bool)
    requires Histories(s) && w < |s.workers| && x < |s.tasks|
    requires s.tasks[x].outcome.Pending? && s.tasks[x].scheduledFor <= start <= s.now
    ensures Histories(FinishTask(s, w, x, start, raised))
  {
    var t := s.tasks[x];
    OutcomeHistory(t, start, s.now, raised);
    assert FinishTask(s, w, x, start, raised).tasks
        == s.tasks[x := if raised then Failed(t, start, s.now) else Completed(t, start, s.now)];
  }

  lemma FinishInv(s: State, w: nat, x: nat, start: int, raised: bool)
    requires Inv(s) && w < |s.workers| && s.workers[w] == Returned(x, start) && x < |s.tasks|
    ensures Inv(FinishTask(s, w, x, start, raised))
  {
    var s' := FinishTask(s, w, x, start, raised);
    HeldIsPending(s, w, x);
    assert WorkerOk(s, s.workers[w]);
    FinishOnePlace(s, w, x, start, raised);
    FinishHistories(s, w, x, start, raised);
    OtherWorkersOk(s, s', w);
    AppendQueues(s, s', x);
  }

  lemma DecideInv(s: State, w: nat, l: Level, x: nat)
    requires Inv(s) && w < |s.workers| && s.workers[w] == Holding(l, x) && x < |s.tasks|
    ensures Inv(DecideTask(s, w, l, x))
  {
    if s.tasks[x].scheduledFor <= s.now {
      MoveInv(s, w, Executing(x, s.now));
    } else {
      PutBackInv(s, w, l, x);
    }
  }

  lemma RunBodyInv(s: State, w: nat, x: nat, start: int)
    requires Inv(s) && w < |s.workers| && s.workers[w] == Executing(x, start) && x < |s.tasks|
    ensures Inv(RunBody(s, w, x, start))
  {
    assert WorkerOk(s, s.workers[w]);
    MoveInv(s, w, Returned(x, start));
    if !s.tasks[x].job.OneShot? {
      AddTaskInv(SetWorker(s, w, Returned(x, start)), NextCopy(s.tasks[x].job, s.now));
    }
  }

  lemma ApplyWorkerInv(s: State, w: nat, e: Event)
    requires Inv(s) && w < |s.workers|
    ensures Inv(ApplyWorker(s, w, e))
  {
    var k := s.workers[w];
    if e.Begin? && k.Idle? {
      MoveInv(s, w, Scanning(0));
    } else if e.Test? && k.Scanning? {
      MoveInv(s, w, if s.queues[k.level] != [] then SawTask(k.level) else NextLevel(k.level));
    } else if e.Pop? && k.SawTask? {
      if s.queues[k.level] == [] { MoveInv(s, w, Idle); } else { PopInv(s, w, k.level); }
    } else if e.Decide? && k.Holding? && k.id < |s.tasks| {
      DecideInv(s, w, k.level, k.id);
    } else if e.Body? && k.Executing? && k.id < |s.tasks| {
      RunBodyInv(s, w, k.id, k.start);
    } else if e.Finish? && k.Returned? && k.id < |s.tasks| {
      FinishInv(s, w, k.id, k.start, e.raised);
    }
  }

  lemma ApplyInv(s: State, e: Event)
    requires Inv(s)
    ensures Inv(Apply(s, e))
  {
    match e
    case Tick(d) =>
      SamePlaces(s, Apply(s, e));
      OtherWorkersOk(s, Apply(s, e), |s.workers|);
    case Submit(l, r, m, due) => AddTaskInv(s, NewTask(OneShot, l, r, m, due));
    case StartJob(job) =>
      if !(job.OneShot? || job in s.started) {
        var s1 := s.(started := s.started + {job});
        SamePlaces(s, s1);
        OtherWorkersOk(s, s1, |s.workers|);
        AddTaskInv(s1, FirstCopy(job, s.now));
      }
    case _ => if e.w < |s.workers| { ApplyWorkerInv(s, e.w, e); }
  }

  /** The invariant holds after every run, however the workers interleave. */
  lemma {:induction false} RunInv(workers: nat, now: int, es: seq<Event>)
    ensures Inv(Run(workers, now, es))
  {
    if es == [] {
      var s := Initial(workers, now);
      forall id: nat ensures Places(s, id) == 0 { NothingInHands(s.workers, id); }
    } else {
      RunInv(workers, now, es[..|es| - 1]);
      ApplyInv(Run(workers, now, es[..|es| - 1]), es[|es| - 1]);
    }
  }

  lemma NothingInHands(ks: seq<Worker>, id: nat)
    requires forall w: nat :: w < |ks| ==> ks[w] == Idle
    ensures InHands(ks, id) == 0
  {}

  // ---------------------------------------------------------------- safety

  /** No task is in the hands of two workers, nor in a queue while a worker has it; it waits in
      the queue of its own priority and in one slot of it only. */
  lemma SingleOwner(workers: nat, now: int, es: seq<Event>, w: nat, id: nat)
    requires w < |Run(workers, now, es).workers| && Holds(Run(workers, now, es).workers[w], id) == 1
    ensures
      var s := Run(workers, now, es);
      && (forall v: nat :: v < |s.workers| && v != w ==> Holds(s.workers[v], id) == 0)
      && (forall l: Level :: id !in s.queues[l])
  {
    RunInv(workers, now, es);
    HeldIsPending(Run(workers, now, es), w, id);
  }

  lemma {:induction false} NoTaskLost(workers: nat, now: int, es: seq<Event>, id: nat)
    ensures
      var s := Run(workers, now, es);
      && (id < |s.tasks| && s.tasks[id].outcome.Pending? <==> Places(s, id) == 1)
      && Places(s, id) <= 1
      && (id < |s.tasks| && s.tasks[id].outcome.Exhausted? ==> s.tasks[id].maxRetries <= s.tasks[id].retryCount)
  {
    var s := Run(workers, now, es);
    RunInv(workers, now, es);
    assert Places(s, id) == if id < |s.tasks| && s.tasks[id].outcome.Pending? then 1 else 0;
    if id < |s.tasks| {
      assert HistoryOk(s.tasks[id]);
    }
  }

  /** A task leaves the system only when the worker executing it reports success, or reports a
      failure with no retry left. */
  lemma LeavesOnlyWhenDone(s: State, e: Event, id: nat)
    requires id < |s.tasks| && s.tasks[id].outcome.Pending?
    ensures
      var s' := Apply(s, e);
      && id < |s'.tasks|
      && (s'.tasks[id].outcome == Pending
          || (&& e.Finish? && e.w < |s.workers| && s.workers[e.w].Returned? && s.workers[e.w].id == id
              && if e.raised then s'.tasks[id].outcome == Exhausted && !WillRetry(s.tasks[id])
                 else s'.tasks[id].outcome == Succeeded))
  {}

  /** Execution 0 of `t` started no earlier than scheduled, execution `k` no earlier than the backoff
      after the one before, and there were no more of them than `t`'s retries allow. */
  ghost predicate OnSchedule(t: Task) {
    && (forall k: nat :: k < |t.runs| ==>
          (if k == 0 then t.firstDue else t.runs[k - 1].end + (t.firstRetry + k) * 2 * 60_000_000) <= t.runs[k].start)
    && |t.runs| <= if t.firstRetry < t.maxRetries then t.maxRetries - t.firstRetry + 1 else 1
  }

  lemma HistoryOnSchedule(t: Task)
    requires HistoryOk(t)
    ensures OnSchedule(t)
  {
    forall k: nat | k < |t.runs|
      ensures (if k == 0 then t.firstDue else t.runs[k - 1].end + (t.firstRetry + k) * 2 * 60_000_000) <= t.runs[k].start
    {
      assert EarliestStart(t, k) <= t.runs[k].start;
    }
  }

  /** No execution starts before its time, retry `k` of a new task waits at least `2k` minutes after
      the failure, and no task is executed more often than its retries allow. */
  lemma ExecutionsOnSchedule(workers: nat, now: int, es: seq<Event>)
    ensures forall id: nat :: id < |Run(workers, now, es).tasks| ==> OnSchedule(Run(workers, now, es).tasks[id])
  {
    RunInv(workers, now, es);
    var s := Run(workers, now, es);
    forall id: nat | id < |s.tasks| ensures OnSchedule(s.tasks[id]) {
      assert HistoryOk(s.tasks[id]);
      HistoryOnSchedule(s.tasks[id]);
    }
  }

  // ---------------------------------------------------------------- one worker, and two

  predicate HeadDue(s: State, l: Level) {
    s.queues[l] != [] && s.queues[l][0] < |s.tasks| && s.tasks[s.queues[l][0]].scheduledFor <= s.now
  }

  /** The first level from `l` on whose head is due, or 4. */
  function DueLevel(s: State, l: nat): (d: nat)
    requires l <= 4
    ensures l <= d <= 4 && (d < 4 ==> HeadDue(s, d))
    ensures forall m: Level :: l <= m < d ==> !HeadDue(s, m)
    decreases 4 - l
  {
    if l == 4 then 4 else if HeadDue(s, l) then l else DueLevel(s, l + 1)
  }

  /** Worker `w` looks at one queue with no other worker in between. */
  function SoloLook(s: State, w: nat, l: Level): State
    requires w < |s.workers|
  {
    var s1 := TestQueue(s, w, l);
    var s2 := if s1.workers[w] == SawTask(l) then PopHead(s1, w, l) else s1;
    if s2.workers[w].Holding? && s2.workers[w].id < |s2.tasks| then DecideTask(s2, w, l, s2.workers[w].id) else s2
  }

  /** Worker `w` scans from level `l` on with no other worker in between. */
  function SoloScan(s: State, w: nat, l: Level): State
    requires w < |s.workers|
    decreases 4 - l
  {
    var s' := SoloLook(s, w, l);
    if l < 3 && s'.workers[w] == Scanning(l + 1) then SoloScan(s', w, l + 1) else s'
  }

  lemma SoloLookSkips(s: State, w: nat, l: Level)
    requires w < |s.workers| && s.workers[w] == Scanning(l) && RightQueues(s) && !HeadDue(s, l)
    ensures SoloLook(s, w, l) == SetWorker(s, w, NextLevel(l))
  {
    var q := s.queues[l];
    if q != [] {
      var s1 := TestQueue(s, w, l);
      var s2 := PopHead(s1, w, l);
      assert s2.workers == s.workers[w := Holding(l, q[0])];
      assert [q[0]] + q[1..] == q;
      assert s2.queues[l := [q[0]] + s2.queues[l]] == s.queues;
      assert s2.workers[w := NextLevel(l)] == s.workers[w := NextLevel(l)];
    }
  }

  lemma SoloLookTakes(s: State, w: nat, l: Level)
    requires w < |s.workers| && s.workers[w] == Scanning(l) && HeadDue(s, l)
    ensures SoloLook(s, w, l)
         == SetWorker(s, w, Executing(s.queues[l][0], s.now)).(queues := s.queues[l := s.queues[l][1..]])
  {
    var x := s.queues[l][0];
    var s2 := PopHead(TestQueue(s, w, l), w, l);
    assert s2.workers == s.workers[w := Holding(l, x)];
    assert s2.workers[w := Executing(x, s.now)] == s.workers[w := Executing(x, s.now)];
  }

  /** Undisturbed, a worker takes the head of the highest-priority queue whose head is due and
      leaves every other queue, and the rest of that one, in order. */
  lemma {:induction false} SoloScanTakesDueHead(s: State, w: nat, l: Level)
    requires w < |s.workers| && s.workers[w] == Scanning(l) && RightQueues(s)
    ensures
      var d := DueLevel(s, l);
      SoloScan(s, w, l) ==
        if d == 4 then SetWorker(s, w, Idle)
        else SetWorker(s, w, Executing(s.queues[d][0], s.now)).(queues := s.queues[d := s.queues[d][1..]])
    decreases 4 - l
  {
    if HeadDue(s, l) {
      SoloLookTakes(s, w, l);
    } else {
      SoloLookSkips(s, w, l);
      if l < 3 {
        var s' := SetWorker(s, w, NextLevel(l));
        SoloScanTakesDueHead(s', w, l + 1);
        SameDueLevel(s, s', l + 1);
        var d := DueLevel(s, l + 1);
        var k := if d == 4 then Idle else Executing(s.queues[d][0], s.now);
        assert s'.workers[w := k] == s.workers[w := k];
      }
    }
  }

  /** Waiting helps: once the time of a queue's head has come, an undisturbed worker that begins to scan executes a
      task, of this priority or a higher one. */
  lemma HeadTakenInTime(s: State, w: nat, l: Level, d: nat)
    requires w < |s.workers| && s.workers[w] == Scanning(0) && RightQueues(s)
    requires s.queues[l] != [] && s.tasks[s.queues[l][0]].scheduledFor <= s.now + d
    ensures
      var s1 := Apply(s, Tick(d));
      var m := DueLevel(s1, 0);
      && s1 == State(s.now + d, s.tasks, s.queues, s.workers, s.started) && m <= l
      && SoloScan(s1, w, 0) == SetWorker(s1, w, Executing(s1.queues[m][0], s1.now)).(queues := s1.queues[m := s1.queues[m][1..]])
  {
    var s1 := Apply(s, Tick(d));
    assert RightQueues(s1) && HeadDue(s1, l);
    SoloScanTakesDueHead(s1, w, 0);
  }

  lemma SameDueLevel(s: State, s': State, l: nat)
    requires l <= 4 && s'.queues == s.queues && s'.tasks == s.tasks && s'.now == s.now
    ensures DueLevel(s', l) == DueLevel(s, l)
    decreases 4 - l
  {}

  /** Two workers that each pop a head that is not due can put the two back in the other order. */
  lemma TwoWorkersReorder(s: State, l: Level, a: nat, b: nat)
    requires |s.workers| >= 2 && s.workers[0] == s.workers[1] == SawTask(l)
    requires |s.queues[l]| >= 2 && s.queues[l][..2] == [a, b] && a < |s.tasks| && b < |s.tasks|
    requires s.now < s.tasks[a].scheduledFor && s.now < s.tasks[b].scheduledFor
    ensures
      var s' := Apply(Apply(Apply(Apply(s, Pop(0)), Pop(1)), Decide(0)), Decide(1));
      s'.queues == s.queues[l := [b, a] + s.queues[l][2..]]
  {
    var q := s.queues[l];
    assert q[0] == q[..2][0] == a && q[1] == q[..2][1] == b;
    var s1 := Apply(s, Pop(0));
    var s2 := Apply(s1, Pop(1));
    assert s2.queues[l] == q[2..];
    var s3 := Apply(s2, Decide(0));
    assert s3.queues[l] == [a] + q[2..];
    var s4 := Apply(s3, Decide(1));
    assert s4.queues[l] == [b] + ([a] + q[2..]) == [b, a] + q[2..];
    assert s4.queues == s.queues[l := [b, a] + q[2..]];
  }
}
