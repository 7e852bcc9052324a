/** The vitality task queue: tasks are added at any time, one worker takes them first come, first
    served, and the set of active addresses keeps a collection from being queued twice. */
module VitalityQueue {

  datatype Task = Task(id: string, address: string, priority: nat, retryCount: int, maxRetries: int)

  /** In `Backoff` the worker sleeps before it adds its failed task again. */
  datatype Worker = Waiting | Running(task: Task) | Backoff(task: Task)

  /** `accepted` and `executed` are the histories of the tasks put into the queue and of those whose
      execution has begun. */
  datatype State = State(queue: seq<Task>, active: set<string>, worker: Worker, accepted: seq<Task>, executed: seq<Task>)

  datatype Event = Add(task: Task) | Take | Succeed | NotFound | Raise | WakeUp

  function AddTask(s: State, t: Task): State {
    if t.address in s.active then s
    else s.(queue := s.queue + [t], active := s.active + {t.address}, accepted := s.accepted + [t])
  }

  /** The `finally` block: the address is free again and the worker waits for the next task. */
  function Release(s: State, t: Task): State { s.(active := s.active - {t.address}, worker := Waiting) }

  function Apply(s: State, e: Event): State {
    match e
    case Add(t) => AddTask(s, t)
    case Take =>
      if s.worker.Waiting? && s.queue != []
      then s.(worker := Running(s.queue[0]), queue := s.queue[1..], executed := s.executed + [s.queue[0]]) else s
    case Succeed => if s.worker.Running? then Release(s, s.worker.task) else s
    case NotFound => if s.worker.Running? then Release(s, s.worker.task) else s
    case Raise =>
      if !s.worker.Running? then s
      else
        var t := s.worker.task;
        if t.retryCount < t.maxRetries then s.(worker := Backoff(t.(retryCount := t.retryCount + 1)))
        else Release(s, t)
    case WakeUp => if s.worker.Backoff? then Release(AddTask(s, s.worker.task), s.worker.task) else s
  }

  const EMPTY := State([], {}, Waiting, [], [])

  function Run(es: seq<Event>): State {
    if es == [] then EMPTY else Apply(Run(es[..|es| - 1]), es[|es| - 1])
  }

  /** The addresses with an outstanding task: the one in the worker's hands, then the queued ones. */
  function Outstanding(s: State): seq<string> {
    (if s.worker.Waiting? then [] else [s.worker.task.address]) + seq(|s.queue|, i requires 0 <= i < |s.queue| => s.queue[i].address)
  }

  predicate Distinct(xs: seq<string>) { forall i: nat, j: nat :: i < j < |xs| ==> xs[i] != xs[j] }

  ghost predicate Inv(s: State) {
    && Distinct(Outstanding(s))
    && s.active == (set x | x in Outstanding(s))
    && s.accepted == s.executed + s.queue
  }

  lemma AddInv(s: State, t: Task)
    requires Inv(s)
    ensures Inv(AddTask(s, t))
  {
    if t.address !in s.active {
      assert t.address !in Outstanding(s);
      assert Outstanding(AddTask(s, t)) == Outstanding(s) + [t.address];
    }
  }

  lemma DistinctTail(xs: seq<string>)
    requires xs != [] && Distinct(xs)
    ensures Distinct(xs[1..]) && (set x | x in xs[1..]) == (set x | x in xs) - {xs[0]}
  {
    assert forall x :: x in xs <==> x == xs[0] || x in xs[1..];
    forall x | x in xs[1..] ensures x != xs[0] {
      var j: nat :| j < |xs| - 1 && xs[1..][j] == x;
      assert xs[j + 1] == x;
    }
  }

  lemma ReleaseInv(s: State)
    requires Inv(s) && !s.worker.Waiting?
    ensures Inv(Release(s, s.worker.task))
  {
    var o := Outstanding(s);
    assert o[0] == s.worker.task.address;
    assert Outstanding(Release(s, s.worker.task)) == o[1..];
    DistinctTail(o);
  }

  lemma TakeInv(s: State)
    requires Inv(s)
    ensures Inv(Apply(s, Take))
  {
    if s.worker.Waiting? && s.queue != [] {
      assert Outstanding(Apply(s, Take)) == Outstanding(s);
    }
  }

  /** The retry's `add_task` finds the address still active. */
  lemma RetryRefused(s: State)
    requires Inv(s) && s.worker.Backoff?
    ensures AddTask(s, s.worker.task) == s
  {
    assert Outstanding(s)[0] == s.worker.task.address;
  }

  lemma ApplyInv(s: State, e: Event)
    requires Inv(s)
    ensures Inv(Apply(s, e))
  {
    match e
    case Add(t) => AddInv(s, t);
    case Take => TakeInv(s);
    case WakeUp => if s.worker.Backoff? { RetryRefused(s); ReleaseInv(s); }
    case Raise =>
      if s.worker.Running? {
        ReleaseInv(s);
        assert Apply(s, e).worker.Backoff? ==> Outstanding(Apply(s, e)) == Outstanding(s);
      }
    case _ => if s.worker.Running? { ReleaseInv(s); }
  }

  lemma {:induction false} RunInv(es: seq<Event>)
    ensures Inv(Run(es))
  {
    if es != [] {
      RunInv(es[..|es| - 1]);
      ApplyInv(Run(es[..|es| - 1]), es[|es| - 1]);
    }
  }

  /** A collection has at most one outstanding task, and the active set is exactly the addresses of
      the queued tasks and of the one in the worker's hands. */
  lemma {:induction false} ActiveIsOutstanding(es: seq<Event>)
    ensures
      var s := Run(es);
      && (forall a :: a in s.active <==> (exists t :: t in s.queue && t.address == a) || (!s.worker.Waiting? && s.worker.task.address == a))
      && (forall i: nat, j: nat :: i < j < |s.queue| ==> s.queue[i].address != s.queue[j].address)
      && (forall t :: t in s.queue && !s.worker.Waiting? ==> t.address != s.worker.task.address)
  {
    RunInv(es);
    var s := Run(es);
    var o := Outstanding(s);
    var d := |o| - |s.queue|;
    assert forall i: nat :: i < |s.queue| ==> s.queue[i].address == o[i + d];
    forall a ensures a in s.active <==> (exists t :: t in s.queue && t.address == a) || (!s.worker.Waiting? && s.worker.task.address == a) {
      if a in s.active {
        var k: nat :| k < |o| && o[k] == a;
        assert k >= d ==> s.queue[k - d] in s.queue;
      }
    }
    forall t | t in s.queue && !s.worker.Waiting? ensures t.address != s.worker.task.address {
      var i: nat :| i < |s.queue| && s.queue[i] == t;
      assert o[0] != o[i + d];
    }
    forall i: nat, j: nat | i < j < |s.queue| ensures s.queue[i].address != s.queue[j].address {
      assert o[i + d] != o[j + d];
    }
  }

  /** Tasks are executed in the order they were accepted, whatever their priority, and each of them
      once: those executed so far are the first ones accepted, and the rest are still queued. */
  lemma ExecutedOnceInOrder(es: seq<Event>)
    ensures Run(es).accepted == Run(es).executed + Run(es).queue
    ensures Run(es).worker.Backoff? ==> AddTask(Run(es), Run(es).worker.task) == Run(es)
  {
    RunInv(es);
    if Run(es).worker.Backoff? {
      RetryRefused(Run(es));
    }
  }

  lemma Next(es: seq<Event>, e: Event)
    ensures Run(es + [e]) == Apply(Run(es), e)
  {
    assert (es + [e])[..|es|] == es;
  }

  /** A task is queued last exactly if its address has no outstanding task; the oldest one is taken when the worker
      waits. */
  lemma AcceptedWhenFree(es: seq<Event>, t: Task)
    ensures
      var s, s' := Run(es), Run(es + [Add(t)]);
      && s'.worker == s.worker && s'.executed == s.executed
      && (t.address !in s.active ==> s'.queue == s.queue + [t] && s'.accepted == s.accepted + [t] && s'.active == s.active + {t.address})
      && (t.address in s.active ==> s' == s)
    ensures Run(es).worker == Waiting && Run(es).queue != [] ==>
      var s, s' := Run(es), Run(es + [Take]);
      s'.worker == Running(s.queue[0]) && [s.queue[0]] + s'.queue == s.queue && s'.executed == s.executed + [s.queue[0]] && s'.active == s.active
  {
    Next(es, Add(t));
    Next(es, Take);
  }

  /** How an execution ends: the address is free at once after a success, for a collection that is gone, and after a
      failure with no retry left; with one left it stays busy while the worker waits, with the retry counted. */
  lemma ExecutionEnds(es: seq<Event>)
    requires Run(es).worker.Running?
    ensures
      var s := Run(es);
      var t, freed := s.worker.task, s.(active := s.active - {s.worker.task.address}, worker := Waiting);
      && Run(es + [Succeed]) == Run(es + [NotFound]) == freed
      && (t.retryCount >= t.maxRetries ==> Run(es + [Raise]) == freed)
      && (t.retryCount < t.maxRetries ==>
            && Run(es + [Raise]).worker == Backoff(Task(t.id, t.address, t.priority, t.retryCount + 1, t.maxRetries))
            && Run(es + [Raise]).queue == s.queue && Run(es + [Raise]).active == s.active)
  {
    Next(es, Succeed);
    Next(es, NotFound);
    Next(es, Raise);
  }

  /** Nothing stands in the way of the queue: from every run on, a worker whose executions succeed executes all that
      was accepted, in order, and frees every address. */
  lemma {:induction false} Drains(es: seq<Event>) returns (es': seq<Event>)
    requires Run(es).worker.Waiting?
    ensures es <= es'
    ensures
      var s, s' := Run(es), Run(es');
      s'.queue == [] && s'.worker == Waiting && s'.executed == s'.accepted == s.accepted && s'.active == {}
    decreases |Run(es).queue|
  {
    RunInv(es);
    if Run(es).queue == [] {
      es' := es;
    } else {
      Next(es, Take);
      Next(es + [Take], Succeed);
      es' := Drains(es + [Take] + [Succeed]);
    }
  }

  /** A failed task is not executed again: waking up from the backoff frees its address and does
      nothing else. */
  lemma RetryIsDropped(es: seq<Event>)
    requires Run(es).worker.Backoff?
    ensures
      var s, s' := Run(es), Run(es + [WakeUp]);
      s' == s.(worker := Waiting, active := s.active - {s.worker.task.address})
  {
    RunInv(es);
    RetryRefused(Run(es));
    assert (es + [WakeUp])[..|es|] == es;
  }
}
